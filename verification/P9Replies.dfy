/**
 * What the runs of the multiplexer come to for the client: which replies are delivered, when
 * the connection stays up, how often a request is called back, and what a cancel leaves.
 */
module P9Replies {
  import opened Bytes
  import opened Common
  import opened P9Mux

  // ---- the reply stream ----

  predicate Frames(fs: seq<seq<byte>>) {
    forall i :: 0 <= i < |fs| ==> Frame(fs[i])
  }

  lemma StartsAlike(a: seq<byte>, b: seq<byte>, c: seq<byte>, d: seq<byte>, k: nat)
    requires a + b <= c + d && k <= |a| && k <= |c|
    ensures a[..k] == c[..k]
  {
    assert a[..k] == (a + b)[..k] && c[..k] == (c + d)[..k];
  }

  lemma SameRest(a: seq<byte>, b: seq<byte>, c: seq<byte>, d: seq<byte>)
    requires a + b <= c + d && |a| == |c|
    ensures a == c && b <= d
  {
    StartsAlike(a, b, c, d, |a|);
    assert a == a[..|a|] && c == c[..|a|];
    assert b == (a + b)[|a|..] && d == (c + d)[|a|..];
  }

  /** A stream can be cut into frames in one way only. */
  lemma {:induction false} CutOnce(ds: seq<Delivery>, fs: seq<seq<byte>>)
    requires Addressed(ds) && Frames(fs) && Received(ds) <= Concat(fs)
    ensures |ds| <= |fs| && forall i :: 0 <= i < |ds| ==> ds[i].frame == fs[i]
    decreases |ds|
  {
    if ds != [] {
      hide SizeOf, SlotOf;
      var d, r := ds[0].frame, Received(ds[1..]);
      assert Received(ds) == d + r && |d| >= HEADER;
      assert fs != [];
      var f, c := fs[0], Concat(fs[1..]);
      StartsAlike(d, r, f, c, HEADER);
      SameHeader(d, f);
      SameRest(d, r, f, c);
      CutOnce(ds[1..], fs[1..]);
      forall i | 0 <= i < |ds|
        ensures ds[i].frame == fs[i]
      {
        if i > 0 {
          assert ds[i] == ds[1..][i - 1] && fs[i] == fs[1..][i - 1];
        }
      }
    }
  }

  /**
   * Over every run, whatever the chunks: the deliveries are the first frames of the reply
   * stream, in order, each given once to the request its tag names; and while the
   * connection is up, every frame that has fully arrived has been delivered.
   */
  lemma {:induction false} DeliveredAlways(m0: Mux, evs: seq<Event>, m: Mux, fs: seq<seq<byte>>)
    requires Init(m0) && Runs(m0, evs, m)
    requires Frames(fs) && m.rx <= Concat(fs)
    ensures var k := |m.delivered|;
            && k <= |fs|
            && (forall i :: 0 <= i < k ==> m.delivered[i] == Delivery(SlotOf(fs[i]), fs[i]))
            && (m.err == 0 && !m.disconnected && k < |fs| ==> |m.rx| < |Received(m.delivered)| + |fs[k]|)
    ensures m.err == 0 && !m.disconnected ==> 0 <= m.rpos <= m.rsize
  {
    hide SizeOf, SlotOf;
    InitInv(m0);
    RunsKeep(m0, evs, m);
    var k := |m.delivered|;
    CutOnce(m.delivered, fs);
    if m.err == 0 && !m.disconnected && k < |fs| {
      PartialShort(m, fs);
    }
  }

  lemma {:induction false} ConcatSplit(fs: seq<seq<byte>>, k: nat)
    requires k < |fs|
    ensures Concat(fs[..k]) + fs[k] <= Concat(fs)
  {
    if k == 0 {
      assert fs[..0] == [];
    } else {
      ConcatSplit(fs[1..], k - 1);
      assert fs[..k][1..] == fs[1..][..k - 1];
      assert Concat(fs[..k]) == fs[0] + Concat(fs[1..][..k - 1]);
    }
  }

  lemma {:induction false} ReceivedIs(ds: seq<Delivery>, fs: seq<seq<byte>>)
    requires |ds| <= |fs| && forall i :: 0 <= i < |ds| ==> ds[i].frame == fs[i]
    ensures Received(ds) == Concat(fs[..|ds|])
  {
    if ds != [] {
      ReceivedIs(ds[1..], fs[1..]);
      assert fs[..|ds|][1..] == fs[1..][..|ds| - 1];
    }
  }

  /** Two continuations of what was received agree on their first n bytes, as far as the stream reaches. */
  lemma {:induction false} SameStart(c: seq<byte>, pre: seq<byte>, p: seq<byte>, f: seq<byte>, n: nat)
    requires pre + p <= c && pre + f <= c && n <= |p| && n <= |f|
    ensures p[..n] == f[..n]
  {
    var k := |pre|;
    assert p[..n] == (pre + p)[k..k + n] == c[k..k + n];
    assert f[..n] == (pre + f)[k..k + n] == c[k..k + n];
  }

  lemma {:induction false} PartialShort(m: Mux, fs: seq<seq<byte>>)
    requires Reading(m) && m.err == 0 && !m.disconnected && Frames(fs) && m.rx <= Concat(fs)
    requires var k := |m.delivered|; k < |fs| && forall i :: 0 <= i < k ==> m.delivered[i].frame == fs[i]
    ensures |Partial(m)| < |fs[|m.delivered|]|
  {
    var k := |m.delivered|;
    ReceivedIs(m.delivered, fs);
    ConcatSplit(fs, k);
    assert Frame(fs[k]);
    if m.rbuf.Rc? {
      var rc := m.reqs[m.cur.value].rc;
      SameStart(Concat(fs), Received(m.delivered), Partial(m), fs[k], HEADER);
      assert Partial(m)[..HEADER] == rc[..HEADER];
      SameHeader(fs[k], rc);
    }
  }

  // ---- when the connection stays up ----

  /** If the chunk completes a header, it announces less than msize and names a request that waits for a reply. */
  predicate Expected(m: Mux, chunk: seq<byte>)
    requires StoreOk(Ready(m), chunk)
  {
    var m2 := Store(Ready(m), chunk);
    m2.cur.None? && m2.rpos == m2.rsize ==>
      && |m2.tmp| == HEADER && SizeOf(m2.tmp) < m.msize && SlotOf(m2.tmp) < |m.reqs|
      && (m.reqs[SlotOf(m2.tmp)].status == Sent || m.reqs[SlotOf(m2.tmp)].status == Flsh)
  }

  /** A read of data keeps the connection up if and only if the reply is an expected one. */
  lemma {:induction false} ReadKeepsUp(m: Mux, chunk: seq<byte>)
    requires Inv(m) && m.err == 0 && !m.disconnected && ReadOk(m, Done(chunk))
    ensures var m' := ReadWork(m, Done(chunk));
            !m'.disconnected && (m'.err == 0 <==> Expected(m, chunk))
  {
    hide SizeOf, SlotOf, StartedBytes, QueuedSlots, Received, FindQueued;
    var m1 := Ready(m);
    assert Placed(m1);
    StoreKeeps(m1, chunk);
    var m2 := Store(m1, chunk);
    assert m2.cur.None? ==> m2.reqs == m.reqs;
  }

  /** Nothing goes wrong on the descriptor, and replies are expected ones. */
  predicate Peaceful(m: Mux, ev: Event)
    requires Enabled(m, ev)
  {
    match ev
    case Write(io) => io.Again? || io.Done?
    case Read(io) => io.Again? || (io.Done? && (m.err == 0 && !m.disconnected ==> Expected(m, io.data)))
    case PollError(_) => false
    case _ => true
  }

  lemma {:induction false} StepKeepsUp(m: Mux, ev: Event)
    requires Inv(m) && m.err == 0 && !m.disconnected && Enabled(m, ev) && Peaceful(m, ev)
    ensures Step(m, ev).err == 0 && !Step(m, ev).disconnected
  {
    hide SizeOf, SlotOf, StartedBytes, QueuedSlots, Received, FindQueued, ReadData, FailAll, FailQueued;
    match ev
    case Read(io) =>
      if io.Done? {
        ReadKeepsUp(m, io.data);
      }
    case _ =>
  }

  ghost predicate PeacefulRun(m: Mux, evs: seq<Event>, m': Mux)
    decreases |evs|
  {
    if evs == [] then m == m'
    else Enabled(m, evs[0]) && Peaceful(m, evs[0]) && PeacefulRun(Step(m, evs[0]), evs[1..], m')
  }

  lemma {:induction false} PeaceKeepsUp(m: Mux, evs: seq<Event>, m': Mux)
    requires Inv(m) && m.err == 0 && !m.disconnected && PeacefulRun(m, evs, m')
    ensures Runs(m, evs, m') && m'.err == 0 && !m'.disconnected
    decreases |evs|
  {
    if evs != [] {
      StepKeepsUp(m, evs[0]);
      StepKeeps(m, evs[0]);
      PeaceKeepsUp(Step(m, evs[0]), evs[1..], m');
    }
  }

  /**
   * For every stream of expected replies, cut into any chunks, with any pauses, writes, requests
   * and cancels in between: once all of it has arrived, every frame has been handed to its own
   * request, once and in stream order.
   */
  lemma {:induction false} AllDelivered(m0: Mux, evs: seq<Event>, m: Mux, fs: seq<seq<byte>>)
    requires Init(m0) && PeacefulRun(m0, evs, m) && Frames(fs) && m.rx == Concat(fs)
    ensures |m.delivered| == |fs|
    ensures forall i :: 0 <= i < |fs| ==> m.delivered[i] == Delivery(SlotOf(fs[i]), fs[i])
  {
    InitInv(m0);
    PeaceKeepsUp(m0, evs, m);
    DeliveredAlways(m0, evs, m, fs);
    var k := |m.delivered|;
    if k < |fs| {
      ReceivedIs(m.delivered, fs);
      ConcatSplit(fs, k);
      assert false;
    }
  }

  // ---- callbacks ----

  /** A request that can still be called back. */
  function Pending(m: Mux, slot: Slot): nat
    requires slot < |m.reqs|
  {
    var s := m.reqs[slot].status;
    One(s == Unsent || s == Sent || s == Flsh)
  }

  function Called(m: Mux, slot: Slot): nat {
    multiset(m.calls)[slot]
  }

  /** What has been called back, and what can still be. */
  function Owed(m: Mux, slot: Slot): nat
    requires slot < |m.reqs|
  {
    Called(m, slot) + Pending(m, slot)
  }

  /** Between m and m' nothing new became due to be called back. */
  predicate NoMoreCalls(m: Mux, m': Mux, slot: Slot)
    requires slot < |m.reqs|
  {
    |m'.reqs| == |m.reqs| && Called(m, slot) <= Called(m', slot) && Owed(m', slot) <= Owed(m, slot)
  }

  lemma {:induction false} OnceInLists(m: Mux, slot: Slot)
    requires Lists(m) && slot < |m.reqs|
    ensures multiset(Reverse(m.sent + m.unsent))[slot] <= Pending(m, slot)
    ensures slot in m.sent + m.unsent <==> multiset(Reverse(m.sent + m.unsent))[slot] > 0
  {
    ReverseMultiset(m.sent + m.unsent);
    assert multiset(m.sent + m.unsent) == multiset(m.sent) + multiset(m.unsent);
    CountOnce(m.sent, slot);
    CountOnce(m.unsent, slot);
    assert slot in m.unsent <==> m.reqs[slot].status == Unsent;
  }

  lemma {:induction false} CountOnce(l: seq<Slot>, x: Slot)
    requires Distinct(l)
    ensures multiset(l)[x] == One(x in l)
  {
    if l != [] {
      CountOnce(l[1..], x);
      assert l == [l[0]] + l[1..];
      assert l[0] !in l[1..];
    }
  }

  lemma {:induction false} CancelCalls(m: Mux, e: int, slot: Slot)
    requires Lists(m) && slot < |m.reqs|
    ensures NoMoreCalls(m, ConnCancel(m, e), slot)
  {
    if m.err == 0 {
      OnceInLists(m, slot);
      var r := Reverse(m.sent + m.unsent);
      assert multiset(m.calls + r) == multiset(m.calls) + multiset(r);
    }
  }

  lemma {:induction false} DropCalls(m: Mux, e: int, code: int, slot: Slot)
    requires Lists(m) && slot < |m.reqs|
    ensures NoMoreCalls(m, ConnCancel(Disconnect(m, e), code), slot)
  {
    CancelCalls(Disconnect(m, e), code, slot);
  }

  lemma {:induction false} CompleteCalls(m: Mux, slot: Slot)
    requires Placed(m) && m.cur.Some? && slot < |m.reqs|
    ensures NoMoreCalls(m, Complete(m), slot)
  {
    hide SizeOf, SlotOf;
    assert multiset(m.calls + [m.cur.value]) == multiset(m.calls) + multiset{m.cur.value};
  }

  lemma {:induction false} HeaderCalls(m: Mux, slot: Slot)
    requires Buffers(m) && Lists(m) && slot < |m.reqs|
    ensures NoMoreCalls(m, TakeHeader(m), slot)
  {
    hide SizeOf, SlotOf, StartedBytes, QueuedSlots, Received, FindQueued, Reverse;
    CancelCalls(m, EIO, slot);
    CancelCalls(m.(cur := Some(SlotOf(m.tmp))), EIO, slot);
  }

  lemma {:induction false} StoreCalls(m: Mux, chunk: seq<byte>, slot: Slot)
    requires StoreOk(m, chunk) && slot < |m.reqs|
    ensures var m2 := Store(m, chunk);
            |m2.reqs| == |m.reqs| && Called(m2, slot) == Called(m, slot) && Owed(m2, slot) == Owed(m, slot)
  {
  }

  lemma {:induction false} TailCalls(m: Mux, slot: Slot)
    requires Buffers(m) && Placed(m) && Lists(m) && slot < |m.reqs| && m.err == 0 && !m.rbuf.NoBuf?
    requires m.cur.None? && m.rpos == m.rsize ==> HEADER <= SizeOf(m.tmp)
    ensures var m3 := if m.cur.None? && m.rpos == m.rsize then TakeHeader(m) else m;
            var m' := if m3.err == 0 && m3.cur.Some? && m3.rpos == m3.rsize then Complete(m3) else m3;
            NoMoreCalls(m, m', slot)
  {
    hide SizeOf, SlotOf, Reverse;
    if m.cur.None? && m.rpos == m.rsize {
      HeaderCalls(m, slot);
      if TakeHeader(m).err == 0 {
        HeaderKeeps(m);
        CompleteCalls(TakeHeader(m), slot);
      }
    } else if m.cur.Some? {
      CompleteCalls(m, slot);
    }
  }

  lemma {:induction false} DataCalls(m: Mux, chunk: seq<byte>, slot: Slot)
    requires Inv(m) && !m.rbuf.NoBuf? && m.err == 0 && !m.disconnected && slot < |m.reqs|
    requires ReadOk(m, Done(chunk)) && SaneHeader(m, chunk)
    ensures NoMoreCalls(m, ReadData(m, chunk), slot)
  {
    hide SizeOf, SlotOf, StartedBytes, QueuedSlots, Received, FindQueued, Reverse;
    StoreKeeps(m, chunk);
    SidesStore(m, chunk);
    StoreCalls(m, chunk, slot);
    TailCalls(Store(m, chunk), slot);
  }

  lemma {:induction false} NoDataCalls(m: Mux, io: Io<seq<byte>>, slot: Slot)
    requires Lists(Ready(m)) && ReadOk(m, io) && slot < |m.reqs| && m.err == 0 && (m.disconnected || !io.Done?)
    ensures NoMoreCalls(m, ReadWork(m, io), slot)
  {
    hide Reverse;
    var m1 := Ready(m);
    if m.disconnected {
      CancelCalls(m1, EREMOTEIO, slot);
    } else {
      match io
      case Again =>
      case Zero => DropCalls(m1, 0, 0, slot);
      case Fault(e) => DropCalls(m1, e, e, slot);
      case Done(_) =>
    }
  }

  lemma {:induction false} ReadyDataCalls(m: Mux, chunk: seq<byte>, slot: Slot)
    requires Inv(m) && m.err == 0 && !m.disconnected && slot < |m.reqs|
    requires ReadOk(m, Done(chunk)) && SaneHeader(Ready(m), chunk)
    ensures NoMoreCalls(m, ReadData(Ready(m), chunk), slot)
  {
    ReadyKeeps(m);
    assert Called(Ready(m), slot) == Called(m, slot) && Owed(Ready(m), slot) == Owed(m, slot);
    hide Called, Owed, ReadData, Inv, Buffers;
    DataCalls(Ready(m), chunk, slot);
  }

  lemma {:induction false} ReadCalls(m: Mux, io: Io<seq<byte>>, slot: Slot)
    requires Inv(m) && Enabled(m, Read(io)) && slot < |m.reqs|
    ensures NoMoreCalls(m, ReadWork(m, io), slot)
  {
    assert m.err <= 0 && NoMoreCalls(m, m, slot);
    hide NoMoreCalls, ReadData, ConnCancel, Writing, Reading;
    if m.err == 0 && io.Done? && !m.disconnected {
      ReadyDataCalls(m, io.data, slot);
    } else if m.err == 0 {
      ReadyKeeps(m);
      NoDataCalls(m, io, slot);
    }
  }

  lemma {:induction false} StartCalls(m: Mux, slot: Slot)
    requires Lists(m) && m.unsent != [] && m.unsent[0] < |m.reqs| && slot < |m.reqs|
    ensures var m' := StartWrite(m);
            |m'.reqs| == |m.reqs| && Called(m', slot) == Called(m, slot) && Owed(m', slot) == Owed(m, slot)
  {
    assert m.unsent[0] in m.unsent;
  }

  lemma {:induction false} WriteCalls(m: Mux, io: Io<nat>, slot: Slot)
    requires Inv(m) && WriteOk(m, io) && slot < |m.reqs|
    ensures NoMoreCalls(m, WriteWork(m, io), slot)
  {
    hide StartedBytes, QueuedSlots, Received, FindQueued, Reverse, ConnCancel, Disconnect, FailAll, FailQueued, InOrder;
    if m.err == 0 && !(m.wsize == 0 && m.unsent == []) {
      var m1 := m;
      if m.wsize == 0 {
        StartCalls(m, slot);
        ListsStart(m);
        m1 := StartWrite(m);
      }
      if m1.disconnected {
        CancelCalls(m1, EREMOTEIO, slot);
      } else {
        match io
        case Again =>
        case Zero => DropCalls(m1, 0, EREMOTEIO, slot);
        case Fault(e) => DropCalls(m1, e, e, slot);
        case Done(n) =>
          var m2 := PutBytes(m1, n);
          assert m2.reqs == m1.reqs && m2.calls == m1.calls;
      }
    }
  }

  /** Only a new submission of the request adds to what it is owed. */
  lemma {:induction false} StepCalls(m: Mux, ev: Event, slot: Slot)
    requires Inv(m) && Enabled(m, ev) && slot < |m.reqs| && !(ev.Request? && ev.slot == slot)
    ensures NoMoreCalls(m, Step(m, ev), slot)
  {
    hide SizeOf, SlotOf, StartedBytes, QueuedSlots, Received, FindQueued, Reverse;
    match ev
    case Write(io) => WriteCalls(m, io, slot);
    case Read(io) => ReadCalls(m, io, slot);
    case PollError(e) => CancelCalls(m, e, slot);
    case _ =>
  }

  lemma {:induction false} RunCalls(m: Mux, evs: seq<Event>, m': Mux, slot: Slot)
    requires Inv(m) && Runs(m, evs, m') && slot < |m.reqs|
    requires forall i :: 0 <= i < |evs| ==> !(evs[i].Request? && evs[i].slot == slot)
    ensures NoMoreCalls(m, m', slot)
    decreases |evs|
  {
    hide Reverse;
    if evs != [] {
      StepCalls(m, evs[0], slot);
      StepKeeps(m, evs[0]);
      RunCalls(Step(m, evs[0]), evs[1..], m', slot);
    }
  }

  /**
   * Over every run, an accepted submission is called back at most once before the request is
   * submitted again, and not at all once it has been withdrawn.
   */
  lemma {:induction false} CalledOnce(m0: Mux, evs: seq<Event>, m1: Mux, slot: Slot, more: seq<Event>, m2: Mux)
    requires Init(m0) && Runs(m0, evs, m1) && slot < |m1.reqs| && Runs(m1, more, m2)
    requires forall i :: 0 <= i < |more| ==> !(more[i].Request? && more[i].slot == slot)
    ensures Called(m1, slot) <= Called(m2, slot) <= Called(m1, slot) + 1
    ensures m1.reqs[slot].status == Flshd ==> Called(m2, slot) == Called(m1, slot)
  {
    InitInv(m0);
    RunsKeep(m0, evs, m1);
    RunCalls(m1, more, m2, slot);
  }

  // ---- cancelling the connection ----

  lemma {:induction false} ReverseMultiset(l: seq<Slot>)
    ensures multiset(Reverse(l)) == multiset(l)
  {
    if l != [] {
      ReverseMultiset(l[1..]);
      assert l == [l[0]] + l[1..];
    }
  }

  /** The first cancel empties both lists and gives each listed request ERROR and one callback. */
  lemma {:induction false} FirstCancel(m: Mux, e: int)
    requires Lists(m) && m.err == 0
    ensures var m' := ConnCancel(m, e);
            && m'.err == e && m'.sent == [] && m'.unsent == []
            && m.calls <= m'.calls && multiset(m'.calls[|m.calls|..]) == multiset(m.sent) + multiset(m.unsent)
            && forall i :: 0 <= i < |m.reqs| ==>
                 var r := m.reqs[i];
                 m'.reqs[i] == if i in m.sent || i in m.unsent
                               then r.(status := Error, tErr := if r.tErr == 0 then e else r.tErr) else r
  {
    var l := m.sent + m.unsent;
    ReverseMultiset(l);
    assert ConnCancel(m, e).calls[|m.calls|..] == Reverse(l);
  }

  /** Later cancels change nothing exactly when the first one had an error code to leave behind. */
  lemma {:induction false} CancelOnce(m: Mux, e: int)
    ensures (forall e' :: ConnCancel(ConnCancel(m, e), e') == ConnCancel(m, e)) <==> m.err != 0 || e != 0
  {
    var m1 := ConnCancel(m, e);
    if m.err == 0 && e == 0 {
      assert ConnCancel(m1, EIO).err == EIO;
    }
  }

  /** End of file is such a case: the connection is cancelled with code 0 and is cancelled again by the next call. */
  lemma {:induction false} EofCancelsTwice(m: Mux)
    requires m.err == 0 && !m.disconnected && m.rbuf.NoBuf? && m.sent == [3] && m.unsent == [] && |m.reqs| > 3
    ensures var m1 := ReadWork(m, Zero);
            && m1.err == 0 && m1.sent == [] && m1.calls == m.calls + [3] && m1.reqs[3].status == Error
            && ReadWork(m1, Zero).err == EREMOTEIO
  {
    assert m.sent + m.unsent == [3];
    assert Reverse([3]) == [3];
  }

  // ---- frames too short for their header ----

  /**
   * A read of an expected reply keeps the read position inside the frame if and only if the size
   * of a header it completed covers the header itself.
   */
  lemma {:induction false} ShortFrame(m: Mux, chunk: seq<byte>)
    requires Inv(m) && m.err == 0 && !m.disconnected && ReadOk(m, Done(chunk)) && Expected(m, chunk)
    ensures Placed(ReadWork(m, Done(chunk))) <==> SaneHeader(Ready(m), chunk)
  {
    ReadKeepsUp(m, chunk);
    hide Lists, Writing, Expected;
    var m1 := Ready(m);
    if SaneHeader(m1, chunk) {
      ReadingRead(m, Done(chunk));
    } else {
      StoreKeeps(m1, chunk);
      var m2 := Store(m1, chunk);
      assert TakeHeader(m2).rpos == HEADER > TakeHeader(m2).rsize;
    }
  }

  /** The run that sends the request in slot 1. */
  function Submission(tc: seq<byte>): seq<Event> {
    [Recycle(1), Request(1, tc), Write(Done(|tc|))]
  }

  lemma {:induction false} ThreeSteps(m: Mux, e1: Event, e2: Event, e3: Event)
    requires Enabled(m, e1) && Enabled(Step(m, e1), e2) && Enabled(Step(Step(m, e1), e2), e3)
    ensures Runs(m, [e1, e2, e3], Step(Step(Step(m, e1), e2), e3))
  {
    hide Enabled, Step;
    var evs, m2 := [e1, e2, e3], Step(Step(m, e1), e2);
    assert evs[1..] == [e2, e3] && [e2, e3][1..] == [e3] && [e3][1..] == [];
    assert Runs(m2, [e3], Step(m2, e3));
    assert Runs(Step(m, e1), [e2, e3], Step(m2, e3));
  }

  /** The only waiting request is written whole. */
  lemma {:induction false} WrittenWhole(m: Mux, tc: seq<byte>)
    requires m.err == 0 && !m.disconnected && m.wsize == 0 && m.sent == [] && m.unsent == [1]
    requires 1 < |m.reqs| && m.reqs[1].tc == tc && HEADER <= |tc|
    ensures WriteOk(m, Done(|tc|))
    ensures WriteWork(m, Done(|tc|)).err == 0 && !WriteWork(m, Done(|tc|)).disconnected
    ensures WriteWork(m, Done(|tc|)).reqs == SetStatus(m.reqs, 1, Sent)
    ensures WriteWork(m, Done(|tc|)).rbuf == m.rbuf && WriteWork(m, Done(|tc|)).cur == m.cur
  {
    hide SetFate;
  }

  /** The connection after that run. */
  function Submitted(m: Mux, tc: seq<byte>): Mux
    requires Init(m) && 2 <= |m.reqs| && HEADER <= |tc|
  {
    var m2 := FdRequest(m.(reqs := SetStatus(m.reqs, 1, Alloc)), 1, tc);
    WrittenWhole(m2, tc);
    WriteWork(m2, Done(|tc|))
  }

  lemma {:induction false} SubmittedRuns(m0: Mux, tc: seq<byte>)
    requires Init(m0) && 2 <= |m0.reqs| && HEADER <= |tc|
    ensures Runs(m0, Submission(tc), Submitted(m0, tc)) && Inv(Submitted(m0, tc))
    ensures Submitted(m0, tc).err == 0 && !Submitted(m0, tc).disconnected
    ensures Submitted(m0, tc).rbuf.NoBuf? && Submitted(m0, tc).cur.None?
    ensures |Submitted(m0, tc).reqs| == |m0.reqs| && Submitted(m0, tc).reqs[1].status == Sent
  {
    var m2 := FdRequest(m0.(reqs := SetStatus(m0.reqs, 1, Alloc)), 1, tc);
    assert m2.unsent == [1] && m2.reqs[1].tc == tc;
    WrittenWhole(m2, tc);
    hide WriteWork, WriteOk, FdRequest;
    ThreeSteps(m0, Recycle(1), Request(1, tc), Write(Done(|tc|)));
    InitInv(m0);
    RunsKeep(m0, Submission(tc), Submitted(m0, tc));
  }

  /** A header that announces size 0 for the request in slot 1. */
  const ZERO_HEADER: seq<byte> := [0, 0, 0, 0, 101, 0, 0]

  lemma {:induction false} ZeroTaken(m: Mux)
    requires Buffers(m) && m.err == 0 && !m.disconnected && m.rbuf.NoBuf? && m.cur.None?
    requires 1 < |m.reqs| && m.reqs[1].status == Sent
    ensures ReadOk(m, Done(ZERO_HEADER)) && StoreOk(Ready(m), ZERO_HEADER) && Expected(m, ZERO_HEADER)
    ensures !SaneHeader(Ready(m), ZERO_HEADER) && ReadWork(m, Done(ZERO_HEADER)).err == 0
    ensures ReadWork(m, Done(ZERO_HEADER)).rpos == 7 && ReadWork(m, Done(ZERO_HEADER)).rsize == 0
  {
    ZeroHeader(ZERO_HEADER);
    hide SizeOf, SlotOf, ConnCancel, Complete;
    var m2 := Store(Ready(m), ZERO_HEADER);
    assert m2.tmp == ZERO_HEADER;
    assert m.reqs[1] in m.reqs;
  }

  /** The failing run: the request in slot 1 is sent, and the reply is that header. */
  lemma {:induction false} ShortFrameTaken(m0: Mux, tc: seq<byte>)
    requires Init(m0) && 2 <= |m0.reqs| && HEADER <= |tc|
    ensures Runs(m0, Submission(tc), Submitted(m0, tc))
    ensures ReadOk(Submitted(m0, tc), Done(ZERO_HEADER)) && StoreOk(Ready(Submitted(m0, tc)), ZERO_HEADER)
    ensures Expected(Submitted(m0, tc), ZERO_HEADER) && !SaneHeader(Ready(Submitted(m0, tc)), ZERO_HEADER)
    ensures ReadWork(Submitted(m0, tc), Done(ZERO_HEADER)).err == 0
    ensures ReadWork(Submitted(m0, tc), Done(ZERO_HEADER)).rpos == 7
    ensures ReadWork(Submitted(m0, tc), Done(ZERO_HEADER)).rsize == 0
  {
    SubmittedRuns(m0, tc);
    hide Runs, Lists, Writing, ReadOk, StoreOk, Expected, SaneHeader, ReadWork, Submitted;
    ZeroTaken(Submitted(m0, tc));
  }

  lemma ZeroHeader(h: seq<byte>)
    requires h == [0, 0, 0, 0, 101, 0, 0]
    ensures SizeOf(h) == 0 && SlotOf(h) == 1
  {
    var size, tag := h[..4], h[5..7];
    assert size == [0, 0, 0, 0] && tag == [0, 0];
    assert [0, 0, 0, 0][1..] == [0, 0, 0] && [0, 0, 0][1..] == [0, 0] && [0, 0][1..] == [0] && [0][1..] == [];
    assert UnLE([0]) == 0 && UnLE([0, 0]) == 0;
    assert UnLE([0, 0, 0]) == 0 && UnLE([0, 0, 0, 0]) == 0;
  }
}

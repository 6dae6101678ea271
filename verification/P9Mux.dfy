/**
 * The 9P connection multiplexer over a file descriptor (struct p9_conn): requests wait on
 * unsent_req_list, are written in pieces, move to req_list, and replies are reassembled
 * from pieces and handed to the request their tag names.
 *
 * Mux is the connection with four observers: the bytes received (rx) and sent (wire), the
 * submissions (subs), and the callbacks with the reply each one found (calls, delivered).
 * Each work function and each client entry point is one step.
 */
module P9Mux {
  import opened Bytes
  import opened Common

  const EIO := -5
  const EREMOTEIO := -121
  const ERESTARTSYS := -512
  const HEADER := 7

  datatype Status = Idle | Alloc | Unsent | Sent | Flsh | Rcvd | Flshd | Error

  /** A request is its place in the tag table; rc is the whole reply buffer. */
  type Slot = nat

  datatype Req = Req(status: Status, tErr: int, tc: seq<byte>, rc: seq<byte>)

  datatype RBuf = NoBuf | Tmp | Rc

  datatype Fate = Queued | Started | Withdrawn | Failed

  /** One accepted call of p9_fd_request and what became of it. */
  datatype Sub = Sub(slot: Slot, bytes: seq<byte>, fate: Fate)

  datatype Delivery = Delivery(slot: Slot, frame: seq<byte>)

  datatype Mux = Mux(
    msize: nat,
    err: int,
    disconnected: bool,
    reqs: seq<Req>,
    sent: seq<Slot>,      // req_list
    unsent: seq<Slot>,    // unsent_req_list
    rbuf: RBuf,
    tmp: seq<byte>,
    rpos: int,
    rsize: int,
    cur: Option<Slot>,    // m->req
    wslot: Slot,          // wbuf points at the request's tc
    wpos: nat,
    wsize: nat,
    rx: seq<byte>,
    wire: seq<byte>,
    subs: seq<Sub>,
    calls: seq<Slot>,
    delivered: seq<Delivery>)

  /** What a read or write of the descriptor returns. */
  datatype Io<T> = Again | Zero | Fault(e: int) | Done(data: T)

  datatype Event =
    | Recycle(slot: Slot)
    | Request(slot: Slot, tc: seq<byte>)
    | Cancel(slot: Slot)
    | FlushDone(slot: Slot)
    | Write(w: Io<nat>)
    | Read(r: Io<seq<byte>>)
    | PollError(e: int)

  // ---- fields of a frame ----

  function Signed32(n: nat): int {
    if n < 0x8000_0000 then n else n - 0x1_0000_0000
  }

  function SizeOf(h: seq<byte>): int
    requires HEADER <= |h|
  {
    Signed32(UnLE(h[..4]))
  }

  /** p9_tag_lookup adds one to the 16-bit tag, so that the reserved tag 0xFFFF is slot 0. */
  function SlotOf(h: seq<byte>): Slot
    requires HEADER <= |h|
  {
    (UnLE(h[5..7]) + 1) % 0x1_0000
  }

  predicate Frame(f: seq<byte>) {
    HEADER <= |f| && SizeOf(f) == |f|
  }

  // ---- list helpers ----

  function Remove(l: seq<Slot>, slot: Slot): seq<Slot> {
    if l == [] then [] else if l[0] == slot then l[1..] else [l[0]] + Remove(l[1..], slot)
  }

  function Reverse(l: seq<Slot>): seq<Slot> {
    if l == [] then [] else Reverse(l[1..]) + [l[0]]
  }

  /** Index of the waiting submission of this slot. */
  function FindQueued(subs: seq<Sub>, slot: Slot): (i: nat)
    ensures i <= |subs|
    ensures i < |subs| ==> subs[i].slot == slot && subs[i].fate == Queued
  {
    if subs == [] then 0
    else if subs[0].slot == slot && subs[0].fate == Queued then 0
    else 1 + FindQueued(subs[1..], slot)
  }

  function SetFate(subs: seq<Sub>, slot: Slot, fate: Fate): seq<Sub> {
    var i := FindQueued(subs, slot);
    if i < |subs| then subs[i := subs[i].(fate := fate)] else subs
  }

  // ---- steps ----

  function FailReq(r: Req, e: int): Req {
    r.(status := Error, tErr := if r.tErr == 0 then e else r.tErr)
  }

  function FailAll(reqs: seq<Req>, l: seq<Slot>, e: int): (r: seq<Req>)
    ensures |r| == |reqs|
  {
    seq(|reqs|, i requires 0 <= i < |reqs| => if i in l then FailReq(reqs[i], e) else reqs[i])
  }

  function FailQueued(subs: seq<Sub>): (r: seq<Sub>)
    ensures |r| == |subs|
  {
    seq(|subs|, i requires 0 <= i < |subs| =>
      if subs[i].fate == Queued then subs[i].(fate := Failed) else subs[i])
  }

  function ConnCancel(m: Mux, e: int): Mux {
    if m.err != 0 then m
    else m.(err := e,
            reqs := FailAll(m.reqs, m.sent + m.unsent, e),
            sent := [],
            unsent := [],
            subs := FailQueued(m.subs),
            calls := m.calls + Reverse(m.sent + m.unsent))
  }

  function SetStatus(reqs: seq<Req>, slot: Slot, s: Status): seq<Req> {
    if slot < |reqs| then reqs[slot := reqs[slot].(status := s)] else reqs
  }

  function FdRequest(m: Mux, slot: Slot, tc: seq<byte>): Mux
    requires slot < |m.reqs|
  {
    if m.err < 0 then m
    else m.(reqs := m.reqs[slot := m.reqs[slot].(status := Unsent, tc := tc)],
            unsent := m.unsent + [slot],
            subs := m.subs + [Sub(slot, tc, Queued)])
  }

  function FdCancel(m: Mux, slot: Slot): Mux
    requires slot < |m.reqs|
  {
    match m.reqs[slot].status
    case Unsent =>
      m.(reqs := SetStatus(m.reqs, slot, Flshd),
         unsent := Remove(m.unsent, slot),
         subs := SetFate(m.subs, slot, Withdrawn))
    case Sent => m.(reqs := SetStatus(m.reqs, slot, Flsh))
    case _ => m
  }

  function StartWrite(m: Mux): Mux
    requires m.unsent != [] && m.unsent[0] < |m.reqs|
  {
    var slot := m.unsent[0];
    m.(reqs := SetStatus(m.reqs, slot, Sent),
       unsent := m.unsent[1..],
       sent := m.sent + [slot],
       subs := SetFate(m.subs, slot, Started),
       wslot := slot,
       wsize := |m.reqs[slot].tc|,
       wpos := 0)
  }

  function Disconnect(m: Mux, e: int): Mux {
    m.(disconnected := m.disconnected || e != ERESTARTSYS)
  }

  function PutBytes(m: Mux, n: nat): Mux
    requires m.wslot < |m.reqs| && m.wpos + n <= m.wsize == |m.reqs[m.wslot].tc|
  {
    var sofar := m.(wire := m.wire + m.reqs[m.wslot].tc[m.wpos..m.wpos + n], wpos := m.wpos + n);
    if sofar.wpos == sofar.wsize then sofar.(wpos := 0, wsize := 0) else sofar
  }

  predicate WriteOk(m: Mux, io: Io<nat>) {
    && (io.Fault? ==> io.e < 0)
    && (m.err >= 0 ==>
         && (m.unsent != [] ==> m.unsent[0] < |m.reqs|)
         && (io.Done? ==> 0 < io.data)
         && (m.wsize > 0 ==> m.wslot < |m.reqs| && m.wsize == |m.reqs[m.wslot].tc| && m.wpos < m.wsize)
         && (io.Done? && m.wsize > 0 ==> m.wpos + io.data <= m.wsize)
         && (io.Done? && m.wsize == 0 && m.unsent != [] ==> io.data <= |m.reqs[m.unsent[0]].tc|))
  }

  function WriteWork(m: Mux, io: Io<nat>): Mux
    requires WriteOk(m, io)
  {
    if m.err < 0 || (m.wsize == 0 && m.unsent == []) then m
    else
      var m1 := if m.wsize == 0 then StartWrite(m) else m;
      if m1.disconnected then ConnCancel(m1, EREMOTEIO)
      else
        match io
        case Again => m1
        case Zero => ConnCancel(Disconnect(m1, 0), EREMOTEIO)
        case Fault(e) => ConnCancel(Disconnect(m1, e), e)
        case Done(n) => PutBytes(m1, n)
  }

  /** Bytes arrive where rbuf + rpos points. */
  function Store(m: Mux, chunk: seq<byte>): Mux
    requires StoreOk(m, chunk)
  {
    var m1 := m.(rpos := m.rpos + |chunk|, rx := m.rx + chunk);
    if m.rbuf.Tmp? then m1.(tmp := Splice(m.tmp, m.rpos, chunk))
    else
      var r := m.reqs[m.cur.value];
      m1.(reqs := m.reqs[m.cur.value := r.(rc := Splice(r.rc, m.rpos, chunk))])
  }

  predicate StoreOk(m: Mux, chunk: seq<byte>) {
    && 0 <= m.rpos && m.rpos + |chunk| <= m.rsize
    && !m.rbuf.NoBuf?
    && (m.rbuf.Tmp? ==> m.rpos + |chunk| <= |m.tmp|)
    && (m.rbuf.Rc? ==> m.cur.Some? && m.cur.value < |m.reqs| && m.rpos + |chunk| <= |m.reqs[m.cur.value].rc|)
  }

  /** A complete header in tmp: find the request and move over to its reply buffer. */
  function TakeHeader(m: Mux): Mux
    requires |m.tmp| == HEADER && forall r :: r in m.reqs ==> HEADER <= |r.rc|
  {
    var n, slot := SizeOf(m.tmp), SlotOf(m.tmp);
    if n >= m.msize then ConnCancel(m, EIO)
    else if slot >= |m.reqs| then ConnCancel(m, EIO)
    else if m.reqs[slot].status != Sent && m.reqs[slot].status != Flsh then
      ConnCancel(m.(cur := Some(slot)), EIO)
    else
      var r := m.reqs[slot];
      m.(cur := Some(slot), rbuf := Rc, rsize := n,
         reqs := m.reqs[slot := r.(rc := Splice(r.rc, 0, m.tmp))])
  }

  /** A complete packet: mark it received, unlink it, call the client back. */
  function Complete(m: Mux): Mux
    requires m.cur.Some? && m.cur.value < |m.reqs| && 0 <= m.rsize <= |m.reqs[m.cur.value].rc|
  {
    var slot := m.cur.value;
    var r := m.reqs[slot];
    m.(reqs := if r.status == Error then m.reqs else SetStatus(m.reqs, slot, Rcvd),
       sent := Remove(m.sent, slot),
       calls := m.calls + [slot],
       delivered := m.delivered + [Delivery(slot, r.rc[..m.rsize])],
       rbuf := NoBuf, rpos := 0, rsize := 0, cur := None)
  }

  function Ready(m: Mux): Mux {
    if m.rbuf.NoBuf? then m.(rbuf := Tmp, rpos := 0, rsize := HEADER) else m
  }

  predicate Buffers(m: Mux) {
    |m.tmp| == HEADER && HEADER <= m.msize && forall r :: r in m.reqs ==> |r.rc| == m.msize
  }

  /** What read_work relies on; the descriptor returns at most the bytes asked for. */
  predicate ReadOk(m: Mux, io: Io<seq<byte>>) {
    && (io.Fault? ==> io.e < 0)
    && (io.Done? && m.err >= 0 && !m.disconnected ==>
         && Buffers(m) && io.data != [] && StoreOk(Ready(m), io.data)
         && (m.rbuf.Tmp? ==> m.cur.None? && m.rsize == HEADER)
         && (m.rbuf.Rc? ==> m.rsize < m.msize)
         && (m.rbuf.NoBuf? ==> m.cur.None?))
  }

  /** Bytes came: a full header is taken, and a full packet handed over in the same call. */
  function ReadData(m: Mux, chunk: seq<byte>): Mux
    requires StoreOk(m, chunk) && Buffers(m)
    requires (m.rbuf.Tmp? ==> m.cur.None? && m.rsize == HEADER) && (m.rbuf.Rc? ==> m.rsize < m.msize)
  {
    var m2 := Store(m, chunk);
    var m3 := if m2.cur.None? && m2.rpos == m2.rsize then TakeHeader(m2) else m2;
    if m3.err == 0 && m3.cur.Some? && m3.rpos == m3.rsize then Complete(m3) else m3
  }

  function ReadWork(m: Mux, io: Io<seq<byte>>): Mux
    requires ReadOk(m, io)
  {
    if m.err < 0 then m
    else
      var m1 := Ready(m);
      if m1.disconnected then ConnCancel(m1, EREMOTEIO)
      else
        match io
        case Again => m1
        case Zero => ConnCancel(Disconnect(m1, 0), 0)
        case Fault(e) => ConnCancel(Disconnect(m1, e), e)
        case Done(chunk) => ReadData(m1, chunk)
  }

  function FlushList(m: Mux, slot: Slot): Mux
    requires slot < |m.reqs|
  {
    if m.reqs[slot].status == Flsh then m.(sent := Remove(m.sent, slot)) else m
  }

  /** Reply sizes are at least a header; smaller ones are outside the model. */
  predicate SaneHeader(m: Mux, chunk: seq<byte>)
    requires StoreOk(m, chunk)
  {
    var m2 := Store(m, chunk);
    m2.cur.None? && m2.rpos == m2.rsize ==> |m2.tmp| == HEADER && HEADER <= SizeOf(m2.tmp)
  }

  /** What the descriptor and the client may do next. */
  predicate Enabled(m: Mux, ev: Event) {
    match ev
    case Recycle(slot) =>
      && slot < |m.reqs| && slot !in m.sent && slot !in m.unsent
      && m.cur != Some(slot) && (m.wsize > 0 ==> m.wslot != slot)
    case Request(slot, tc) => slot < |m.reqs| && m.reqs[slot].status == Alloc && HEADER <= |tc|
    case Cancel(slot) => slot < |m.reqs|
    case FlushDone(slot) => slot < |m.reqs|
    case Write(io) => WriteOk(m, io)
    case Read(io) =>
      ReadOk(m, io) && (io.Done? && m.err >= 0 && !m.disconnected ==> SaneHeader(Ready(m), io.data))
    case PollError(e) => e < 0
  }

  function Step(m: Mux, ev: Event): Mux
    requires Enabled(m, ev)
  {
    match ev
    case Recycle(slot) => m.(reqs := SetStatus(m.reqs, slot, Alloc))
    case Request(slot, tc) => FdRequest(m, slot, tc)
    case Cancel(slot) => FdCancel(m, slot)
    case FlushDone(slot) => FlushList(m, slot)
    case Write(io) => WriteWork(m, io)
    case Read(io) => ReadWork(m, io)
    case PollError(e) => if m.err < 0 then m else ConnCancel(m, e)
  }

  // ---- the two request lists ----

  predicate Distinct(l: seq<Slot>) {
    forall i, j :: 0 <= i < j < |l| ==> l[i] != l[j]
  }

  /** On unsent_req_list exactly when UNSENT; on req_list only when SENT or FLSH. */
  predicate Lists(m: Mux) {
    && Distinct(m.sent) && Distinct(m.unsent)
    && (forall x :: x in m.unsent ==> x < |m.reqs|)
    && (forall i :: 0 <= i < |m.reqs| ==> (i in m.unsent <==> m.reqs[i].status == Unsent))
    && (forall x :: x in m.sent ==> x < |m.reqs| && (m.reqs[x].status == Sent || m.reqs[x].status == Flsh))
  }

  lemma {:induction false} RemoveSpec(l: seq<Slot>, x: Slot)
    requires Distinct(l)
    ensures Distinct(Remove(l, x))
    ensures forall y :: y in Remove(l, x) <==> y in l && y != x
  {
    if l != [] {
      RemoveSpec(l[1..], x);
      assert forall y :: y in l <==> y == l[0] || y in l[1..];
      assert l[0] !in l[1..];
    }
  }

  lemma {:induction false} ListsStatus(m: Mux, slot: Slot, st: Status)
    requires Lists(m) && slot < |m.reqs| && slot !in m.unsent && slot !in m.sent && st != Unsent
    ensures Lists(m.(reqs := SetStatus(m.reqs, slot, st)))
  {
  }

  lemma {:induction false} ListsRequest(m: Mux, slot: Slot, tc: seq<byte>)
    requires Lists(m) && slot < |m.reqs| && m.reqs[slot].status == Alloc
    ensures Lists(FdRequest(m, slot, tc))
  {
    if m.err >= 0 {
      assert slot !in m.unsent && slot !in m.sent;
    }
  }

  lemma {:induction false} ListsCancel(m: Mux, slot: Slot)
    requires Lists(m) && slot < |m.reqs|
    ensures Lists(FdCancel(m, slot))
  {
    RemoveSpec(m.unsent, slot);
  }

  lemma {:induction false} ListsFlush(m: Mux, slot: Slot)
    requires Lists(m) && slot < |m.reqs|
    ensures Lists(FlushList(m, slot))
  {
    RemoveSpec(m.sent, slot);
  }

  lemma {:induction false} ListsStart(m: Mux)
    requires Lists(m) && m.unsent != [] && m.unsent[0] < |m.reqs|
    ensures Lists(StartWrite(m))
  {
    var slot := m.unsent[0];
    var m' := StartWrite(m);
    assert m.unsent == [slot] + m'.unsent;
    assert forall x :: x in m.unsent <==> x == slot || x in m'.unsent;
    assert slot !in m.sent;
  }

  lemma {:induction false} ListsConnCancel(m: Mux, e: int)
    requires Lists(m)
    ensures Lists(ConnCancel(m, e))
  {
    if m.err == 0 {
      var m' := ConnCancel(m, e);
      forall i | 0 <= i < |m'.reqs|
        ensures m'.reqs[i].status != Unsent
      {
        assert i in m.unsent ==> i in m.sent + m.unsent;
      }
    }
  }

  lemma {:induction false} ListsWrite(m: Mux, io: Io<nat>)
    requires Lists(m) && WriteOk(m, io)
    ensures Lists(WriteWork(m, io))
  {
    if m.err >= 0 && !(m.wsize == 0 && m.unsent == []) {
      var m1 := m;
      if m.wsize == 0 {
        ListsStart(m);
        m1 := StartWrite(m);
      }
      if m1.disconnected {
        ListsConnCancel(m1, EREMOTEIO);
      } else {
        match io
        case Again =>
        case Zero => ListsConnCancel(Disconnect(m1, 0), EREMOTEIO);
        case Fault(e) => ListsConnCancel(Disconnect(m1, e), e);
        case Done(n) =>
          var m2 := PutBytes(m1, n);
          assert m2.reqs == m1.reqs && m2.sent == m1.sent && m2.unsent == m1.unsent;
      }
    }
  }

  lemma {:induction false} ListsRc(m: Mux, slot: Slot, rc: seq<byte>)
    requires Lists(m) && slot < |m.reqs|
    ensures Lists(m.(reqs := m.reqs[slot := m.reqs[slot].(rc := rc)]))
  {
  }

  lemma {:induction false} ListsComplete(m: Mux)
    requires Lists(m) && m.cur.Some? && m.cur.value < |m.reqs| && 0 <= m.rsize <= |m.reqs[m.cur.value].rc|
    requires m.reqs[m.cur.value].status != Unsent
    ensures Lists(Complete(m))
  {
    RemoveSpec(m.sent, m.cur.value);
  }

  // ---- what is on the wire ----

  /** The buffers of the submissions that were started, in submission order. */
  function StartedBytes(subs: seq<Sub>): seq<byte> {
    if subs == [] then []
    else (if subs[0].fate == Started then subs[0].bytes else []) + StartedBytes(subs[1..])
  }

  function QueuedSlots(subs: seq<Sub>): seq<Slot> {
    if subs == [] then []
    else (if subs[0].fate == Queued then [subs[0].slot] else []) + QueuedSlots(subs[1..])
  }

  /** No submission overtakes an earlier one that still waits. */
  predicate InOrder(subs: seq<Sub>) {
    forall i, j :: 0 <= i < j < |subs| && subs[i].fate == Queued ==> subs[j].fate != Started
  }

  /** The part of the current buffer still to be written. */
  function Rest(m: Mux): seq<byte> {
    if m.wsize > 0 && m.wslot < |m.reqs| && m.wpos <= |m.reqs[m.wslot].tc| then m.reqs[m.wslot].tc[m.wpos..] else []
  }

  predicate Writing(m: Mux) {
    && (m.wsize > 0 ==>
         && m.wslot < |m.reqs| && m.wpos < m.wsize == |m.reqs[m.wslot].tc|
         && m.reqs[m.wslot].status != Alloc && m.reqs[m.wslot].status != Unsent)
    && (m.wsize == 0 ==> m.wpos == 0)
    && StartedBytes(m.subs) == m.wire + Rest(m)
    && QueuedSlots(m.subs) == m.unsent
    && InOrder(m.subs)
    && forall i :: 0 <= i < |m.subs| && m.subs[i].fate == Queued ==>
         && m.subs[i].slot < |m.reqs|
         && m.subs[i].bytes == m.reqs[m.subs[i].slot].tc && m.subs[i].bytes != []
  }

  lemma {:induction false} SubmitSubs(subs: seq<Sub>, b: Sub)
    requires b.fate == Queued
    ensures StartedBytes(subs + [b]) == StartedBytes(subs)
    ensures QueuedSlots(subs + [b]) == QueuedSlots(subs) + [b.slot]
  {
    if subs == [] {
      assert (subs + [b])[1..] == [];
    } else {
      SubmitSubs(subs[1..], b);
      assert (subs + [b])[1..] == subs[1..] + [b];
    }
  }

  lemma {:induction false} QueuedIff(subs: seq<Sub>, slot: Slot)
    ensures slot in QueuedSlots(subs) <==> FindQueued(subs, slot) < |subs|
  {
    if subs != [] {
      QueuedIff(subs[1..], slot);
    }
  }

  /** Taking a waiting submission off: it leaves the queue and sends nothing. */
  lemma {:induction false} WithdrawSubs(subs: seq<Sub>, slot: Slot, fate: Fate)
    requires fate != Started && fate != Queued && slot in QueuedSlots(subs)
    ensures StartedBytes(SetFate(subs, slot, fate)) == StartedBytes(subs)
    ensures QueuedSlots(SetFate(subs, slot, fate)) == Remove(QueuedSlots(subs), slot)
  {
    QueuedIff(subs, slot);
    var subs' := SetFate(subs, slot, fate);
    if subs[0].slot == slot && subs[0].fate == Queued {
      assert subs'[1..] == subs[1..];
      assert QueuedSlots(subs)[1..] == QueuedSlots(subs[1..]);
    } else {
      QueuedIff(subs[1..], slot);
      WithdrawSubs(subs[1..], slot, fate);
      assert subs'[1..] == SetFate(subs[1..], slot, fate);
      if subs[0].fate == Queued {
        assert QueuedSlots(subs)[1..] == QueuedSlots(subs[1..]);
      } else {
        assert [] + QueuedSlots(subs[1..]) == QueuedSlots(subs[1..]);
        assert QueuedSlots(subs') == [] + QueuedSlots(subs'[1..]) == QueuedSlots(subs'[1..]);
      }
    }
  }

  lemma {:induction false} NoneStarted(subs: seq<Sub>)
    requires forall i :: 0 <= i < |subs| ==> subs[i].fate != Started
    ensures StartedBytes(subs) == []
  {
    if subs != [] {
      NoneStarted(subs[1..]);
    }
  }

  /** Starting the submission at the head of the queue appends its bytes. */
  lemma {:induction false} StartSubs(subs: seq<Sub>)
    requires QueuedSlots(subs) != [] && InOrder(subs)
    ensures var slot := QueuedSlots(subs)[0]; var i := FindQueued(subs, slot);
            && i < |subs|
            && (forall j :: 0 <= j < i ==> subs[j].fate != Queued)
            && StartedBytes(SetFate(subs, slot, Started)) == StartedBytes(subs) + subs[i].bytes
            && QueuedSlots(SetFate(subs, slot, Started)) == QueuedSlots(subs)[1..]
  {
    var slot := QueuedSlots(subs)[0];
    var subs' := SetFate(subs, slot, Started);
    if subs[0].fate == Queued {
      assert subs'[1..] == subs[1..];
      NoneStarted(subs[1..]);
      assert QueuedSlots(subs) == [slot] + QueuedSlots(subs[1..]);
    } else {
      assert InOrder(subs[1..]);
      StartSubs(subs[1..]);
      assert subs'[1..] == SetFate(subs[1..], slot, Started);
      var head := if subs[0].fate == Started then subs[0].bytes else [];
      var i := FindQueued(subs[1..], slot);
      assert head + (StartedBytes(subs[1..]) + subs[1..][i].bytes)
          == head + StartedBytes(subs[1..]) + subs[1..][i].bytes;
    }
  }

  lemma {:induction false} FailSubs(subs: seq<Sub>)
    ensures StartedBytes(FailQueued(subs)) == StartedBytes(subs) && QueuedSlots(FailQueued(subs)) == []
  {
    if subs != [] {
      FailSubs(subs[1..]);
      assert FailQueued(subs)[1..] == FailQueued(subs[1..]);
    }
  }

  lemma {:induction false} WritingSameTc(m: Mux, m': Mux)
    requires Writing(m) && |m'.reqs| == |m.reqs|
    requires forall i :: 0 <= i < |m.reqs| ==> m'.reqs[i].tc == m.reqs[i].tc
    requires m.wsize > 0 ==> m'.reqs[m.wslot].status != Alloc && m'.reqs[m.wslot].status != Unsent
    requires m'.wsize == m.wsize && m'.wpos == m.wpos && m'.wslot == m.wslot
    requires m'.wire == m.wire && m'.subs == m.subs && m'.unsent == m.unsent
    ensures Writing(m')
  {
    hide StartedBytes, QueuedSlots;
  }

  lemma {:induction false} WritingConnCancel(m: Mux, e: int)
    requires Writing(m)
    ensures Writing(ConnCancel(m, e))
  {
    hide StartedBytes, QueuedSlots;
    if m.err == 0 {
      FailSubs(m.subs);
    }
  }

  lemma {:induction false} WritingRequest(m: Mux, slot: Slot, tc: seq<byte>)
    requires Lists(m) && Writing(m) && slot < |m.reqs| && m.reqs[slot].status == Alloc && tc != []
    ensures Writing(FdRequest(m, slot, tc))
  {
    hide StartedBytes, QueuedSlots;
    if m.err >= 0 {
      SubmitSubs(m.subs, Sub(slot, tc, Queued));
      forall i | 0 <= i < |m.subs| && m.subs[i].fate == Queued
        ensures m.subs[i].slot != slot
      {
        QueuedHas(m.subs, i);
      }
    }
  }

  lemma {:induction false} QueuedHas(subs: seq<Sub>, i: nat)
    requires i < |subs| && subs[i].fate == Queued
    ensures subs[i].slot in QueuedSlots(subs)
  {
    if i > 0 {
      QueuedHas(subs[1..], i - 1);
    }
  }

  lemma {:induction false} WithdrawKeepsOrder(subs: seq<Sub>, slot: Slot)
    requires InOrder(subs)
    ensures InOrder(SetFate(subs, slot, Withdrawn))
  {
  }

  lemma {:induction false} WritingCancel(m: Mux, slot: Slot)
    requires Lists(m) && Writing(m) && slot < |m.reqs|
    ensures Writing(FdCancel(m, slot))
  {
    if m.reqs[slot].status == Unsent {
      WritingWithdraw(m, slot);
    } else {
      WritingSameTc(m, FdCancel(m, slot));
    }
  }

  lemma {:induction false} WritingWithdraw(m: Mux, slot: Slot)
    requires Lists(m) && Writing(m) && slot < |m.reqs| && m.reqs[slot].status == Unsent
    ensures Writing(FdCancel(m, slot))
  {
    hide StartedBytes, QueuedSlots, InOrder, FindQueued, Remove;
    WithdrawSubs(m.subs, slot, Withdrawn);
    WithdrawKeepsOrder(m.subs, slot);
    assert Rest(FdCancel(m, slot)) == Rest(m);
  }

  lemma {:induction false} StartKeepsOrder(subs: seq<Sub>)
    requires QueuedSlots(subs) != [] && InOrder(subs)
    ensures InOrder(SetFate(subs, QueuedSlots(subs)[0], Started))
  {
    StartSubs(subs);
  }

  lemma {:induction false} WritingStart(m: Mux)
    requires Lists(m) && Writing(m) && m.wsize == 0 && m.unsent != [] && m.unsent[0] < |m.reqs|
    ensures Writing(StartWrite(m)) && StartWrite(m).wsize > 0
  {
    hide StartedBytes, QueuedSlots;
    var slot := m.unsent[0];
    StartSubs(m.subs);
    StartKeepsOrder(m.subs);
    var i := FindQueued(m.subs, slot);
    var m' := StartWrite(m);
    assert m.subs[i].bytes == m.reqs[slot].tc;
    assert Rest(m') == m.reqs[slot].tc[0..] == m.reqs[slot].tc;
    assert m.wire + [] == m.wire;
    assert forall k :: 0 <= k < |m.reqs| ==> m'.reqs[k].tc == m.reqs[k].tc;
  }

  /** Bytes move from the rest of the buffer to the wire. */
  lemma {:induction false} PutRest(m: Mux, n: nat)
    requires 0 < m.wsize && m.wslot < |m.reqs| && m.wpos + n <= m.wsize == |m.reqs[m.wslot].tc|
    ensures PutBytes(m, n).wire + Rest(PutBytes(m, n)) == m.wire + Rest(m)
  {
    var tc := m.reqs[m.wslot].tc;
    var b, c := tc[m.wpos..m.wpos + n], tc[m.wpos + n..];
    Cut(tc, m.wpos, m.wpos + n);
    AppendAssoc(m.wire, b, c);
    assert Rest(m) == b + c;
    if m.wpos + n == m.wsize {
      assert c == [];
    }
    assert Rest(PutBytes(m, n)) == c;
  }

  lemma {:induction false} WritingPut(m: Mux, n: nat)
    requires Writing(m) && m.wsize > 0 && 0 < n && m.wpos + n <= m.wsize
    ensures Writing(PutBytes(m, n))
  {
    PutRest(m, n);
    hide StartedBytes, QueuedSlots, InOrder, Rest;
  }

  lemma Cut(s: seq<byte>, i: nat, j: nat)
    requires i <= j <= |s|
    ensures s[i..] == s[i..j] + s[j..]
  {
  }

  lemma {:induction false} WritingWrite(m: Mux, io: Io<nat>)
    requires Lists(m) && Writing(m) && WriteOk(m, io)
    ensures Writing(WriteWork(m, io))
  {
    hide StartedBytes, QueuedSlots;
    if m.err >= 0 && !(m.wsize == 0 && m.unsent == []) {
      var m1 := m;
      if m.wsize == 0 {
        WritingStart(m);
        m1 := StartWrite(m);
      }
      if m1.disconnected {
        WritingConnCancel(m1, EREMOTEIO);
      } else {
        match io
        case Again =>
        case Zero => WritingConnCancel(Disconnect(m1, 0), EREMOTEIO);
        case Fault(e) => WritingConnCancel(Disconnect(m1, e), e);
        case Done(n) => WritingPut(m1, n);
      }
    }
  }

  // ---- what reaches the client ----

  function Received(ds: seq<Delivery>): seq<byte> {
    if ds == [] then [] else ds[0].frame + Received(ds[1..])
  }

  lemma {:induction false} ReceivedAppend(ds: seq<Delivery>, d: Delivery)
    ensures Received(ds + [d]) == Received(ds) + d.frame
  {
    if ds == [] {
      assert (ds + [d])[1..] == [];
    } else {
      ReceivedAppend(ds[1..], d);
      assert (ds + [d])[1..] == ds[1..] + [d];
    }
  }

  /** Every delivery is one whole frame, given to the request its tag names. */
  predicate Addressed(ds: seq<Delivery>) {
    forall i :: 0 <= i < |ds| ==> Frame(ds[i].frame) && ds[i].slot == SlotOf(ds[i].frame)
  }

  /** The bytes of the frame being read. */
  function Partial(m: Mux): seq<byte> {
    if m.rbuf.Tmp? && 0 <= m.rpos <= |m.tmp| then m.tmp[..m.rpos]
    else if m.rbuf.Rc? && m.cur.Some? && m.cur.value < |m.reqs| && 0 <= m.rpos <= |m.reqs[m.cur.value].rc| then
      m.reqs[m.cur.value].rc[..m.rpos]
    else []
  }

  /** The read position stays inside the frame, and the buffer being filled is the right one. */
  predicate Placed(m: Mux) {
    && 0 <= m.rpos <= m.rsize
    && match m.rbuf
       case NoBuf => m.cur.None? && m.rsize == 0
       case Tmp => m.cur.None? && m.rsize == HEADER
       case Rc =>
         && m.cur.Some? && m.cur.value < |m.reqs| && HEADER <= m.rpos && m.rsize < m.msize
         && |m.reqs[m.cur.value].rc| == m.msize
         && SizeOf(m.reqs[m.cur.value].rc) == m.rsize && SlotOf(m.reqs[m.cur.value].rc) == m.cur.value
         && (m.reqs[m.cur.value].status == Sent || m.reqs[m.cur.value].status == Flsh)
  }

  predicate Reading(m: Mux) {
    && Buffers(m)
    && Addressed(m.delivered)
    && Received(m.delivered) <= m.rx
    && m.err <= 0
    && (m.err == 0 && !m.disconnected ==>
         && Placed(m) && (m.rbuf.NoBuf? || m.rpos < m.rsize)
         && m.rx == Received(m.delivered) + Partial(m))
  }

  lemma {:induction false} ReadingConnCancel(m: Mux, e: int)
    requires Buffers(m) && Addressed(m.delivered) && Received(m.delivered) <= m.rx && m.err <= 0
    requires e < 0 || (e == 0 && m.disconnected)
    ensures Reading(ConnCancel(m, e))
  {
    if m.err == 0 {
      var m' := ConnCancel(m, e);
      forall r | r in m'.reqs
        ensures |r.rc| == m.msize
      {
        var i :| 0 <= i < |m'.reqs| && m'.reqs[i] == r;
        assert m.reqs[i] in m.reqs;
      }
    }
  }

  lemma {:induction false} StoreKeeps(m: Mux, chunk: seq<byte>)
    requires Buffers(m) && Placed(m) && StoreOk(m, chunk)
    ensures var m' := Store(m, chunk);
            Buffers(m') && Placed(m') && Partial(m') == Partial(m) + chunk
  {
    hide SizeOf, SlotOf;
    var m' := Store(m, chunk);
    if m.rbuf.Rc? {
      var rc, rc' := m.reqs[m.cur.value].rc, m'.reqs[m.cur.value].rc;
      assert m.reqs[m.cur.value] in m.reqs;
      assert rc'[..HEADER] == rc[..HEADER];
      SameHeader(rc, rc');
      BuffersUpdate(m, m.cur.value, m'.reqs[m.cur.value]);
    }
  }

  lemma SameHeader(a: seq<byte>, b: seq<byte>)
    requires HEADER <= |a| && HEADER <= |b| && a[..HEADER] == b[..HEADER]
    ensures SizeOf(a) == SizeOf(b) && SlotOf(a) == SlotOf(b)
  {
    assert a[..4] == a[..HEADER][..4] && b[..4] == b[..HEADER][..4];
    assert a[5..7] == a[..HEADER][5..7] && b[5..7] == b[..HEADER][5..7];
  }

  lemma BuffersUpdate(m: Mux, slot: Slot, r: Req)
    requires Buffers(m) && slot < |m.reqs| && |r.rc| == m.msize
    ensures Buffers(m.(reqs := m.reqs[slot := r]))
  {
    forall x | x in m.reqs[slot := r]
      ensures |x.rc| == m.msize
    {
      assert x == r || x in m.reqs;
    }
  }

  lemma {:induction false} HeaderKeeps(m: Mux)
    requires Buffers(m) && Placed(m) && m.rbuf.Tmp? && m.rpos == m.rsize && HEADER <= SizeOf(m.tmp)
    requires m.err == 0 && TakeHeader(m).err == 0
    ensures var m' := TakeHeader(m);
            Buffers(m') && Placed(m') && Partial(m') == Partial(m)
  {
    hide SizeOf, SlotOf;
    var m' := TakeHeader(m);
    var slot := SlotOf(m.tmp);
    assert m.reqs[slot] in m.reqs;
    var rc' := m'.reqs[slot].rc;
    assert rc'[..HEADER] == m.tmp == m.tmp[..HEADER];
    SameHeader(rc', m.tmp);
    BuffersUpdate(m, slot, m'.reqs[slot]);
  }

  lemma {:induction false} CompleteKeeps(m: Mux)
    requires Buffers(m) && Placed(m) && m.rbuf.Rc? && m.rpos == m.rsize && m.err == 0
    requires Addressed(m.delivered) && m.rx == Received(m.delivered) + Partial(m)
    ensures Reading(Complete(m))
  {
    var m' := Complete(m);
    var slot := m.cur.value;
    var rc := m.reqs[slot].rc;
    var d := Delivery(slot, rc[..m.rsize]);
    assert d.frame[..HEADER] == rc[..HEADER];
    SameHeader(d.frame, rc);
    ReceivedAppend(m.delivered, d);
    assert m.reqs[slot] in m.reqs;
    BuffersUpdate(m, slot, m'.reqs[slot]);
    assert m'.rx == Received(m'.delivered) + [];
  }

  lemma {:induction false} ReadingRead(m: Mux, io: Io<seq<byte>>)
    requires Reading(m) && Enabled(m, Read(io))
    ensures Reading(ReadWork(m, io))
  {
    if m.err == 0 {
      var m1 := Ready(m);
      assert Partial(m1) == Partial(m);
      if m1.disconnected {
        ReadingConnCancel(m1, EREMOTEIO);
      } else {
        match io
        case Again =>
        case Zero => ReadingConnCancel(Disconnect(m1, 0), 0);
        case Fault(e) => ReadingConnCancel(Disconnect(m1, e), e);
        case Done(chunk) => ReadingData(m1, chunk);
      }
    }
  }

  lemma {:induction false} ReadingData(m: Mux, chunk: seq<byte>)
    requires Reading(m) && !m.rbuf.NoBuf? && m.err == 0 && !m.disconnected
    requires ReadOk(m, Done(chunk)) && SaneHeader(m, chunk)
    ensures Reading(ReadData(m, chunk))
  {
    hide SizeOf, SlotOf;
    StoreKeeps(m, chunk);
    var m2 := Store(m, chunk);
    assert m2.rx == Received(m.delivered) + Partial(m2);
    if m2.cur.None? && m2.rpos == m2.rsize {
      ReadingHeader(m2);
    } else if m2.cur.Some? && m2.rpos == m2.rsize {
      CompleteKeeps(m2);
    }
  }

  lemma {:induction false} ReadingHeader(m: Mux)
    requires Buffers(m) && Placed(m) && m.rbuf.Tmp? && m.rpos == m.rsize && HEADER <= SizeOf(m.tmp)
    requires m.err == 0 && !m.disconnected && Addressed(m.delivered)
    requires m.rx == Received(m.delivered) + Partial(m)
    ensures var m' := TakeHeader(m);
            if m'.err != 0 || m'.rpos != m'.rsize then Reading(m')
            else m'.cur.Some? && Placed(m') && Reading(Complete(m'))
  {
    hide SizeOf, SlotOf;
    var m' := TakeHeader(m);
    if m'.err != 0 {
      ReadingConnCancel(m, EIO);
      ReadingConnCancel(m.(cur := Some(SlotOf(m.tmp))), EIO);
    } else {
      HeaderKeeps(m);
      if m'.rpos == m'.rsize {
        CompleteKeeps(m');
      }
    }
  }

  // ---- every step keeps all three ----

  predicate Inv(m: Mux) {
    Lists(m) && Writing(m) && Reading(m)
  }

  /** Changing one reply buffer touches neither the lists nor the write side. */
  lemma {:induction false} SidesRc(m: Mux, m': Mux, slot: Slot, rc: seq<byte>)
    requires Lists(m) && Writing(m) && slot < |m.reqs|
    requires m'.reqs == m.reqs[slot := m.reqs[slot].(rc := rc)]
    requires m'.sent == m.sent && m'.unsent == m.unsent && m'.subs == m.subs && m'.wire == m.wire
    requires m'.wslot == m.wslot && m'.wpos == m.wpos && m'.wsize == m.wsize
    ensures Lists(m') && Writing(m')
  {
    ListsRc(m, slot, rc);
    WritingSameTc(m, m');
  }

  lemma {:induction false} SidesConnCancel(m: Mux, e: int)
    requires Lists(m) && Writing(m)
    ensures Lists(ConnCancel(m, e)) && Writing(ConnCancel(m, e))
  {
    ListsConnCancel(m, e);
    WritingConnCancel(m, e);
  }

  lemma {:induction false} SidesStore(m: Mux, chunk: seq<byte>)
    requires Lists(m) && Writing(m) && StoreOk(m, chunk)
    ensures Lists(Store(m, chunk)) && Writing(Store(m, chunk))
  {
    var m' := Store(m, chunk);
    if m.rbuf.Rc? {
      SidesRc(m, m', m.cur.value, m'.reqs[m.cur.value].rc);
    }
  }

  lemma {:induction false} SidesHeader(m: Mux)
    requires Lists(m) && Writing(m) && Buffers(m)
    ensures Lists(TakeHeader(m)) && Writing(TakeHeader(m))
  {
    hide SizeOf, SlotOf;
    var m', slot := TakeHeader(m), SlotOf(m.tmp);
    if SizeOf(m.tmp) >= m.msize || slot >= |m.reqs| {
      SidesConnCancel(m, EIO);
    } else if m.reqs[slot].status != Sent && m.reqs[slot].status != Flsh {
      SidesConnCancel(m.(cur := Some(slot)), EIO);
    } else {
      SidesRc(m, m', slot, m'.reqs[slot].rc);
    }
  }

  lemma {:induction false} SidesComplete(m: Mux)
    requires Lists(m) && Writing(m) && Placed(m) && m.cur.Some?
    ensures Lists(Complete(m)) && Writing(Complete(m))
  {
    ListsComplete(m);
    WritingSameTc(m, Complete(m));
  }

  lemma {:induction false} SidesData(m: Mux, chunk: seq<byte>)
    requires Inv(m) && !m.rbuf.NoBuf? && m.err == 0 && !m.disconnected
    requires ReadOk(m, Done(chunk)) && SaneHeader(m, chunk)
    ensures Lists(ReadData(m, chunk)) && Writing(ReadData(m, chunk))
  {
    hide SizeOf, SlotOf, StartedBytes, QueuedSlots, Received, FindQueued;
    StoreKeeps(m, chunk);
    SidesStore(m, chunk);
    var m2 := Store(m, chunk);
    if m2.cur.None? && m2.rpos == m2.rsize {
      SidesHeader(m2);
      var m3 := TakeHeader(m2);
      if m3.err == 0 {
        HeaderKeeps(m2);
        SidesComplete(m3);
      }
    } else if m2.cur.Some? {
      SidesComplete(m2);
    }
  }

  lemma {:induction false} ReadyKeeps(m: Mux)
    requires Inv(m)
    ensures Inv(Ready(m))
  {
    var m1 := Ready(m);
    WritingSameTc(m, m1);
    assert Partial(m1) == Partial(m);
  }

  lemma {:induction false} SidesDrop(m: Mux, e: int, code: int)
    requires Lists(m) && Writing(m)
    ensures Lists(ConnCancel(Disconnect(m, e), code)) && Writing(ConnCancel(Disconnect(m, e), code))
  {
    SidesConnCancel(Disconnect(m, e), code);
  }

  lemma {:induction false} SidesRead(m: Mux, io: Io<seq<byte>>)
    requires Inv(m) && Enabled(m, Read(io))
    ensures Lists(ReadWork(m, io)) && Writing(ReadWork(m, io))
  {
    hide SizeOf, SlotOf, Lists, Writing, ReadData, ConnCancel, Disconnect, Received;
    if m.err == 0 {
      ReadyKeeps(m);
      if m.disconnected {
        SidesConnCancel(Ready(m), EREMOTEIO);
      } else if io.Done? {
        SidesData(Ready(m), io.data);
      } else {
        SidesNoData(m, io);
      }
    }
  }

  lemma {:induction false} SidesNoData(m: Mux, io: Io<seq<byte>>)
    requires Lists(Ready(m)) && Writing(Ready(m)) && ReadOk(m, io) && !io.Done? && m.err == 0 && !m.disconnected
    ensures Lists(ReadWork(m, io)) && Writing(ReadWork(m, io))
  {
    match io
    case Again =>
    case Zero => SidesDrop(Ready(m), 0, 0);
    case Fault(e) => SidesDrop(Ready(m), e, e);
    case Done(_) =>
  }

  /** Steps that leave the read side alone keep it, as long as the request being read stays SENT or FLSH. */
  lemma {:induction false} ReadingSame(m: Mux, m': Mux)
    requires Reading(m) && |m'.reqs| == |m.reqs|
    requires forall i :: 0 <= i < |m.reqs| ==> m'.reqs[i].rc == m.reqs[i].rc
    requires m.cur.Some? && m.cur.value < |m.reqs|
             && (m.reqs[m.cur.value].status == Sent || m.reqs[m.cur.value].status == Flsh)
         ==> m'.reqs[m.cur.value].status == Sent || m'.reqs[m.cur.value].status == Flsh
    requires m' == m.(reqs := m'.reqs, sent := m'.sent, unsent := m'.unsent, subs := m'.subs, wire := m'.wire,
                      wslot := m'.wslot, wpos := m'.wpos, wsize := m'.wsize)
    ensures Reading(m')
  {
    forall r | r in m'.reqs
      ensures |r.rc| == m.msize
    {
      var i :| 0 <= i < |m'.reqs| && m'.reqs[i] == r;
      assert m.reqs[i] in m.reqs;
    }
  }

  lemma {:induction false} ReadingStart(m: Mux)
    requires Inv(m) && m.unsent != [] && m.unsent[0] < |m.reqs|
    ensures Reading(StartWrite(m))
  {
    ReadingSame(m, StartWrite(m));
  }

  lemma {:induction false} ReadingDrop(m: Mux, e: int, code: int)
    requires Reading(m) && code < 0
    ensures Reading(ConnCancel(Disconnect(m, e), code))
  {
    ReadingConnCancel(Disconnect(m, e), code);
  }

  lemma {:induction false} ReadingWrite(m: Mux, io: Io<nat>)
    requires Inv(m) && WriteOk(m, io)
    ensures Reading(WriteWork(m, io))
  {
    if m.err == 0 && !(m.wsize == 0 && m.unsent == []) {
      if m.wsize == 0 {
        ReadingStart(m);
      }
      ReadingIo(if m.wsize == 0 then StartWrite(m) else m, m, io);
    }
  }

  lemma {:induction false} ReadingIo(m1: Mux, m: Mux, io: Io<nat>)
    requires WriteOk(m, io) && Reading(m1) && m.err == 0 && !(m.wsize == 0 && m.unsent == [])
    requires m1 == if m.wsize == 0 then StartWrite(m) else m
    ensures Reading(WriteWork(m, io))
  {
    if m1.disconnected {
      ReadingConnCancel(m1, EREMOTEIO);
    } else {
      match io
      case Again =>
      case Zero => ReadingDrop(m1, 0, EREMOTEIO);
      case Fault(e) => ReadingDrop(m1, e, e);
      case Done(n) => ReadingSame(m1, PutBytes(m1, n));
    }
  }

  lemma {:induction false} RecycleKeeps(m: Mux, slot: Slot)
    requires Inv(m) && Enabled(m, Recycle(slot))
    ensures Inv(Step(m, Recycle(slot)))
  {
    var m' := m.(reqs := SetStatus(m.reqs, slot, Alloc));
    ListsStatus(m, slot, Alloc);
    WritingSameTc(m, m');
    ReadingSame(m, m');
  }

  lemma {:induction false} RequestKeeps(m: Mux, slot: Slot, tc: seq<byte>)
    requires Inv(m) && Enabled(m, Request(slot, tc))
    ensures Inv(FdRequest(m, slot, tc))
  {
    hide StartedBytes, QueuedSlots, Received, FindQueued;
    ListsRequest(m, slot, tc);
    WritingRequest(m, slot, tc);
    ReadingSame(m, FdRequest(m, slot, tc));
  }

  lemma {:induction false} CancelKeeps(m: Mux, slot: Slot)
    requires Inv(m) && slot < |m.reqs|
    ensures Inv(FdCancel(m, slot))
  {
    ListsCancel(m, slot);
    WritingCancel(m, slot);
    ReadingCancel(m, slot);
  }

  lemma {:induction false} ReadingCancel(m: Mux, slot: Slot)
    requires Reading(m) && slot < |m.reqs|
    ensures Reading(FdCancel(m, slot))
  {
    ReadingSame(m, FdCancel(m, slot));
  }

  lemma {:induction false} FlushKeeps(m: Mux, slot: Slot)
    requires Inv(m) && slot < |m.reqs|
    ensures Inv(FlushList(m, slot))
  {
    ListsFlush(m, slot);
    WritingSameTc(m, FlushList(m, slot));
    ReadingSame(m, FlushList(m, slot));
  }

  lemma {:induction false} StepKeeps(m: Mux, ev: Event)
    requires Inv(m) && Enabled(m, ev)
    ensures Inv(Step(m, ev))
  {
    match ev
    case Recycle(slot) => RecycleKeeps(m, slot);
    case Request(slot, tc) => RequestKeeps(m, slot, tc);
    case Cancel(slot) => CancelKeeps(m, slot);
    case FlushDone(slot) => FlushKeeps(m, slot);
    case Write(io) =>
      ListsWrite(m, io);
      WritingWrite(m, io);
      ReadingWrite(m, io);
    case Read(io) =>
      SidesRead(m, io);
      ReadingRead(m, io);
    case PollError(e) =>
      SidesConnCancel(m, e);
      ReadingConnCancel(m, e);
  }

  // ---- whole runs ----

  predicate Init(m: Mux) {
    && m.err == 0 && !m.disconnected && m.sent == [] && m.unsent == []
    && m.rbuf.NoBuf? && m.cur.None? && m.rpos == 0 && m.rsize == 0 && m.wpos == 0 && m.wsize == 0
    && m.rx == [] && m.wire == [] && m.subs == [] && m.calls == [] && m.delivered == []
    && Buffers(m) && forall r :: r in m.reqs ==> r.status == Idle
  }

  ghost predicate Runs(m: Mux, evs: seq<Event>, m': Mux)
    decreases |evs|
  {
    if evs == [] then m == m' else Enabled(m, evs[0]) && Runs(Step(m, evs[0]), evs[1..], m')
  }

  lemma {:induction false} RunsKeep(m: Mux, evs: seq<Event>, m': Mux)
    requires Inv(m) && Runs(m, evs, m')
    ensures Inv(m')
    decreases |evs|
  {
    if evs != [] {
      StepKeeps(m, evs[0]);
      RunsKeep(Step(m, evs[0]), evs[1..], m');
    }
  }

  lemma {:induction false} InitInv(m: Mux)
    requires Init(m)
    ensures Inv(m)
  {
    forall i | 0 <= i < |m.reqs|
      ensures m.reqs[i].status == Idle
    {
      assert m.reqs[i] in m.reqs;
    }
  }

  /** Over every run, list membership and status agree. */
  lemma {:induction false} ListsAlways(m0: Mux, evs: seq<Event>, m: Mux)
    requires Init(m0) && Runs(m0, evs, m)
    ensures Lists(m)
  {
    InitInv(m0);
    RunsKeep(m0, evs, m);
  }

  /**
   * Over every run, the bytes written plus what is left of the current buffer are the whole
   * buffers of the started submissions, in submission order.
   */
  lemma {:induction false} WireAlways(m0: Mux, evs: seq<Event>, m: Mux)
    requires Init(m0) && Runs(m0, evs, m)
    ensures m.wire + Rest(m) == StartedBytes(m.subs)
    ensures m.wsize > 0 ==> m.wslot < |m.reqs| && m.wpos < m.wsize == |m.reqs[m.wslot].tc|
  {
    InitInv(m0);
    RunsKeep(m0, evs, m);
  }

  /** Only a waiting submission can change its fate; withdrawn ones are never started. */
  predicate FatesGrow(a: seq<Sub>, b: seq<Sub>) {
    && |a| <= |b|
    && forall i :: 0 <= i < |a| ==>
         && b[i].slot == a[i].slot && b[i].bytes == a[i].bytes
         && (a[i].fate != Queued ==> b[i].fate == a[i].fate)
  }

  lemma {:induction false} StepFates(m: Mux, ev: Event)
    requires Enabled(m, ev)
    ensures FatesGrow(m.subs, Step(m, ev).subs)
  {
    match ev
    case Read(io) => ReadSubs(m, io);
    case Write(io) => WriteFates(m, io);
    case _ =>
  }

  lemma {:induction false} WriteFates(m: Mux, io: Io<nat>)
    requires WriteOk(m, io)
    ensures FatesGrow(m.subs, WriteWork(m, io).subs)
  {
    if m.err >= 0 && !(m.wsize == 0 && m.unsent == []) {
      var m1 := if m.wsize == 0 then StartWrite(m) else m;
      assert FatesGrow(m.subs, m1.subs);
      FailGrows(m.subs, m1.subs);
      assert WriteWork(m, io).subs == m1.subs || WriteWork(m, io).subs == FailQueued(m1.subs);
    }
  }

  lemma FailGrows(a: seq<Sub>, b: seq<Sub>)
    requires FatesGrow(a, b)
    ensures FatesGrow(a, FailQueued(b))
  {
  }

  lemma {:induction false} ReadSubs(m: Mux, io: Io<seq<byte>>)
    requires ReadOk(m, io)
    ensures ReadWork(m, io).subs == m.subs || ReadWork(m, io).subs == FailQueued(m.subs)
  {
    hide SizeOf, SlotOf, FailAll, FailQueued, Splice, Remove, Reverse;
    if m.err >= 0 && !m.disconnected && io.Done? {
      var m2 := Store(Ready(m), io.data);
      assert m2.subs == m.subs;
    }
  }

  lemma {:induction false} RunFates(m: Mux, evs: seq<Event>, m': Mux)
    requires Runs(m, evs, m')
    ensures FatesGrow(m.subs, m'.subs)
    decreases |evs|
  {
    if evs != [] {
      StepFates(m, evs[0]);
      RunFates(Step(m, evs[0]), evs[1..], m');
    }
  }

  /** The submission of a request that is cancelled while UNSENT. */
  lemma {:induction false} WithdrawnNow(m: Mux, slot: Slot)
    requires Lists(m) && Writing(m) && slot < |m.reqs| && m.reqs[slot].status == Unsent
    ensures FindQueued(m.subs, slot) < |m.subs| && m.subs[FindQueued(m.subs, slot)].bytes == m.reqs[slot].tc
    ensures FdCancel(m, slot).subs == SetFate(m.subs, slot, Withdrawn)
  {
    QueuedIff(m.subs, slot);
  }

  /** A request cancelled while UNSENT stays withdrawn, so that none of its bytes is ever on the wire. */
  lemma {:induction false} WithdrawnForGood(m0: Mux, evs: seq<Event>, m: Mux, slot: Slot, more: seq<Event>, m': Mux)
    requires Init(m0) && Runs(m0, evs, m) && slot < |m.reqs| && m.reqs[slot].status == Unsent
    requires Runs(FdCancel(m, slot), more, m')
    ensures FindQueued(m.subs, slot) < |m.subs| && m.subs[FindQueued(m.subs, slot)].slot == slot
    ensures m.subs[FindQueued(m.subs, slot)].bytes == m.reqs[slot].tc && FindQueued(m.subs, slot) < |m'.subs|
    ensures m'.subs[FindQueued(m.subs, slot)] == m.subs[FindQueued(m.subs, slot)].(fate := Withdrawn)
  {
    InitInv(m0);
    RunsKeep(m0, evs, m);
    WithdrawnNow(m, slot);
    RunFates(FdCancel(m, slot), more, m');
  }
}

/**
 * The code of net/9p/trans_fd.c that works on struct p9_conn in place: the fields of the
 * connection, the requests of the tag table, and the byte arrays that rbuf points into.
 * The observers of P9Mux are ghost, in view; Valid ties view to every real field, so a
 * method that reaches the right view has left the right fields and the right buffers.
 */
module P9Conn {
  import opened Bytes
  import opened Common
  import opened P9Mux

  /** struct p9_req_t; rc is the reply buffer behind its header. */
  class Request {
    var status: Status
    var tErr: int
    var tc: seq<byte>
    const rc: array<byte>

    constructor (msize: nat)
      ensures status == Idle && rc.Length == msize && fresh(rc)
    {
      status, tErr, tc := Idle, 0, [];
      rc := new byte[msize](_ => 0);
    }

    ghost function Value(): Req
      reads this, rc
    {
      Req(status, tErr, tc, rc[..])
    }
  }

  ghost function Values(table: seq<Request>): (reqs: seq<Req>)
    reads Owned(table)
    ensures |reqs| == |table| && forall i :: 0 <= i < |table| ==> reqs[i] == table[i].Value()
  {
    if table == [] then [] else [table[0].Value()] + Values(table[1..])
  }

  /** The requests of a table and their reply buffers. */
  ghost function Owned(table: seq<Request>): (s: set<object>)
    ensures forall i :: 0 <= i < |table| ==> table[i] in s && table[i].rc in s
  {
    if table == [] then {} else {table[0], table[0].rc} + Owned(table[1..])
  }

  /** The connection as p9_conn_create leaves it. */
  function Fresh(msize: nat, reqs: seq<Req>, tmp: seq<byte>): Mux {
    Mux(msize, 0, false, reqs, [], [], NoBuf, tmp, 0, 0, None, 0, 0, 0, [], [], [], [], [])
  }

  lemma FreshInit(msize: nat, table: seq<Request>, tmp: seq<byte>)
    requires HEADER == |tmp| <= msize && forall r :: r in table ==> r.rc.Length == msize && r.status == Idle
    ensures Init(Fresh(msize, Values(table), tmp))
  {
    var reqs := Values(table);
    forall r | r in reqs
      ensures |r.rc| == msize && r.status == Idle
    {
      var i :| 0 <= i < |reqs| && reqs[i] == r;
      assert table[i] in table;
    }
  }

  class Conn {
    const msize: nat
    const table: seq<Request>   // the client's tag table
    const tmp: array<byte>      // tmp_buf
    var err: int
    var disconnected: bool
    var sent: seq<Slot>         // req_list
    var unsent: seq<Slot>       // unsent_req_list
    var rbuf: array?<byte>
    var rpos: int
    var rsize: int
    var cur: Option<Slot>       // m->req
    var wslot: Slot             // wbuf points at this request's tc
    var wpos: nat
    var wsize: nat
    ghost var view: Mux
    ghost const objects: set<object>

    /** No two requests share a reply buffer, and none is tmp_buf. */
    ghost predicate Apart() {
      && this in objects && tmp in objects
      && (forall i :: 0 <= i < |table| ==> table[i] in objects && table[i].rc in objects)
      && (forall i, j :: 0 <= i < j < |table| ==> table[i] != table[j] && table[i].rc != table[j].rc)
      && (forall i :: 0 <= i < |table| ==> table[i].rc != tmp)
    }

    ghost predicate Fields()
      reads this
    {
      && |view.reqs| == |table| && view.msize == msize && view.err == err && view.disconnected == disconnected
      && view.sent == sent && view.unsent == unsent
      && view.rpos == rpos && view.rsize == rsize && view.cur == cur
      && view.wslot == wslot && view.wpos == wpos && view.wsize == wsize
      && (view.rbuf.NoBuf? <==> rbuf == null) && (view.rbuf.Tmp? ==> rbuf == tmp)
      && (view.rbuf.Rc? ==> cur.Some? && cur.value < |table| && rbuf == table[cur.value].rc)
    }

    ghost predicate Holds()
      requires Apart()
      reads this, objects
    {
      && view.tmp == tmp[..]
      && forall i :: 0 <= i < |table| && i < |view.reqs| ==> view.reqs[i] == table[i].Value()
    }

    ghost predicate Valid()
      reads this, objects
    {
      Apart() && Fields() && Holds()
    }

    /** p9_conn_create on a client whose tag table is allocated and idle. */
    constructor (msize: nat, table: seq<Request>)
      requires HEADER <= msize
      requires forall r :: r in table ==> r.rc.Length == msize && r.status == Idle
      requires forall i, j :: 0 <= i < j < |table| ==> table[i] != table[j] && table[i].rc != table[j].rc
      ensures Valid() && Init(view) && this.table == table && this.msize == msize && fresh(tmp)
      ensures objects == {this, tmp} + Owned(table)
    {
      hide Init, Owned, Values;
      this.msize, this.table := msize, table;
      var t := new byte[HEADER](_ => 0);
      tmp, err, disconnected, sent, unsent := t, 0, false, [], [];
      rbuf, rpos, rsize, cur := null, 0, 0, None;
      wslot, wpos, wsize := 0, 0, 0;
      objects := {this, t} + Owned(table);
      view := Fresh(msize, Values(table), t[..]);
      FreshInit(msize, table, t[..]);
      new;
    }

    method Mark(slot: Slot, st: Status)
      requires Valid() && slot < |table|
      modifies objects
      ensures Valid() && view == old(view).(reqs := SetStatus(old(view.reqs), slot, st))
    {
      table[slot].status := st;
      view := view.(reqs := SetStatus(view.reqs, slot, st));
    }

    method Fail(slot: Slot, e: int)
      requires Valid() && slot < |table|
      modifies objects
      ensures Valid() && view == old(view).(reqs := old(view.reqs)[slot := FailReq(old(view.reqs[slot]), e)])
    {
      var r := table[slot];
      r.status := Error;
      if r.tErr == 0 {
        r.tErr := e;
      }
      view := view.(reqs := view.reqs[slot := FailReq(view.reqs[slot], e)]);
    }

    method SetSent(l: seq<Slot>)
      requires Valid()
      modifies objects
      ensures Valid() && view == old(view).(sent := l)
    {
      sent := l;
      view := view.(sent := l);
    }

    method SetUnsent(l: seq<Slot>)
      requires Valid()
      modifies objects
      ensures Valid() && view == old(view).(unsent := l)
    {
      unsent := l;
      view := view.(unsent := l);
    }

    /** p9_conn_cancel. */
    method Abort(e: int)
      requires Valid() && InTable(view)
      modifies objects
      ensures Valid() && view == ConnCancel(old(view), e)
    {
      if err != 0 {
        return;
      }
      err := e;
      view := view.(err := e, subs := FailQueued(view.subs));
      var cancelList := FailSent(e);
      cancelList := FailUnsent(e, cancelList);
      FailBoth(old(view.reqs), old(view.sent), old(view.unsent), e);
      ReverseBoth(old(view.sent), old(view.unsent));
      CallBack(cancelList);
    }

    /** The loop over req_list. */
    method FailSent(e: int) returns (cancelList: seq<Slot>)
      requires Valid() && InTable(view)
      modifies objects
      ensures Valid() && InTable(view) && cancelList == Reverse(old(view.sent))
      ensures view == old(view).(sent := [], reqs := FailAll(old(view.reqs), old(view.sent), e))
    {
      cancelList := [];
      hide Apart, Holds, FailAll, FailReq, Reverse;
      ghost var l, k := sent, 0;
      FailNone(view.reqs, l, e);
      while sent != []
        invariant Valid() && 0 <= k <= |l| && cancelList == Reverse(l[..k])
        invariant view == old(view).(sent := l[k..], reqs := FailAll(old(view.reqs), l[..k], e))
        decreases |l| - k
      {
        var slot := sent[0];
        MoveOne(old(view.reqs), l, k, e);
        Fail(slot, e);
        SetSent(sent[1..]);
        cancelList := [slot] + cancelList;
        k := k + 1;
      }
      assert l[..k] == l;
    }

    /** The loop over unsent_req_list. */
    method FailUnsent(e: int, moved: seq<Slot>) returns (cancelList: seq<Slot>)
      requires Valid() && InTable(view)
      modifies objects
      ensures Valid() && cancelList == Reverse(old(view.unsent)) + moved
      ensures view == old(view).(unsent := [], reqs := FailAll(old(view.reqs), old(view.unsent), e))
    {
      cancelList := moved;
      hide Apart, Holds, FailAll, FailReq, Reverse;
      ghost var l, k := unsent, 0;
      FailNone(view.reqs, l, e);
      while unsent != []
        invariant Valid() && 0 <= k <= |l| && cancelList == Reverse(l[..k]) + moved
        invariant view == old(view).(unsent := l[k..], reqs := FailAll(old(view.reqs), l[..k], e))
        decreases |l| - k
      {
        var slot := unsent[0];
        MoveOne(old(view.reqs), l, k, e);
        Fail(slot, e);
        SetUnsent(unsent[1..]);
        cancelList := [slot] + cancelList;
        k := k + 1;
      }
      assert l[..k] == l;
    }

    /** p9_client_cb, as far as the connection sees it. */
    method Notify(slot: Slot)
      requires Valid()
      modifies `view
      ensures Valid() && view == old(view).(calls := old(view.calls) + [slot])
    {
      view := view.(calls := view.calls + [slot]);
    }

    method CallBack(cancelList: seq<Slot>)
      requires Valid()
      modifies `view
      ensures Valid() && view == old(view).(calls := old(view.calls) + cancelList)
    {
      for i := 0 to |cancelList|
        invariant Valid() && view == old(view).(calls := old(view.calls) + cancelList[..i])
      {
        Notify(cancelList[i]);
        assert cancelList[..i + 1] == cancelList[..i] + [cancelList[i]];
      }
      assert cancelList[..|cancelList|] == cancelList;
    }

    /** p9_fd_request. */
    method Submit(slot: Slot, t: seq<byte>) returns (ret: int)
      requires Valid() && slot < |table|
      modifies objects
      ensures Valid() && view == FdRequest(old(view), slot, t)
      ensures ret == if old(err) < 0 then old(err) else 0
      ensures old(Inv(view) && Enabled(view, P9Mux.Request(slot, t))) ==> Inv(view)
    {
      hide Inv, Remove, SetFate;
      if Inv(view) && Enabled(view, P9Mux.Request(slot, t)) {
        StepKeeps(view, P9Mux.Request(slot, t));
      }
      if err < 0 {
        return err;
      }
      table[slot].status, table[slot].tc := Unsent, t;
      unsent := unsent + [slot];
      view := FdRequest(view, slot, t);
      return 0;
    }

    /** p9_fd_cancel: 0 when nothing of the request has left. */
    method CancelReq(slot: Slot) returns (ret: int)
      requires Valid() && slot < |table|
      modifies objects
      ensures Valid() && view == FdCancel(old(view), slot)
      ensures ret == if old(table[slot].status) == Unsent then 0 else 1
      ensures old(Inv(view)) ==> Inv(view)
    {
      hide Inv, Remove, SetFate;
      if Inv(view) {
        StepKeeps(view, Cancel(slot));
      }
      ret := 1;
      if table[slot].status == Unsent {
        unsent := Remove(unsent, slot);
        view := view.(unsent := unsent, subs := SetFate(view.subs, slot, Withdrawn));
        Mark(slot, Flshd);
        ret := 0;
      } else if table[slot].status == Sent {
        Mark(slot, Flsh);
      }
    }

    /** The locked part of p9_write_work: the head of unsent_req_list becomes the current buffer. */
    method Start()
      requires Valid() && InTable(view) && unsent != []
      modifies objects
      ensures Valid() && InTable(view) && view == StartWrite(old(view))
    {
      hide Apart, Holds, SetFate;
      var slot := unsent[0];
      Mark(slot, Sent);
      SetUnsent(unsent[1..]);
      SetSent(sent + [slot]);
      PointAt(slot);
    }

    /** wbuf, wsize and wpos are set to the buffer of a request. */
    method PointAt(slot: Slot)
      requires Valid() && slot < |table|
      modifies objects
      ensures Valid() && view == old(view).(subs := SetFate(old(view.subs), slot, Started),
        wslot := slot, wsize := |old(view.reqs[slot].tc)|, wpos := 0)
    {
      hide SetFate;
      wslot, wsize, wpos := slot, |table[slot].tc|, 0;
      view := view.(subs := SetFate(view.subs, slot, Started), wslot := slot, wsize := wsize, wpos := 0);
    }

    /** A read or write of the descriptor returned the error e. */
    method Drop(e: int, code: int)
      requires Valid() && InTable(view)
      modifies objects
      ensures Valid() && view == ConnCancel(Disconnect(old(view), e), code)
    {
      if e != ERESTARTSYS {
        disconnected := true;
      }
      view := Disconnect(view, e);
      Abort(code);
    }

    /** wpos moves by what the descriptor took. */
    method Advance(n: nat)
      requires Valid() && wslot < |table| && wpos + n <= wsize == |view.reqs[wslot].tc|
      modifies objects
      ensures Valid() && view == PutBytes(old(view), n)
    {
      wpos := wpos + n;
      if wpos == wsize {
        wpos, wsize := 0, 0;
      }
      view := PutBytes(view, n);
    }

    /** p9_write_work; io is what the write of wbuf + wpos returns. */
    method Flush(io: Io<nat>)
      requires Valid() && InTable(view) && WriteOk(view, io)
      modifies objects
      ensures Valid() && view == WriteWork(old(view), io)
      ensures old(Inv(view)) ==> Inv(view)
    {
      hide Inv, Apart, Holds, ConnCancel, Disconnect, PutBytes, SetFate;
      if Inv(view) {
        StepKeeps(view, Write(io));
      }
      if err < 0 {
        return;
      }
      if wsize == 0 {
        if unsent == [] {
          return;
        }
        Start();
      }
      if disconnected {
        Abort(EREMOTEIO);
        return;
      }
      match io
      case Again =>
      case Zero => Drop(0, EREMOTEIO);
      case Fault(e) => Drop(e, e);
      case Done(n) => Advance(n);
    }

    /** With no packet under way, the next bytes are a header. */
    method Aim()
      requires Valid()
      modifies objects
      ensures Valid() && view == Ready(old(view))
    {
      if rbuf == null {
        rbuf, rpos, rsize := tmp, 0, HEADER;
      }
      view := Ready(view);
    }

    /** p9_read_work; io is what the read into rbuf + rpos returns. */
    method Receive(io: Io<seq<byte>>)
      requires Valid() && InTable(view) && ReadOk(view, io) && err <= 0
      modifies objects
      ensures Valid() && view == ReadWork(old(view), io)
      ensures old(Inv(view) && Enabled(view, Read(io))) ==> Inv(view)
    {
      hide Inv, Apart, Holds, ConnCancel, Disconnect, ReadData;
      if Inv(view) && Enabled(view, Read(io)) {
        StepKeeps(view, Read(io));
      }
      if err < 0 {
        return;
      }
      Aim();
      if disconnected {
        Abort(EREMOTEIO);
        return;
      }
      match io
      case Again =>
      case Zero => Drop(0, 0);
      case Fault(e) => Drop(e, e);
      case Done(chunk) => Accept(chunk);
    }

    method Accept(chunk: seq<byte>)
      requires Valid() && InTable(view) && err == 0 && StoreOk(view, chunk) && Buffers(view)
      requires (view.rbuf.Tmp? ==> cur.None? && rsize == HEADER) && (view.rbuf.Rc? ==> rsize < msize)
      modifies objects
      ensures Valid() && view == ReadData(old(view), chunk)
    {
      hide Apart, Holds, Complete, SizeOf, SlotOf;
      Fill(chunk);
      StoreBuffers(old(view), chunk);
      if cur == None && rpos == rsize {
        var ok := Dispatch();
        if !ok {
          return;
        }
      }
      if cur != None && rpos == rsize {
        Hand();
      }
    }

    /** Bytes copied to rbuf + rpos, wherever rbuf points. */
    method Fill(chunk: seq<byte>)
      requires Valid() && StoreOk(view, chunk)
      modifies objects
      ensures Valid() && view == Store(old(view), chunk)
    {
      Copy(rbuf, rpos, chunk);
      rpos := rpos + |chunk|;
      view := Store(view, chunk);
    }

    /** A header has been read in. */
    method Dispatch() returns (ok: bool)
      requires Valid() && InTable(view) && Buffers(view) && err == 0 && cur == None
      modifies objects
      ensures Valid() && view == TakeHeader(old(view)) && ok == (err == 0)
    {
      var n, slot := SizeOf(tmp[..]), SlotOf(tmp[..]);
      if n >= msize || slot >= |table| {
        Abort(EIO);
        return false;
      }
      if table[slot].status != Sent && table[slot].status != Flsh {
        cur := Some(slot);
        view := view.(cur := cur);
        Abort(EIO);
        return false;
      }
      MoveOver(slot, n);
      return true;
    }

    /** rbuf moves to the reply buffer, which gets the header first. */
    method MoveOver(slot: Slot, n: int)
      requires Valid() && slot < |table| && HEADER == tmp.Length <= table[slot].rc.Length
      modifies objects
      ensures Valid()
      ensures var r := old(view.reqs[slot]);
              view == old(view).(cur := Some(slot), rbuf := Rc, rsize := n,
                reqs := old(view.reqs)[slot := r.(rc := Splice(r.rc, 0, old(view.tmp)))])
    {
      ghost var r := view.reqs[slot];
      cur, rbuf := Some(slot), table[slot].rc;
      Copy(table[slot].rc, 0, tmp[..]);
      rsize := n;
      view := view.(cur := Some(slot), rbuf := Rc, rsize := n,
        reqs := view.reqs[slot := r.(rc := Splice(r.rc, 0, view.tmp))]);
    }

    /** A packet has been read in. */
    method Hand()
      requires Valid() && cur.Some? && cur.value < |table| && 0 <= rsize <= |view.reqs[cur.value].rc|
      modifies objects
      ensures Valid() && view == Complete(old(view))
    {
      var slot, failed := cur.value, table[cur.value].status == Error;
      assert failed == (view.reqs[slot].status == Error);
      hide Apart, Holds, Remove;
      if !failed {
        Mark(slot, Rcvd);
      }
      SetSent(Remove(sent, slot));
      Release(slot);
    }

    /** The client is called back with the reply, and rbuf is free for the next header. */
    method Release(slot: Slot)
      requires Valid() && slot < |table| && 0 <= rsize <= |view.reqs[slot].rc|
      modifies objects
      ensures Valid() && view == old(view).(calls := old(view.calls) + [slot],
        delivered := old(view.delivered) + [Delivery(slot, old(view.reqs[slot].rc[..rsize]))],
        rbuf := NoBuf, rpos := 0, rsize := 0, cur := None)
    {
      view := view.(calls := view.calls + [slot],
        delivered := view.delivered + [Delivery(slot, table[slot].rc[..rsize])],
        rbuf := NoBuf, rpos := 0, rsize := 0, cur := None);
      rbuf, rpos, rsize, cur := null, 0, 0, None;
    }

    /** The reply to a Tflush came: the flushed request leaves req_list. */
    method Forget(slot: Slot)
      requires Valid() && slot < |table|
      modifies objects
      ensures Valid() && view == FlushList(old(view), slot)
    {
      if table[slot].status == Flsh {
        SetSent(Remove(sent, slot));
      }
    }

    /** One step: the client and p9_poll_mux join in. */
    method Do(ev: Event)
      requires Valid() && Inv(view) && Enabled(view, ev)
      modifies objects
      ensures Valid() && Inv(view) && view == Step(old(view), ev)
    {
      InvInTable(view);
      StepKeeps(view, ev);
      hide Inv, InTable, Apart, Holds, FdRequest, FdCancel, FlushList, WriteWork, ReadWork, ConnCancel, WriteOk, ReadOk;
      match ev
      case Recycle(slot) => Mark(slot, Alloc);
      case Request(slot, t) => var _ := Submit(slot, t);
      case Cancel(slot) => var _ := CancelReq(slot);
      case FlushDone(slot) => Forget(slot);
      case Write(io) => Flush(io);
      case Read(io) => Receive(io);
      case PollError(e) =>
        if err >= 0 {
          Abort(e);
        }
    }

    /** Any sequence of calls is a run of the model. */
    method Play(evs: seq<Event>)
      requires Valid() && Inv(view) && CanRun(view, evs)
      modifies objects
      ensures Valid() && Inv(view) && Runs(old(view), evs, view)
      decreases |evs|
    {
      if evs != [] {
        Do(evs[0]);
        Play(evs[1..]);
      }
    }
  }

  ghost predicate CanRun(m: Mux, evs: seq<Event>)
    decreases |evs|
  {
    evs == [] || (Enabled(m, evs[0]) && CanRun(Step(m, evs[0]), evs[1..]))
  }

  lemma InvInTable(m: Mux)
    requires Inv(m)
    ensures InTable(m) && m.err <= 0
  {
    forall i | 0 <= i < |m.sent|
      ensures m.sent[i] < |m.reqs|
    {
      assert m.sent[i] in m.sent;
    }
    forall i | 0 <= i < |m.unsent|
      ensures m.unsent[i] < |m.reqs|
    {
      assert m.unsent[i] in m.unsent;
    }
  }

  predicate InTable(m: Mux) {
    && (forall i :: 0 <= i < |m.sent| ==> m.sent[i] < |m.reqs|)
    && (forall i :: 0 <= i < |m.unsent| ==> m.unsent[i] < |m.reqs|)
  }

  lemma StoreBuffers(m: Mux, chunk: seq<byte>)
    requires Buffers(m) && StoreOk(m, chunk)
    ensures Buffers(Store(m, chunk))
  {
    if m.rbuf.Rc? {
      var slot := m.cur.value;
      assert m.reqs[slot] in m.reqs;
      BuffersUpdate(m, slot, Store(m, chunk).reqs[slot]);
    }
  }

  /** One list entry failed and moved to the front of the cancel list. */
  lemma MoveOne(reqs: seq<Req>, l: seq<Slot>, k: nat, e: int)
    requires k < |l| && l[k] < |reqs|
    ensures l[k..][1..] == l[k + 1..]
    ensures var r := FailAll(reqs, l[..k], e);
            FailAll(reqs, l[..k + 1], e) == r[l[k] := FailReq(r[l[k]], e)]
    ensures Reverse(l[..k + 1]) == [l[k]] + Reverse(l[..k])
  {
    assert l[..k + 1] == l[..k] + [l[k]];
    ReverseAppend(l[..k], l[k]);
  }

  lemma FailNone(reqs: seq<Req>, l: seq<Slot>, e: int)
    ensures FailAll(reqs, l[..0], e) == reqs && l[0..] == l && Reverse(l[..0]) == []
  {
  }

  lemma FailBoth(reqs: seq<Req>, a: seq<Slot>, b: seq<Slot>, e: int)
    ensures FailAll(FailAll(reqs, a, e), b, e) == FailAll(reqs, a + b, e)
  {
  }

  lemma {:induction false} ReverseBoth(a: seq<Slot>, b: seq<Slot>)
    ensures Reverse(b) + Reverse(a) == Reverse(a + b)
  {
    if a == [] {
      assert a + b == b;
    } else {
      ReverseBoth(a[1..], b);
      assert (a + b)[1..] == a[1..] + b;
    }
  }

  lemma {:induction false} ReverseAppend(l: seq<Slot>, x: Slot)
    ensures Reverse(l + [x]) == [x] + Reverse(l)
  {
    if l == [] {
      assert ([] + [x])[1..] == [];
    } else {
      ReverseAppend(l[1..], x);
      assert (l + [x])[1..] == l[1..] + [x];
    }
  }
}

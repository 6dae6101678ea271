/**
 * GARP PDU framing: the builder that packs attributes into buffers of limited room, and the
 * parser that takes such buffers apart.
 */
module GarpPdu {
  import opened Bytes

  const END_MARK: byte := 0
  const PROTOCOL: seq<byte> := [0, 1]

  // attribute events on the wire
  const LEAVE_ALL: byte := 0
  const JOIN_EMPTY: byte := 1
  const JOIN_IN: byte := 2
  const LEAVE_EMPTY: byte := 3
  const EMPTY: byte := 5

  datatype Item = Item(kind: byte, event: byte, data: seq<byte>)

  /** An attribute the builder is given: a type that is not the end mark, a length that fits its byte. */
  predicate Sendable(it: Item) {
    it.kind != END_MARK && |it.data| <= 253
  }

  predicate AllSendable(items: seq<Item>) {
    forall i :: 0 <= i < |items| ==> Sendable(items[i])
  }

  // ---- layout ----

  function AttrBytes(it: Item): seq<byte>
    requires Sendable(it)
  {
    [2 + |it.data|, it.event] + it.data
  }

  /** The bytes that add items to a PDU whose current message is of type cur (0: none yet). */
  function Render(cur: byte, items: seq<Item>): seq<byte>
    requires AllSendable(items)
    decreases |items|
  {
    if items == [] then []
    else
      var it := items[0];
      Opening(cur, it.kind) + AttrBytes(it) + Render(it.kind, items[1..])
  }

  function Opening(cur: byte, kind: byte): seq<byte> {
    if cur == kind then [] else (if cur != 0 then [END_MARK] else []) + [kind]
  }

  function LastKind(items: seq<Item>): byte {
    if items == [] then 0 else items[|items| - 1].kind
  }

  lemma {:induction false} RenderAppend(cur: byte, items: seq<Item>, it: Item)
    requires AllSendable(items) && Sendable(it)
    ensures var last := if items == [] then cur else LastKind(items);
            Render(cur, items + [it]) == Render(cur, items) + Opening(last, it.kind) + AttrBytes(it)
    decreases |items|
  {
    if items == [] {
      assert (items + [it])[1..] == [];
      assert Render(it.kind, []) == [];
    } else {
      RenderAppend(items[0].kind, items[1..], it);
      assert (items + [it])[1..] == items[1..] + [it];
      assert LastKind(items) == if items[1..] == [] then items[0].kind else LastKind(items[1..]);
      Assoc(Opening(cur, items[0].kind) + AttrBytes(items[0]), Render(items[0].kind, items[1..]),
            Opening(LastKind(items), it.kind), AttrBytes(it));
    }
  }

  lemma Assoc(a: seq<byte>, b: seq<byte>, c: seq<byte>, d: seq<byte>)
    ensures a + (b + c + d) == a + b + c + d
  {
  }

  /** What comes after the opening of the first item. */
  function FromFirst(items: seq<Item>, tail: seq<byte>): seq<byte>
    requires items != [] && AllSendable(items)
  {
    AttrBytes(items[0]) + (Render(items[0].kind, items[1..]) + tail)
  }

  lemma RenderFirst(cur: byte, items: seq<Item>, tail: seq<byte>)
    requires items != [] && AllSendable(items)
    ensures Render(cur, items) + tail == Opening(cur, items[0].kind) + FromFirst(items, tail)
  {
    Assoc3(Opening(cur, items[0].kind), AttrBytes(items[0]), Render(items[0].kind, items[1..]), tail);
  }

  lemma Assoc3(a: seq<byte>, b: seq<byte>, c: seq<byte>, d: seq<byte>)
    ensures a + b + c + d == a + (b + (c + d))
  {
  }

  // ---- parsing ----

  /** The attribute makes garp_pdu_parse_attr give up on the whole PDU. */
  predicate Aborts(it: Item, maxattr: byte) {
    && it.kind <= maxattr
    && if it.event == LEAVE_ALL then it.data != []
       else it.data == [] && it.event in [JOIN_EMPTY, JOIN_IN, LEAVE_EMPTY, EMPTY]
  }

  /** The attributes accepted, what is left of the buffer, and whether parsing goes on. */
  datatype Res = Res(log: seq<Item>, rest: seq<byte>, ok: bool)

  function ParseAttr(kind: byte, b: seq<byte>, maxattr: byte): Res {
    if |b| < 2 || b[0] < 2 || |b| < b[0] then Res([], b, false)
    else
      var it := Item(kind, b[1], b[2..b[0]]);
      if Aborts(it, maxattr) then Res([], b[b[0]..], false) else Res([it], b[b[0]..], true)
  }

  /** The loop of garp_pdu_parse_msg. */
  function Attrs(kind: byte, b: seq<byte>, maxattr: byte): (r: Res)
    ensures |r.rest| <= |b|
    decreases |b|
  {
    if b == [] then Res([], b, true)
    else
      var a := ParseAttr(kind, b, maxattr);
      if !a.ok then a
      else if a.rest == [] then a
      else if a.rest[0] == END_MARK then a.(rest := a.rest[1..])
      else
        var r := Attrs(kind, a.rest, maxattr);
        r.(log := a.log + r.log)
  }

  /** The loop of garp_pdu_rcv. */
  function Msgs(b: seq<byte>, maxattr: byte): seq<Item>
    decreases |b|
  {
    if b == [] || b[0] == END_MARK then []
    else
      var r := Attrs(b[0], b[1..], maxattr);
      r.log + if r.ok then Msgs(r.rest, maxattr) else []
  }

  function Parse(pdu: seq<byte>, maxattr: byte): seq<Item> {
    if |pdu| < 2 || pdu[..2] != PROTOCOL then [] else Msgs(pdu[2..], maxattr)
  }

  // ---- round trip ----

  /** What a receiver gets of the attributes of one PDU. */
  function Accepted(items: seq<Item>, maxattr: byte): seq<Item> {
    if items == [] || Aborts(items[0], maxattr) then [] else [items[0]] + Accepted(items[1..], maxattr)
  }

  /** How a PDU can end: end marks cut short by lack of room, or the head of a message that got no attribute. */
  predicate Tail(t: seq<byte>) {
    t == []
    || (t[0] == END_MARK && (|t| == 1 || t[1] == END_MARK || |t| == 2
                             || (t[2] == END_MARK && (|t| == 3 || (|t| == 4 && t[3] == END_MARK)))))
  }

  lemma TailParses(t: seq<byte>, maxattr: byte)
    requires Tail(t) && t != []
    ensures Msgs(t[1..], maxattr) == []
  {
    if |t| > 2 && t[1] != END_MARK {
      var u := t[1..];
      assert u[1..] == t[2..];
    }
  }

  lemma ParseRendered(it: Item, more: seq<byte>, maxattr: byte)
    requires Sendable(it)
    ensures var a := ParseAttr(it.kind, AttrBytes(it) + more, maxattr);
            if Aborts(it, maxattr) then !a.ok && a.log == [] else a == Res([it], more, true)
  {
    var b := AttrBytes(it) + more;
    assert b[2..b[0]] == it.data && b[b[0]..] == more;
  }

  /** The parser's loops from inside a message of this type. */
  function FromMsg(kind: byte, b: seq<byte>, maxattr: byte): seq<Item> {
    var r := Attrs(kind, b, maxattr);
    r.log + if r.ok then Msgs(r.rest, maxattr) else []
  }

  /** One attribute taken; what the parser does next depends on the byte that follows. */
  lemma {:induction false} OneAttr(it: Item, more: seq<byte>, maxattr: byte)
    requires Sendable(it) && !Aborts(it, maxattr)
    ensures FromMsg(it.kind, AttrBytes(it) + more, maxattr)
         == [it] + if more == [] then [] else if more[0] == END_MARK then Msgs(more[1..], maxattr)
                   else FromMsg(it.kind, more, maxattr)
  {
    ParseRendered(it, more, maxattr);
    assert AttrBytes(it) + more != [];
    var r := Attrs(it.kind, more, maxattr);
    assert [it] + r.log + (if r.ok then Msgs(r.rest, maxattr) else [])
        == [it] + (r.log + if r.ok then Msgs(r.rest, maxattr) else []);
  }

  lemma {:induction false} AttrsRendered(items: seq<Item>, tail: seq<byte>, maxattr: byte)
    requires items != [] && AllSendable(items) && Tail(tail)
    ensures FromMsg(items[0].kind, FromFirst(items, tail), maxattr) == Accepted(items, maxattr)
    decreases |items|
  {
    var it, rest := items[0], items[1..];
    var more := Render(it.kind, rest) + tail;
    if Aborts(it, maxattr) {
      ParseRendered(it, more, maxattr);
      assert AttrBytes(it) + more != [];
    } else {
      OneAttr(it, more, maxattr);
      if rest == [] {
        assert more == tail;
        if tail != [] {
          TailParses(tail, maxattr);
        }
      } else {
        AttrsRendered(rest, tail, maxattr);
        RenderFirst(it.kind, rest, tail);
        NextMessage(it.kind, rest[0].kind, FromFirst(rest, tail), maxattr);
      }
    }
  }

  /** The next attribute belongs to this message, or an end mark and a new message come first. */
  lemma {:induction false} NextMessage(cur: byte, kind: byte, next: seq<byte>, maxattr: byte)
    requires cur != END_MARK && kind != END_MARK && next != [] && next[0] != END_MARK
    ensures var more := Opening(cur, kind) + next;
            && more != []
            && (if more[0] == END_MARK then Msgs(more[1..], maxattr) else FromMsg(cur, more, maxattr))
               == FromMsg(kind, next, maxattr)
  {
    var more := Opening(cur, kind) + next;
    if cur == kind {
      assert more == next;
    } else {
      assert more[1..] == [kind] + next;
      assert more[1..][1..] == next;
    }
  }

  /** A finished PDU gives back its attributes, up to one that makes the parser give up. */
  lemma {:induction false} PduRoundTrip(items: seq<Item>, tail: seq<byte>, maxattr: byte)
    requires items != [] && AllSendable(items) && Tail(tail)
    ensures Parse(PROTOCOL + Render(0, items) + tail, maxattr) == Accepted(items, maxattr)
  {
    var body := Render(0, items) + tail;
    var pdu := PROTOCOL + Render(0, items) + tail;
    assert pdu == PROTOCOL + body;
    assert pdu[..2] == PROTOCOL && pdu[2..] == body;
    RenderFirst(0, items, tail);
    assert body[1..] == FromFirst(items, tail);
    AttrsRendered(items, tail, maxattr);
  }

  lemma {:induction false} AcceptedAll(items: seq<Item>, maxattr: byte)
    ensures |Accepted(items, maxattr)| <= |items|
    ensures Accepted(items, maxattr) == items <==> forall i :: 0 <= i < |items| ==> !Aborts(items[i], maxattr)
    ensures |Accepted(items, maxattr)| == |items| ==> Accepted(items, maxattr) == items
    decreases |items|
  {
    if items != [] {
      AcceptedAll(items[1..], maxattr);
      assert items == [items[0]] + items[1..];
      if Accepted(items, maxattr) == items && !Aborts(items[0], maxattr) {
        assert Accepted(items, maxattr)[1..] == Accepted(items[1..], maxattr);
        forall i | 0 <= i < |items|
          ensures !Aborts(items[i], maxattr)
        {
          assert i > 0 ==> items[i] == items[1..][i - 1];
        }
      }
    }
  }

  // ---- a whole queue ----

  function Flat(groups: seq<seq<Item>>): seq<Item> {
    if groups == [] then [] else groups[0] + Flat(groups[1..])
  }

  function ParseAll(queue: seq<seq<byte>>, maxattr: byte): seq<Item> {
    if queue == [] then [] else Parse(queue[0], maxattr) + ParseAll(queue[1..], maxattr)
  }

  predicate Finished(pdu: seq<byte>, items: seq<Item>) {
    && items != [] && AllSendable(items)
    && var head := PROTOCOL + Render(0, items);
       |head| <= |pdu| && pdu[..|head|] == head && Tail(pdu[|head|..])
  }

  predicate AllFinished(queue: seq<seq<byte>>, groups: seq<seq<Item>>) {
    |queue| == |groups| && forall i :: 0 <= i < |queue| ==> Finished(queue[i], groups[i])
  }

  lemma {:induction false} FlatAppend(groups: seq<seq<Item>>, g: seq<Item>)
    ensures Flat(groups + [g]) == Flat(groups) + g
  {
    if groups == [] {
      assert (groups + [g])[1..] == [];
    } else {
      FlatAppend(groups[1..], g);
      assert (groups + [g])[1..] == groups[1..] + [g];
    }
  }

  /** Parsing the queued PDUs in order gives back the attributes exactly when none makes the parser give up. */
  lemma {:induction false} QueueRoundTrip(queue: seq<seq<byte>>, groups: seq<seq<Item>>, maxattr: byte)
    requires AllFinished(queue, groups)
    ensures |ParseAll(queue, maxattr)| <= |Flat(groups)|
    ensures |ParseAll(queue, maxattr)| == |Flat(groups)| ==> ParseAll(queue, maxattr) == Flat(groups)
    ensures ParseAll(queue, maxattr) == Flat(groups)
       <==> forall i :: 0 <= i < |Flat(groups)| ==> !Aborts(Flat(groups)[i], maxattr)
    decreases |queue|
  {
    if queue != [] {
      var g := groups[0];
      var head := PROTOCOL + Render(0, g);
      assert Finished(queue[0], g);
      assert queue[0] == head + queue[0][|head|..];
      PduRoundTrip(g, queue[0][|head|..], maxattr);
      AcceptedAll(g, maxattr);
      QueueRoundTrip(queue[1..], groups[1..], maxattr);
      QueueStep(g, Accepted(g, maxattr), Flat(groups[1..]), ParseAll(queue[1..], maxattr), maxattr);
    }
  }

  lemma {:induction false} QueueStep(g: seq<Item>, pg: seq<Item>, f: seq<Item>, pf: seq<Item>, maxattr: byte)
    requires |pg| <= |g| && |pf| <= |f| && (|pg| == |g| ==> pg == g) && (|pf| == |f| ==> pf == f)
    requires pg == g <==> forall i :: 0 <= i < |g| ==> !Aborts(g[i], maxattr)
    requires pf == f <==> forall i :: 0 <= i < |f| ==> !Aborts(f[i], maxattr)
    ensures |pg + pf| == |g + f| ==> pg + pf == g + f
    ensures pg + pf == g + f <==> forall i :: 0 <= i < |g + f| ==> !Aborts((g + f)[i], maxattr)
  {
    var all := g + f;
    if forall i :: 0 <= i < |all| ==> !Aborts(all[i], maxattr) {
      forall i | 0 <= i < |g|
        ensures !Aborts(g[i], maxattr)
      {
        assert all[i] == g[i];
      }
      forall i | 0 <= i < |f|
        ensures !Aborts(f[i], maxattr)
      {
        assert all[|g| + i] == f[i];
      }
    }
  }

  /** An attribute without data is such a case: what follows it in the PDU is lost. */
  lemma EmptyDataLost()
    ensures var lost := Item(1, JOIN_IN, [7]);
            var items := [Item(1, JOIN_IN, []), lost];
            Parse(PROTOCOL + Render(0, items) + [END_MARK, END_MARK], 1) == []
  {
    var items := [Item(1, JOIN_IN, []), Item(1, JOIN_IN, [7])];
    PduRoundTrip(items, [END_MARK, END_MARK], 1);
  }

  // ---- the code ----

  class Builder {
    const room: nat       // bytes a PDU holds from the protocol id on
    var have: bool        // app->pdu is not NULL
    var pdu: seq<byte>
    var curType: byte
    var queue: seq<seq<byte>>
    ghost var cur: seq<Item>             // attributes in pdu
    ghost var groups: seq<seq<Item>>     // attributes of each queued PDU

    ghost predicate Valid()
      reads this
    {
      && AllFinished(queue, groups) && AllSendable(cur)
      && (forall i :: 0 <= i < |queue| ==> |queue[i]| <= room)
      && (have ==> cur != [] && pdu == PROTOCOL + Render(0, cur) && |pdu| <= room && curType == LastKind(cur))
      && (!have ==> cur == [])
    }

    /** All attributes taken so far, in order. */
    ghost function Taken(): seq<Item>
      reads this
    {
      Flat(groups) + cur
    }

    constructor (size: nat)
      ensures Valid() && room == size && Taken() == [] && queue == []
    {
      room, have, pdu, curType, queue, cur, groups := size, false, [], 0, [], [], [];
    }

    /** garp_pdu_append_end_mark. */
    method AppendEndMark() returns (ok: bool)
      modifies this`pdu
      ensures ok == (|old(pdu)| < room) && pdu == if ok then old(pdu) + [END_MARK] else old(pdu)
    {
      if room - |pdu| < 1 {
        return false;
      }
      pdu := pdu + [END_MARK];
      return true;
    }

    /** garp_pdu_append_msg. */
    method AppendMsg(kind: byte) returns (ok: bool)
      modifies this`pdu, this`curType
      ensures ok == (|old(pdu)| < room)
      ensures if ok then pdu == old(pdu) + [kind] && curType == kind else pdu == old(pdu) && curType == old(curType)
    {
      if room - |pdu| < 1 {
        return false;
      }
      pdu := pdu + [kind];
      curType := kind;
      return true;
    }

    /** garp_pdu_queue: up to two end marks, then the PDU leaves; extra is what an append left behind. */
    method QueuePdu(ghost extra: seq<byte>)
      requires have ==> cur != [] && AllSendable(cur) && pdu == PROTOCOL + Render(0, cur) + extra && |pdu| <= room
      requires extra == [] || (extra[0] == END_MARK && |extra| <= 2)
      requires !have ==> cur == []
      requires AllFinished(queue, groups) && forall i :: 0 <= i < |queue| ==> |queue[i]| <= room
      modifies this
      ensures Valid() && !have && Taken() == old(Taken())
      ensures old(queue) <= queue && |queue| == |old(queue)| + if old(have) then 1 else 0
    {
      if !have {
        return;
      }
      ghost var marks := AppendEndMarks();
      Closed(cur, extra, marks);
      Leave(queue, groups, pdu, cur);
      queue, groups := queue + [pdu], groups + [cur];
      have, cur := false, [];
    }

    method AppendEndMarks() returns (ghost marks: seq<byte>)
      modifies this`pdu
      ensures |old(pdu)| <= room ==> |pdu| <= room
      ensures pdu == old(pdu) + marks && |marks| <= 2 && forall i :: 0 <= i < |marks| ==> marks[i] == END_MARK
    {
      var a := AppendEndMark();
      var b := AppendEndMark();
      marks := (if a then [END_MARK] else []) + (if b then [END_MARK] else []);
    }

    /** A message of this type is open afterwards, if room allows. */
    method OpenMsg(kind: byte) returns (ok: bool, ghost extra: seq<byte>)
      requires kind != END_MARK
      modifies this`pdu, this`curType
      ensures pdu == old(pdu) + extra && (old(|pdu|) <= room ==> |pdu| <= room)
      ensures ok ==> extra == Opening(old(curType), kind) && curType == kind
      ensures !ok ==> extra == [] || extra == [END_MARK]
      ensures old(curType) == 0 && |old(pdu)| < room ==> ok
    {
      extra := [];
      ok := true;
      if curType != kind {
        if curType != 0 {
          ok := AppendEndMark();
          if !ok {
            return;
          }
          extra := [END_MARK];
        }
        ok := AppendMsg(kind);
        if ok {
          extra := extra + [kind];
        }
      }
    }

    /** The body of garp_pdu_append_attr between again and queue: false means the PDU has to go first. */
    method TryAppend(it: Item) returns (done: bool, ghost extra: seq<byte>)
      requires have && AllSendable(cur) && Sendable(it) && AllFinished(queue, groups)
      requires forall i :: 0 <= i < |queue| ==> |queue[i]| <= room
      requires pdu == PROTOCOL + Render(0, cur) && |pdu| <= room && curType == LastKind(cur)
      modifies this`pdu, this`curType, this`cur
      ensures done ==> Valid() && cur == old(cur) + [it]
      ensures !done ==> cur == old(cur) && pdu == old(pdu) + extra && |pdu| <= room
      ensures !done ==> extra == [] || (extra[0] == END_MARK && |extra| <= 2) || cur == []
      ensures old(cur) == [] ==> (done <==> |old(pdu)| + 3 + |it.data| <= room)
    {
      var ok;
      ok, extra := OpenMsg(it.kind);
      if !ok {
        return false, extra;
      }
      var len := 2 + |it.data|;
      if room - |pdu| < len {
        return false, extra;
      }
      PduAppend(cur, it);
      pdu := pdu + ([len, it.event] + it.data);
      cur := cur + [it];
      return true, extra;
    }

    /**
     * garp_pdu_append_attr.  The loop ends because a fresh PDU has room, which by TryAppend is
     * the exact condition; every attribute ends up in exactly one PDU, in order.
     */
    method AppendAttr(it: Item, memory: bool) returns (ok: bool)
      requires Valid() && Sendable(it) && 5 + |it.data| <= room
      modifies this
      ensures Valid() && old(queue) <= queue
      ensures Taken() == old(Taken()) + if ok then [it] else []
      ensures !ok ==> !memory
    {
      while true
        invariant Valid() && Taken() == old(Taken()) && old(queue) <= queue
        decreases have
      {
        if !have {
          if !memory {
            return false;
          }
          have, pdu, curType := true, PROTOCOL, 0;
          assert pdu == PROTOCOL + Render(0, cur);
        }
        var done, extra := TryAppend(it);
        if done {
          assert Taken() == old(Taken()) + [it];
          return true;
        }
        QueuePdu(extra);
      }
    }

    /** The end of garp_join_timer: what is left leaves too, and the queue holds every attribute taken. */
    method Finish()
      requires Valid()
      modifies this
      ensures Valid() && !have && Taken() == old(Taken())
      ensures AllFinished(queue, groups) && Flat(groups) == old(Taken())
    {
      if have {
        assert pdu == PROTOCOL + Render(0, cur) + [];
      }
      QueuePdu([]);
      assert Flat(groups) + [] == Flat(groups);
    }
  }

  lemma {:induction false} Leave(queue: seq<seq<byte>>, groups: seq<seq<Item>>, pdu: seq<byte>, cur: seq<Item>)
    requires AllFinished(queue, groups) && Finished(pdu, cur)
    ensures AllFinished(queue + [pdu], groups + [cur])
    ensures Flat(groups + [cur]) + [] == Flat(groups) + cur
  {
    FlatAppend(groups, cur);
  }

  lemma {:induction false} PduAppend(cur: seq<Item>, it: Item)
    requires AllSendable(cur) && Sendable(it)
    ensures PROTOCOL + Render(0, cur) + Opening(LastKind(cur), it.kind) + AttrBytes(it)
         == PROTOCOL + Render(0, cur + [it])
  {
    RenderAppend(0, cur, it);
    Assoc(PROTOCOL, Render(0, cur), Opening(LastKind(cur), it.kind), AttrBytes(it));
  }

  lemma {:induction false} Closed(cur: seq<Item>, extra: seq<byte>, marks: seq<byte>)
    requires cur != [] && AllSendable(cur) && (extra == [] || (extra[0] == END_MARK && |extra| <= 2))
    requires |marks| <= 2 && forall i :: 0 <= i < |marks| ==> marks[i] == END_MARK
    ensures Finished(PROTOCOL + Render(0, cur) + extra + marks, cur)
  {
    var head := PROTOCOL + Render(0, cur);
    var pdu := head + extra + marks;
    assert pdu[..|head|] == head && pdu[|head|..] == extra + marks;
  }

  function After(log: seq<Item>, r: Res): Res {
    r.(log := log + r.log)
  }

  lemma {:induction false} AttrsStep(kind: byte, b: seq<byte>, maxattr: byte, log: seq<Item>)
    requires b != []
    ensures var a := ParseAttr(kind, b, maxattr);
            && (!a.ok || a.rest == [] ==> After(log, Attrs(kind, b, maxattr)) == Res(log + a.log, a.rest, a.ok))
            && (a.ok && a.rest != [] && a.rest[0] == END_MARK ==>
                  After(log, Attrs(kind, b, maxattr)) == Res(log + a.log, a.rest[1..], true))
            && (a.ok && a.rest != [] && a.rest[0] != END_MARK ==>
                  After(log, Attrs(kind, b, maxattr)) == After(log + a.log, Attrs(kind, a.rest, maxattr)))
  {
    var a := ParseAttr(kind, b, maxattr);
    var r := Attrs(kind, a.rest, maxattr);
    assert log + (a.log + r.log) == log + a.log + r.log;
  }

  /** garp_pdu_parse_msg. */
  method ParseMsg(buf: seq<byte>, maxattr: byte) returns (log: seq<Item>, rest: seq<byte>, ok: bool)
    ensures if buf == [] || buf[0] == END_MARK then log == [] && !ok
            else Res(log, rest, ok) == Attrs(buf[0], buf[1..], maxattr)
  {
    log, rest := [], buf;
    if |buf| < 1 || buf[0] == END_MARK {
      return log, rest, false;
    }
    var kind := buf[0];
    rest := buf[1..];
    ghost var all := Attrs(kind, rest, maxattr);
    assert log + all.log == all.log;
    while |rest| > 0
      invariant all == After(log, Attrs(kind, rest, maxattr))
      decreases |rest|
    {
      AttrsStep(kind, rest, maxattr, log);
      var a := ParseAttr(kind, rest, maxattr);
      log, rest := log + a.log, a.rest;
      if !a.ok {
        return log, rest, false;
      }
      if rest == [] {
        return log, rest, true;
      }
      if rest[0] == END_MARK {
        return log, rest[1..], true;
      }
    }
    assert log + [] == log;
    return log, rest, true;
  }

  /** garp_pdu_rcv, as far as framing goes. */
  method ParsePdu(pdu: seq<byte>, maxattr: byte) returns (log: seq<Item>)
    ensures log == Parse(pdu, maxattr)
  {
    log := [];
    if |pdu| < 2 || pdu[..2] != PROTOCOL {
      return;
    }
    var rest := pdu[2..];
    ghost var all := Msgs(rest, maxattr);
    while |rest| > 0
      invariant all == log + Msgs(rest, maxattr)
      decreases |rest|
    {
      var more, rest', ok := ParseMsg(rest, maxattr);
      var tail := if ok then Msgs(rest', maxattr) else [];
      assert log + (more + tail) == log + more + tail;
      log := log + more;
      if !ok {
        return;
      }
      rest := rest';
      if rest == [] || rest[0] == END_MARK {
        return;
      }
    }
  }
}

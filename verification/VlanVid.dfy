/**
 * The reference-counted VLAN id list of a device (net/8021q/vlan_core.c) and its hardware filter.
 */
module VlanVid {
  const ENOMEM := -12

  datatype Vid = Vid(vid: nat, ref: nat)

  /** dev->vlan_info: absent, or the id list (newest first) with its length counter. */
  datatype Info = NoInfo | Info(list: seq<Vid>, nr: nat)

  function ListOf(i: Info): seq<Vid> {
    if i.NoInfo? then [] else i.list
  }

  function Ids(l: seq<Vid>): set<nat> {
    if l == [] then {} else {l[0].vid} + Ids(l[1..])
  }

  /** Ids are distinct and every reference count is positive. */
  predicate Distinct(l: seq<Vid>) {
    l == [] || (l[0].ref > 0 && l[0].vid !in Ids(l[1..]) && Distinct(l[1..]))
  }

  /** What holds of vlan_info between operations. */
  predicate Good(i: Info) {
    i.Info? ==> i.list != [] && i.nr == |i.list| && Distinct(i.list)
  }

  /** The multiset of references a list stands for. */
  function Held(l: seq<Vid>): multiset<nat> {
    if l == [] then multiset{} else Held(l[1..])[l[0].vid := l[0].ref]
  }

  // ---- one reference more, one less ----

  function Bump(l: seq<Vid>, v: nat): seq<Vid> {
    if l == [] then []
    else if l[0].vid == v then [Vid(v, l[0].ref + 1)] + l[1..]
    else [l[0]] + Bump(l[1..], v)
  }

  function Drop(l: seq<Vid>, v: nat): seq<Vid> {
    if l == [] then []
    else if l[0].vid != v then [l[0]] + Drop(l[1..], v)
    else if l[0].ref <= 1 then l[1..]
    else [Vid(v, l[0].ref - 1)] + l[1..]
  }

  /** vlan_vid_add when nothing fails. */
  function AddRef(i: Info, v: nat): Info {
    var l := ListOf(i);
    if v in Ids(l) then i.(list := Bump(l, v))
    else Info([Vid(v, 1)] + l, (if i.NoInfo? then 0 else i.nr) + 1)
  }

  /** vlan_vid_del. */
  function DelRef(i: Info, v: nat): Info {
    var l := ListOf(i);
    if v !in Ids(l) then i
    else if |Drop(l, v)| == |l| then i.(list := Drop(l, v))
    else if i.nr <= 1 then NoInfo
    else Info(Drop(l, v), i.nr - 1)
  }

  lemma {:induction false} BumpKeeps(l: seq<Vid>, v: nat)
    requires Distinct(l)
    ensures Distinct(Bump(l, v)) && |Bump(l, v)| == |l| && Ids(Bump(l, v)) == Ids(l)
    ensures v in Ids(l) ==> Held(Bump(l, v)) == Held(l) + multiset{v}
  {
    if l != [] {
      BumpKeeps(l[1..], v);
      assert Bump(l, v)[1..] == if l[0].vid == v then l[1..] else Bump(l[1..], v);
    }
  }

  lemma {:induction false} DropKeeps(l: seq<Vid>, v: nat)
    requires Distinct(l)
    ensures Distinct(Drop(l, v))
    ensures |Drop(l, v)| == |l| - (if Held(l)[v] == 1 then 1 else 0)
    ensures Ids(Drop(l, v)) == if Held(l)[v] == 1 then Ids(l) - {v} else Ids(l)
  {
    if l != [] {
      DropHead(l, v);
      if l[0].vid != v {
        DropKeeps(l[1..], v);
      } else {
        HeldIds(l[1..], v);
      }
    }
  }

  lemma {:induction false} DropHeld(l: seq<Vid>, v: nat)
    requires Distinct(l)
    ensures Held(Drop(l, v)) == Held(l) - multiset{v}
  {
    if l != [] {
      DropHead(l, v);
      if l[0].vid != v {
        DropHeld(l[1..], v);
      } else {
        HeldIds(l[1..], v);
      }
    }
  }

  lemma {:induction false} HeldIds(l: seq<Vid>, v: nat)
    requires Distinct(l)
    ensures v in Ids(l) <==> Held(l)[v] > 0
  {
    if l != [] {
      HeldIds(l[1..], v);
    }
  }

  lemma {:induction false} DropBump(l: seq<Vid>, v: nat)
    requires Distinct(l) && v in Ids(l)
    ensures Drop(Bump(l, v), v) == l
  {
    if l[0].vid != v {
      DropBump(l[1..], v);
      assert Bump(l, v)[1..] == Bump(l[1..], v);
    } else {
      assert Bump(l, v)[1..] == l[1..];
    }
  }

  /** The counters refine a multiset: one reference more. */
  lemma {:induction false} AddGood(i: Info, v: nat)
    requires Good(i)
    ensures Good(AddRef(i, v)) && Held(ListOf(AddRef(i, v))) == Held(ListOf(i)) + multiset{v}
    ensures Ids(ListOf(AddRef(i, v))) == Ids(ListOf(i)) + {v}
  {
    var l := ListOf(i);
    BumpKeeps(l, v);
    HeldIds(l, v);
    assert ([Vid(v, 1)] + l)[1..] == l;
  }

  /** One reference less, if there is one. */
  lemma {:induction false} DelGood(i: Info, v: nat)
    requires Good(i)
    ensures Good(DelRef(i, v)) && Held(ListOf(DelRef(i, v))) == Held(ListOf(i)) - multiset{v}
    ensures Ids(ListOf(DelRef(i, v))) == if Held(ListOf(i))[v] == 1 then Ids(ListOf(i)) - {v} else Ids(ListOf(i))
  {
    var l := ListOf(i);
    HeldIds(l, v);
    DropKeeps(l, v);
    DropHeld(l, v);
    if v in Ids(l) && |Drop(l, v)| != |l| && i.nr <= 1 {
      assert Drop(l, v) == [];
    }
  }

  /** A delete undoes an add exactly, list order and vlan_info pointer included. */
  lemma {:induction false} DelAdd(i: Info, v: nat)
    requires Good(i)
    ensures DelRef(AddRef(i, v), v) == i
  {
    var l := ListOf(i);
    if v in Ids(l) {
      DropBump(l, v);
      BumpKeeps(l, v);
    } else {
      assert ([Vid(v, 1)] + l)[1..] == l;
    }
  }

  lemma {:induction false} DropComm(l: seq<Vid>, a: nat, b: nat)
    requires Distinct(l)
    ensures Drop(Drop(l, a), b) == Drop(Drop(l, b), a)
  {
    if l != [] && a != b {
      DropComm(l[1..], a, b);
      DropHead(l, a);
      DropHead(l, b);
    }
  }

  lemma {:induction false} DropHead(l: seq<Vid>, v: nat)
    requires l != []
    ensures l[0].vid != v ==> Drop(l, v)[0] == l[0] && Drop(l, v)[1..] == Drop(l[1..], v)
    ensures l[0].vid == v && l[0].ref > 1 ==> Drop(l, v)[0].vid == v && Drop(l, v)[1..] == l[1..]
  {
  }

  lemma {:induction false} DelComm(i: Info, a: nat, b: nat)
    requires Good(i)
    ensures DelRef(DelRef(i, a), b) == DelRef(DelRef(i, b), a)
  {
    var l := ListOf(i);
    DropComm(l, a, b);
    DelIsDrop(i, a);
    DelIsDrop(i, b);
    DelGood(i, a);
    DelGood(i, b);
    DelIsDrop(DelRef(i, a), b);
    DelIsDrop(DelRef(i, b), a);
    DelGood(DelRef(i, a), b);
    DelGood(DelRef(i, b), a);
  }

  /** The list of what is left is determined by the ids alone, and determines the rest. */
  lemma {:induction false} DelIsDrop(i: Info, v: nat)
    requires Good(i)
    ensures ListOf(DelRef(i, v)) == Drop(ListOf(i), v)
  {
    var l := ListOf(i);
    HeldIds(l, v);
    DropKeeps(l, v);
    DropAbsent(l, v);
  }

  lemma {:induction false} DropAbsent(l: seq<Vid>, v: nat)
    ensures v !in Ids(l) ==> Drop(l, v) == l
  {
    if l != [] {
      DropAbsent(l[1..], v);
    }
  }

  // ---- whole runs ----

  datatype Op = Add(vid: nat) | Del(vid: nat)

  function Run(i: Info, ops: seq<Op>): Info
    decreases |ops|
  {
    if ops == [] then i
    else Run(if ops[0].Add? then AddRef(i, ops[0].vid) else DelRef(i, ops[0].vid), ops[1..])
  }

  function RunBag(m: multiset<nat>, ops: seq<Op>): multiset<nat>
    decreases |ops|
  {
    if ops == [] then m
    else RunBag(if ops[0].Add? then m + multiset{ops[0].vid} else m - multiset{ops[0].vid}, ops[1..])
  }

  /** After any adds and deletes the list holds what a multiset would; vlan_info is gone iff that is empty. */
  lemma {:induction false} RunRefines(i: Info, ops: seq<Op>)
    requires Good(i)
    ensures Good(Run(i, ops)) && Held(ListOf(Run(i, ops))) == RunBag(Held(ListOf(i)), ops)
    ensures Run(i, ops).NoInfo? <==> RunBag(Held(ListOf(i)), ops) == multiset{}
    ensures forall v :: v in Ids(ListOf(Run(i, ops))) <==> v in RunBag(Held(ListOf(i)), ops)
    decreases |ops|
  {
    if ops == [] {
      forall v ensures v in Ids(ListOf(i)) <==> v in Held(ListOf(i)) {
        HeldIds(ListOf(i), v);
      }
      if i.Info? {
        assert i.list[0].vid in Held(i.list);
      }
    } else {
      AddGood(i, ops[0].vid);
      DelGood(i, ops[0].vid);
      RunRefines(if ops[0].Add? then AddRef(i, ops[0].vid) else DelRef(i, ops[0].vid), ops[1..]);
    }
  }

  /** The ids of a list, in list order. */
  function Names(l: seq<Vid>): seq<nat> {
    seq(|l|, i requires 0 <= i < |l| => l[i].vid)
  }

  /** The first n of vs added in order. */
  function AddAll(i: Info, vs: seq<nat>, n: nat): Info
    requires n <= |vs|
    decreases n, vs
  {
    if n == 0 then i else AddRef(AddAll(i, vs, n - 1), vs[n - 1])
  }

  /** The first n of vs deleted in order. */
  function DelAll(i: Info, vs: seq<nat>, n: nat): Info
    requires n <= |vs|
    decreases n, vs
  {
    if n == 0 then i else DelRef(DelAll(i, vs, n - 1), vs[n - 1])
  }

  lemma {:induction false} AddAllGood(i: Info, vs: seq<nat>, n: nat)
    requires Good(i) && n <= |vs|
    ensures Good(AddAll(i, vs, n))
    decreases n
  {
    if n != 0 {
      AddAllGood(i, vs, n - 1);
      AddGood(AddAll(i, vs, n - 1), vs[n - 1]);
    }
  }

  lemma {:induction false} DelAllGood(i: Info, vs: seq<nat>, n: nat)
    requires Good(i) && n <= |vs|
    ensures Good(DelAll(i, vs, n))
    decreases n
  {
    if n != 0 {
      DelAllGood(i, vs, n - 1);
      DelGood(DelAll(i, vs, n - 1), vs[n - 1]);
    }
  }

  lemma {:induction false} DelAllComm(i: Info, vs: seq<nat>, n: nat, v: nat)
    requires Good(i) && n <= |vs|
    ensures DelAll(DelRef(i, v), vs, n) == DelRef(DelAll(i, vs, n), v)
    decreases n
  {
    if n != 0 {
      DelAllComm(i, vs, n - 1, v);
      DelAllGood(i, vs, n - 1);
      DelComm(DelAll(i, vs, n - 1), v, vs[n - 1]);
    }
  }

  lemma {:induction false} UndoLast(i: Info, vs: seq<nat>, n: nat)
    requires Good(i) && 0 < n <= |vs|
    ensures DelAll(AddRef(i, vs[n - 1]), vs, n) == DelAll(i, vs, n - 1)
  {
    AddGood(i, vs[n - 1]);
    DelAllComm(AddRef(i, vs[n - 1]), vs, n - 1, vs[n - 1]);
    DelAdd(i, vs[n - 1]);
  }

  /** vlan_vids_del_by_dev, in list order, undoes vlan_vids_add_by_dev exactly. */
  lemma {:induction false} DelAllAddAll(i: Info, vs: seq<nat>, n: nat)
    requires Good(i) && n <= |vs|
    ensures DelAll(AddAll(i, vs, n), vs, n) == i
    decreases n
  {
    if n != 0 {
      AddAllGood(i, vs, n - 1);
      UndoLast(AddAll(i, vs, n - 1), vs, n);
      DelAllAddAll(i, vs, n - 1);
    }
  }

  // ---- failures ----

  /** How the allocations and the driver behave in one vlan_vid_add. */
  datatype Try = Try(infoMem: bool, vidMem: bool, driver: int)

  function AddErr(i: Info, hw: bool, v: nat, t: Try): int {
    if i.NoInfo? && !t.infoMem then ENOMEM
    else if v in Ids(ListOf(i)) then 0
    else if !t.vidMem then ENOMEM
    else if hw then t.driver
    else 0
  }

  /** The first error met when adding the first n of vs in order, or zero. */
  function FirstErr(i: Info, hw: bool, vs: seq<nat>, n: nat, tries: seq<Try>): int
    requires n <= |vs| <= |tries|
    decreases n, vs
  {
    if n == 0 then 0
    else
      var e := FirstErr(i, hw, vs, n - 1, tries);
      if e != 0 then e else AddErr(AddAll(i, vs, n - 1), hw, vs[n - 1], tries[n - 1])
  }

  lemma {:induction false} FirstErrStays(i: Info, hw: bool, vs: seq<nat>, n: nat, m: nat, tries: seq<Try>)
    requires n <= m <= |vs| <= |tries| && FirstErr(i, hw, vs, n, tries) != 0
    ensures FirstErr(i, hw, vs, m, tries) == FirstErr(i, hw, vs, n, tries)
    decreases m
  {
    if n < m {
      FirstErrStays(i, hw, vs, n, m - 1, tries);
    }
  }

  lemma {:induction false} BumpAt(l: seq<Vid>, k: nat, v: nat)
    requires k < |l| && l[k].vid == v && forall j :: 0 <= j < k ==> l[j].vid != v
    ensures v in Ids(l) && Bump(l, v) == l[k := Vid(v, l[k].ref + 1)]
    decreases k
  {
    if k > 0 {
      BumpAt(l[1..], k - 1, v);
    }
  }

  lemma {:induction false} DropAt(l: seq<Vid>, k: nat, v: nat)
    requires k < |l| && l[k].vid == v && forall j :: 0 <= j < k ==> l[j].vid != v
    ensures l[k].ref <= 1 ==> Drop(l, v) == l[..k] + l[k + 1..]
    ensures l[k].ref > 1 ==> Drop(l, v) == l[k := Vid(v, l[k].ref - 1)]
    decreases k
  {
    if k > 0 {
      var t := l[1..];
      DropAt(t, k - 1, v);
      if l[k].ref <= 1 {
        assert l[..k] + l[k + 1..] == [l[0]] + (t[..k - 1] + t[k..]);
      }
    }
  }

  lemma {:induction false} Absent(l: seq<Vid>, v: nat)
    requires forall j :: 0 <= j < |l| ==> l[j].vid != v
    ensures v !in Ids(l)
  {
    if l != [] {
      Absent(l[1..], v);
    }
  }

  predicate AllZero(kills: seq<int>) {
    forall k :: 0 <= k < |kills| ==> kills[k] == 0
  }

  // ---- the device ----

  class Device {
    const hw: bool          // filters VLAN ids in hardware
    var info: Info
    var filter: set<nat>    // ids the hardware lets through

    ghost predicate Valid()
      reads this
    {
      Good(info) && (hw ==> Ids(ListOf(info)) <= filter)
    }

    /** The hardware filter holds no stale id. */
    ghost predicate Synced()
      reads this
    {
      hw ==> filter == Ids(ListOf(info))
    }

    constructor (hw: bool)
      ensures Valid() && Synced() && info == NoInfo && this.hw == hw
    {
      this.hw := hw;
      info := NoInfo;
      filter := {};
    }

    /** vlan_vid_info_get: the index of v, or the length of the list. */
    method Find(v: nat) returns (k: nat)
      ensures k <= |ListOf(info)| && (k < |ListOf(info)| <==> v in Ids(ListOf(info)))
      ensures k < |ListOf(info)| ==> ListOf(info)[k].vid == v && forall j :: 0 <= j < k ==> ListOf(info)[j].vid != v
    {
      var l := ListOf(info);
      k := 0;
      while k < |l|
        invariant k <= |l| && forall j :: 0 <= j < k ==> l[j].vid != v
      {
        if l[k].vid == v {
          BumpAt(l, k, v);
          return;
        }
        k := k + 1;
      }
      Absent(l, v);
    }

    /** vlan_vid_add, seen from outside. */
    method VidAdd(v: nat, t: Try) returns (err: int)
      requires Valid()
      modifies this
      ensures Valid() && err == AddErr(old(info), hw, v, t)
      ensures info == if err == 0 then AddRef(old(info), v) else old(info)
      ensures filter == if err == 0 && hw && v !in Ids(ListOf(old(info))) then old(filter) + {v} else old(filter)
      ensures old(Synced()) ==> Synced()
    {
      AddGood(info, v);
      err := Acquire(v, t);
    }

    /** The steps of vlan_vid_add. */
    method Acquire(v: nat, t: Try) returns (err: int)
      modifies this
      ensures err == AddErr(old(info), hw, v, t)
      ensures info == if err == 0 then AddRef(old(info), v) else old(info)
      ensures filter == if err == 0 && hw && v !in Ids(ListOf(old(info))) then old(filter) + {v} else old(filter)
    {
      if info.NoInfo? && !t.infoMem {
        return ENOMEM;
      }
      var work := if info.NoInfo? then Info([], 0) else info;
      var k := Find(v);
      if k < |work.list| {
        BumpAt(work.list, k, v);
        var e := work.list[k];
        info := work.(list := work.list[k := Vid(v, e.ref + 1)]);
        return 0;
      }
      if !t.vidMem {
        return ENOMEM;
      }
      if hw {
        if t.driver != 0 {
          return t.driver;
        }
        filter := filter + {v};
      }
      info := Info([Vid(v, 1)] + work.list, work.nr + 1);
      return 0;
    }

    /** vlan_vid_del, seen from outside. */
    method VidDel(v: nat, kill: int)
      requires Valid()
      modifies this
      ensures Valid() && info == DelRef(old(info), v)
      ensures filter == if hw && kill == 0 && Held(ListOf(old(info)))[v] == 1 then old(filter) - {v} else old(filter)
      ensures old(Synced()) && kill == 0 ==> Synced()
    {
      DelGood(info, v);
      Release(v, kill);
    }

    /** The steps of vlan_vid_del. */
    method Release(v: nat, kill: int)
      requires Good(info)
      modifies this
      ensures info == DelRef(old(info), v)
      ensures filter == if hw && kill == 0 && Held(ListOf(old(info)))[v] == 1 then old(filter) - {v} else old(filter)
    {
      HeldIds(ListOf(info), v);
      if info.NoInfo? {
        return;
      }
      var k := Find(v);
      if k == |info.list| {
        return;
      }
      DropAt(info.list, k, v);
      DropKeeps(info.list, v);
      var e := info.list[k];
      if e.ref > 1 {
        info := info.(list := info.list[k := Vid(v, e.ref - 1)]);
      } else {
        Unlink(k, kill);
      }
    }

    /** __vlan_vid_del for the entry at k, and the release of vlan_info after the last one. */
    method Unlink(k: nat, kill: int)
      requires info.Info? && k < |info.list| && info.nr > 0
      modifies this
      ensures info == if old(info).nr == 1 then NoInfo
                      else Info(old(info).list[..k] + old(info).list[k + 1..], old(info).nr - 1)
      ensures filter == if hw && kill == 0 then old(filter) - {old(info).list[k].vid} else old(filter)
    {
      if hw && kill == 0 {
        filter := filter - {info.list[k].vid};
      }
      info := Info(info.list[..k] + info.list[k + 1..], info.nr - 1);
      if info.nr == 0 {
        info := NoInfo;
      }
    }

    /** vlan_vids_add_by_dev: all of the other device's ids, or nothing changed at all. */
    method AddByDev(from: Device, tries: seq<Try>, kills: seq<int>) returns (err: int)
      requires this != from && Valid() && |tries| == |kills| == |ListOf(from.info)|
      modifies this
      ensures Valid() && err == FirstErr(old(info), hw, Names(ListOf(from.info)), |ListOf(from.info)|, tries)
      ensures info == if err == 0 then AddAll(old(info), Names(ListOf(from.info)), |ListOf(from.info)|) else old(info)
      ensures old(Synced()) && AllZero(kills) ==> Synced()
    {
      if from.info.NoInfo? {
        return 0;
      }
      var vs := Names(from.info.list);
      var n;
      err, n := AddUntil(vs, tries);
      if err != 0 {
        Unwind(vs, n, kills, old(info));
      }
    }

    /** The loop of vlan_vids_add_by_dev up to the first error. */
    method AddUntil(vs: seq<nat>, tries: seq<Try>) returns (err: int, n: nat)
      requires Valid() && |tries| == |vs|
      modifies this
      ensures Valid() && n <= |vs| && err == FirstErr(old(info), hw, vs, |vs|, tries) && (err == 0 ==> n == |vs|)
      ensures info == AddAll(old(info), vs, n)
      ensures old(Synced()) ==> Synced()
    {
      hide AddRef, AddErr, Good, Ids, Held;
      n := 0;
      while n < |vs|
        invariant n <= |vs| && Valid()
        invariant info == AddAll(old(info), vs, n) && FirstErr(old(info), hw, vs, n, tries) == 0
        invariant old(Synced()) ==> Synced()
      {
        err := VidAdd(vs[n], tries[n]);
        if err != 0 {
          FirstErrStays(old(info), hw, vs, n + 1, |vs|, tries);
          return;
        }
        n := n + 1;
      }
      return 0, n;
    }

    /** The unwind loop: from the failed position back to the start of the list. */
    method Unwind(vs: seq<nat>, n: nat, kills: seq<int>, ghost start: Info)
      requires Valid() && n <= |vs| <= |kills| && Good(start) && info == AddAll(start, vs, n)
      modifies this
      ensures Valid() && info == start
      ensures old(Synced()) && AllZero(kills) ==> Synced()
    {
      hide AddRef, DelRef, Ids, Held, Distinct;
      var i := n;
      while i > 0
        invariant 0 <= i <= n && Valid()
        invariant info == AddAll(start, vs, i)
        invariant old(Synced()) && AllZero(kills) ==> Synced()
      {
        i := i - 1;
        AddAllGood(start, vs, i);
        DelAdd(AddAll(start, vs, i), vs[i]);
        VidDel(vs[i], kills[i]);
      }
    }

    /** vlan_vids_del_by_dev. */
    method DelByDev(from: Device, kills: seq<int>)
      requires this != from && Valid() && |kills| == |ListOf(from.info)|
      modifies this
      ensures Valid() && info == DelAll(old(info), Names(ListOf(from.info)), |ListOf(from.info)|)
      ensures old(Synced()) && AllZero(kills) ==> Synced()
    {
      hide DelRef, Ids, Held, Distinct;
      if from.info.NoInfo? {
        return;
      }
      var vs := Names(from.info.list);
      var i := 0;
      while i < |vs|
        invariant 0 <= i <= |vs| && Valid()
        invariant info == DelAll(old(info), vs, i)
        invariant old(Synced()) && AllZero(kills) ==> Synced()
      {
        VidDel(vs[i], kills[i]);
        i := i + 1;
      }
    }
  }
}

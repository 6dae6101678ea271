/**
 * Priority maps of a VLAN device: the hashed egress map with its counter, the ingress table, and
 * their trip through a netlink message (net/8021q/vlan_dev.c, net/8021q/vlan_netlink.c).
 */
module VlanQos {
  import opened Common

  const ENOBUFS := -105
  const SHIFT := 8192     // 1 << VLAN_PRIO_SHIFT

  /** qos is already shifted into the top three bits of a tag. */
  datatype Node = Node(prio: nat, qos: nat)

  /** A mapping as it stands in a message. */
  datatype Pair = Pair(src: nat, dst: nat)

  /** (vlan_prio << VLAN_PRIO_SHIFT) & VLAN_PRIO_MASK. */
  function Shifted(vlanPrio: nat): nat {
    (vlanPrio % 8) * SHIFT
  }

  /** (vlan_qos >> 13) & 0x7. */
  function Unshifted(q: nat): nat {
    (q / SHIFT) % 8
  }

  predicate Tag(q: nat) {
    q % SHIFT == 0 && q < 0x1_0000
  }

  lemma ShiftBack(v: nat, q: nat)
    ensures Tag(Shifted(v)) && Unshifted(Shifted(v)) == v % 8
    ensures Tag(q) ==> Shifted(Unshifted(q)) == q
  {
    var w := v % 8;
    assert Shifted(v) == w * SHIFT;
  }

  // ---- one chain ----

  predicate Chain(l: seq<Node>, bucket: nat) {
    forall i :: 0 <= i < |l| ==> l[i].prio % 16 == bucket
  }

  predicate Unique(l: seq<Node>) {
    forall i, j :: 0 <= i < j < |l| ==> l[i].prio != l[j].prio
  }

  predicate Has(l: seq<Node>, p: nat) {
    exists i :: 0 <= i < |l| && l[i].prio == p
  }

  /** The walk along a chain. */
  function Look(l: seq<Node>, p: nat): nat {
    if l == [] then 0 else if l[0].prio == p then l[0].qos else Look(l[1..], p)
  }

  function Used(l: seq<Node>): nat {
    if l == [] then 0 else (if l[0].qos != 0 then 1 else 0) + Used(l[1..])
  }

  /** Overwrites the node for p, or puts a new one in front. */
  function Put(l: seq<Node>, p: nat, q: nat): seq<Node> {
    if Has(l, p) then Over(l, p, q) else [Node(p, q)] + l
  }

  function Over(l: seq<Node>, p: nat, q: nat): seq<Node> {
    if l == [] then []
    else if l[0].prio == p then [Node(p, q)] + l[1..]
    else [l[0]] + Over(l[1..], p, q)
  }

  lemma {:induction false} OverKeeps(l: seq<Node>, p: nat, q: nat)
    ensures |Over(l, p, q)| == |l| && forall i :: 0 <= i < |l| ==> Over(l, p, q)[i].prio == l[i].prio
  {
    if l != [] && l[0].prio != p {
      OverKeeps(l[1..], p, q);
    }
  }

  lemma {:induction false} OverLook(l: seq<Node>, p: nat, q: nat, r: nat)
    ensures Look(Over(l, p, q), r) == if r == p && Has(l, p) then q else Look(l, r)
    ensures Has(l, p) ==> Used(Over(l, p, q)) == Used(l) - One(Look(l, p) != 0) + One(q != 0)
    ensures Has(l, p) && Look(l, p) != 0 ==> Used(l) > 0
  {
    if l != [] {
      assert Has(l, p) <==> l[0].prio == p || Has(l[1..], p) by { HasTail(l, p); }
      if l[0].prio != p {
        OverLook(l[1..], p, q, r);
        assert Over(l, p, q)[1..] == Over(l[1..], p, q);
      } else {
        assert Over(l, p, q)[1..] == l[1..];
      }
    }
  }

  lemma HasTail(l: seq<Node>, p: nat)
    requires l != []
    ensures Has(l, p) <==> l[0].prio == p || Has(l[1..], p)
  {
    if Has(l, p) && l[0].prio != p {
      var i :| 0 <= i < |l| && l[i].prio == p;
      assert l[1..][i - 1].prio == p;
    }
    if Has(l[1..], p) {
      var i :| 0 <= i < |l[1..]| && l[1..][i].prio == p;
      assert l[i + 1].prio == p;
    }
  }

  lemma {:induction false} LookHas(l: seq<Node>, p: nat)
    ensures !Has(l, p) ==> Look(l, p) == 0
  {
    if l != [] {
      HasTail(l, p);
      LookHas(l[1..], p);
    }
  }

  /** A chain answers like a map, before and after. */
  lemma {:induction false} PutLook(l: seq<Node>, p: nat, q: nat, r: nat)
    ensures Look(Put(l, p, q), r) == if r == p then q else Look(l, r)
    ensures Used(Put(l, p, q)) == Used(l) - One(Look(l, p) != 0) + One(q != 0)
  {
    OverLook(l, p, q, r);
    LookHas(l, p);
    assert ([Node(p, q)] + l)[1..] == l;
  }

  lemma {:induction false} PutShape(l: seq<Node>, p: nat, q: nat, bucket: nat)
    requires Chain(l, bucket) && Unique(l) && p % 16 == bucket
    ensures Chain(Put(l, p, q), bucket) && Unique(Put(l, p, q))
  {
    OverKeeps(l, p, q);
  }

  predicate Tags(l: seq<Node>) {
    forall i :: 0 <= i < |l| ==> Tag(l[i].qos)
  }

  lemma {:induction false} PutTags(l: seq<Node>, p: nat, q: nat)
    requires Tags(l) && Tag(q)
    ensures Tags(Over(l, p, q)) && Tags(Put(l, p, q))
  {
    if l != [] {
      PutTags(l[1..], p, q);
    }
  }

  lemma {:induction false} LookTag(l: seq<Node>, p: nat)
    requires Tags(l)
    ensures Tag(Look(l, p))
  {
    if l != [] {
      LookTag(l[1..], p);
    }
  }

  // ---- the egress map ----

  /** Every node sits in the bucket of its priority, at most once. */
  predicate Good(b: seq<seq<Node>>) {
    |b| == 16 && forall i :: 0 <= i < 16 ==> Chain(b[i], i) && Unique(b[i]) && Tags(b[i])
  }

  const EMPTY: seq<seq<Node>> := seq(16, i => [])

  function Egress(b: seq<seq<Node>>, p: nat): nat
    requires |b| == 16
  {
    Look(b[p % 16], p)
  }

  function Set(b: seq<seq<Node>>, p: nat, v: nat): seq<seq<Node>>
    requires |b| == 16
  {
    b[p % 16 := Put(b[p % 16], p, Shifted(v))]
  }

  /** Mappings to a non-zero priority in the first n buckets. */
  function UsedIn(b: seq<seq<Node>>, n: nat): nat
    requires n <= |b|
    decreases n, b
  {
    if n == 0 then 0 else UsedIn(b, n - 1) + Used(b[n - 1])
  }

  lemma {:induction false} UsedUpdate(b: seq<seq<Node>>, n: nat, k: nat, l: seq<Node>)
    requires k < |b| && n <= |b|
    ensures UsedIn(b[k := l], n) == UsedIn(b, n) + if k < n then Used(l) - Used(b[k]) else 0
    decreases n
  {
    if n != 0 {
      UsedUpdate(b, n - 1, k, l);
    }
  }

  /** Setting a mapping changes the answer for that priority alone, and the count accordingly. */
  lemma {:induction false} SetMeans(b: seq<seq<Node>>, p: nat, v: nat, r: nat)
    requires Good(b)
    ensures Good(Set(b, p, v))
    ensures Egress(Set(b, p, v), r) == if r == p then Shifted(v) else Egress(b, r)
    ensures UsedIn(Set(b, p, v), 16) == UsedIn(b, 16) - One(Egress(b, p) != 0) + One(Shifted(v) != 0)
  {
    var k, q := p % 16, Shifted(v);
    ShiftBack(v, 0);
    PutLook(b[k], p, q, r);
    PutShape(b[k], p, q, k);
    PutTags(b[k], p, q);
    UsedUpdate(b, 16, k, Put(b[k], p, q));
  }

  /** Any number of settings in order. */
  function Replay(b: seq<seq<Node>>, es: seq<Pair>, n: nat): (r: seq<seq<Node>>)
    requires |b| == 16 && n <= |es|
    ensures |r| == 16
    decreases n, b
  {
    if n == 0 then b else Set(Replay(b, es, n - 1), es[n - 1].src, es[n - 1].dst)
  }

  /** The same when a new node may find no memory: such a setting is skipped, and vlan_changelink goes on. */
  function ReplayTry(b: seq<seq<Node>>, es: seq<Pair>, memory: seq<bool>, n: nat): (r: seq<seq<Node>>)
    requires |b| == 16 && n <= |es| <= |memory|
    ensures |r| == 16
    decreases n, b
  {
    if n == 0 then b
    else
      var s, e := ReplayTry(b, es, memory, n - 1), es[n - 1];
      if Has(s[e.src % 16], e.src) || memory[n - 1] then Set(s, e.src, e.dst) else s
  }

  lemma {:induction false} ReplayAll(b: seq<seq<Node>>, es: seq<Pair>, memory: seq<bool>, n: nat)
    requires |b| == 16 && n <= |es| <= |memory| && forall i :: 0 <= i < n ==> memory[i]
    ensures ReplayTry(b, es, memory, n) == Replay(b, es, n)
    decreases n
  {
    if n != 0 {
      ReplayAll(b, es, memory, n - 1);
    }
  }

  /** The same settings on a plain map. */
  function AsMap(es: seq<Pair>, n: nat): map<nat, nat>
    requires n <= |es|
    decreases n, es
  {
    if n == 0 then map[] else AsMap(es, n - 1)[es[n - 1].src := Shifted(es[n - 1].dst)]
  }

  /** What the settings say last about p, or d. */
  function Last(es: seq<Pair>, n: nat, p: nat, d: nat): nat
    requires n <= |es|
    decreases n, es
  {
    if n == 0 then d else if es[n - 1].src == p then Shifted(es[n - 1].dst) else Last(es, n - 1, p, d)
  }

  lemma {:induction false} ReplayMeans(b: seq<seq<Node>>, es: seq<Pair>, n: nat, p: nat)
    requires Good(b) && n <= |es|
    ensures Good(Replay(b, es, n)) && Egress(Replay(b, es, n), p) == Last(es, n, p, Egress(b, p))
    decreases n
  {
    if n != 0 {
      ReplayMeans(b, es, n - 1, p);
      SetMeans(Replay(b, es, n - 1), es[n - 1].src, es[n - 1].dst, p);
    }
  }

  /** After any settings the hashed map answers what a plain map would. */
  lemma {:induction false} LikeMap(es: seq<Pair>, n: nat, p: nat)
    requires n <= |es|
    ensures var m := AsMap(es, n);
            Egress(Replay(EMPTY, es, n), p) == if p in m then m[p] else 0
    decreases n
  {
    if n != 0 {
      LikeMap(es, n - 1, p);
      ReplayMeans(EMPTY, es, n - 1, p);
      SetMeans(Replay(EMPTY, es, n - 1), es[n - 1].src, es[n - 1].dst, p);
    }
  }

  // ---- through a message and back ----

  /** The entries vlan_fill_info writes for one chain. */
  function DumpChain(l: seq<Node>): seq<Pair> {
    if l == [] then []
    else (if l[0].qos == 0 then [] else [Pair(l[0].prio, Unshifted(l[0].qos))]) + DumpChain(l[1..])
  }

  function Dump(b: seq<seq<Node>>, n: nat): seq<Pair>
    requires n <= |b|
    decreases n, b
  {
    if n == 0 then [] else Dump(b, n - 1) + DumpChain(b[n - 1])
  }

  lemma {:induction false} LastConcat(a: seq<Pair>, c: seq<Pair>, n: nat, p: nat, d: nat)
    requires n <= |c|
    ensures Last(a + c, |a| + n, p, d) == Last(c, n, p, Last(a, |a|, p, d))
    decreases n
  {
    if n == 0 {
      LastPrefix(a, c, |a|, p, d);
    } else {
      LastConcat(a, c, n - 1, p, d);
    }
  }

  lemma {:induction false} LastPrefix(a: seq<Pair>, c: seq<Pair>, n: nat, p: nat, d: nat)
    requires n <= |a|
    ensures Last(a + c, n, p, d) == Last(a, n, p, d)
    decreases n
  {
    if n != 0 {
      LastPrefix(a, c, n - 1, p, d);
    }
  }

  lemma {:induction false} LastChain(l: seq<Node>, p: nat, d: nat)
    requires Unique(l) && Tags(l)
    ensures var es := DumpChain(l);
            |es| == Used(l) && Last(es, |es|, p, d) == if Look(l, p) != 0 then Look(l, p) else d
  {
    if l != [] {
      var head := if l[0].qos == 0 then [] else [Pair(l[0].prio, Unshifted(l[0].qos))];
      var t := l[1..];
      ShiftBack(0, l[0].qos);
      var d' := Last(head, |head|, p, d);
      assert d' == if l[0].qos != 0 && l[0].prio == p then l[0].qos else d by {
        if l[0].qos != 0 {
          assert Last(head, 0, p, d) == d;
        }
      }
      LastChain(t, p, d');
      LastConcat(head, DumpChain(t), |DumpChain(t)|, p, d);
      if l[0].prio == p {
        LookHas(t, p);
      }
    }
  }

  lemma {:induction false} LastDump(b: seq<seq<Node>>, n: nat, p: nat)
    requires Good(b) && n <= 16
    ensures var es := Dump(b, n);
            |es| == UsedIn(b, n) && Last(es, |es|, p, 0) == if p % 16 < n then Egress(b, p) else 0
    decreases n
  {
    if n != 0 {
      LastDump(b, n - 1, p);
      var a, l := Dump(b, n - 1), b[n - 1];
      var d := Last(a, |a|, p, 0);
      LastChain(l, p, d);
      LastConcat(a, DumpChain(l), |DumpChain(l)|, p, 0);
      if p % 16 != n - 1 {
        LookHas(l, p);
      }
    }
  }

  lemma EmptyGood()
    ensures Good(EMPTY) && UsedIn(EMPTY, 0) == 0 && forall p :: Egress(EMPTY, p) == 0
  {
  }

  /** Writing the map to a message and applying the message to a fresh device gives the same map. */
  lemma {:induction false} EgressRoundTrip(b: seq<seq<Node>>, p: nat)
    requires Good(b)
    ensures var es := Dump(b, 16);
            Egress(Replay(EMPTY, es, |es|), p) == Egress(b, p)
  {
    EmptyGood();
    LastDump(b, 16, p);
    ReplayMeans(EMPTY, Dump(b, 16), |Dump(b, 16)|, p);
  }

  // ---- the ingress table ----

  const ZEROS: seq<nat> := seq(8, i => 0)

  function SetIn(t: seq<nat>, skbPrio: nat, vlanPrio: nat): (r: seq<nat>)
    requires |t| == 8
    ensures |r| == 8
  {
    t[vlanPrio % 8 := skbPrio]
  }

  function UsedIngress(t: seq<nat>, n: nat): nat
    requires n <= |t|
    decreases n, t
  {
    if n == 0 then 0 else UsedIngress(t, n - 1) + One(t[n - 1] != 0)
  }

  function DumpIn(t: seq<nat>, n: nat): seq<Pair>
    requires n <= |t|
    decreases n, t
  {
    if n == 0 then [] else DumpIn(t, n - 1) + if t[n - 1] == 0 then [] else [Pair(n - 1, t[n - 1])]
  }

  function ReplayIn(t: seq<nat>, es: seq<Pair>, n: nat): (r: seq<nat>)
    requires |t| == 8 && n <= |es|
    ensures |r| == 8
    decreases n, t
  {
    if n == 0 then t else SetIn(ReplayIn(t, es, n - 1), es[n - 1].dst, es[n - 1].src)
  }

  lemma {:induction false} UsedIngressUpdate(t: seq<nat>, n: nat, k: nat, x: nat)
    requires k < |t| && n <= |t|
    ensures UsedIngress(t[k := x], n) == UsedIngress(t, n) + if k < n then One(x != 0) - One(t[k] != 0) else 0
    decreases n
  {
    if n != 0 {
      UsedIngressUpdate(t, n - 1, k, x);
    }
  }

  lemma {:induction false} ReplayInPrefix(t: seq<nat>, a: seq<Pair>, c: seq<Pair>, n: nat)
    requires |t| == 8 && n <= |a|
    ensures ReplayIn(t, a + c, n) == ReplayIn(t, a, n)
    decreases n
  {
    if n != 0 {
      ReplayInPrefix(t, a, c, n - 1);
    }
  }

  lemma {:induction false} IngressSoFar(t: seq<nat>, n: nat, j: nat)
    requires |t| == 8 && n <= 8 && j < 8
    ensures var es := DumpIn(t, n);
            |es| == UsedIngress(t, n) && ReplayIn(ZEROS, es, |es|)[j] == if j < n then t[j] else 0
    decreases n
  {
    if n != 0 {
      IngressSoFar(t, n - 1, j);
      var a := DumpIn(t, n - 1);
      if t[n - 1] != 0 {
        ReplayInPrefix(ZEROS, a, [Pair(n - 1, t[n - 1])], |a|);
      } else {
        assert DumpIn(t, n) == a;
      }
    }
  }

  lemma {:induction false} IngressRoundTrip(t: seq<nat>)
    requires |t| == 8
    ensures var es := DumpIn(t, 8);
            ReplayIn(ZEROS, es, |es|) == t
  {
    forall j | 0 <= j < 8
      ensures var es := DumpIn(t, 8); ReplayIn(ZEROS, es, |es|)[j] == t[j]
    {
      IngressSoFar(t, 8, j);
    }
  }

  // ---- the tag ----

  /** On 16-bit words: an id and a shifted priority share no bit, so | is + and both can be read back. */
  lemma TagBits(id: bv16, q: bv16)
    requires id & 0xF000 == 0 && q & 0x1FFF == 0
    ensures (id | q) == id + q && (id | q) & 0xFFF == id && (id | q) >> 13 == q >> 13
  {
  }

  /** The tag control word, with the sum for the bitwise or (TagBits). */
  function Tci(id: nat, qos: nat): nat {
    id + qos
  }

  /** vlan_get_ingress_priority. */
  function Received(t: seq<nat>, tci: nat): nat
    requires |t| == 8
  {
    t[(tci / SHIFT) % 8]
  }

  /** A tag decodes to the id and the three priority bits it was made from. */
  lemma TagDecodes(id: nat, qos: nat)
    requires id < 4096 && Tag(qos)
    ensures Tci(id, qos) % 4096 == id && (Tci(id, qos) / SHIFT) % 8 == Unshifted(qos) && Tci(id, qos) < 0x1_0000
  {
    var v := qos / SHIFT;
    assert qos == v * SHIFT && v < 8;
    assert (v * SHIFT + id) / SHIFT == v;
  }

  /** From a packet's priority over sender's map, tag and receiver's table to the priority on arrival. */
  lemma {:induction false} EndToEnd(es: seq<Pair>, n: nat, p: nat, id: nat, t: seq<nat>)
    requires n <= |es| && id < 4096 && |t| == 8
    ensures var tci := Tci(id, Egress(Replay(EMPTY, es, n), p));
            var m := AsMap(es, n);
            tci % 4096 == id && Received(t, tci) == t[if p in m then Unshifted(m[p]) else 0]
  {
    EmptyGood();
    ReplayMeans(EMPTY, es, n, p);
    LikeMap(es, n, p);
    LookTag(Replay(EMPTY, es, n)[p % 16], p);
    TagDecodes(id, Egress(Replay(EMPTY, es, n), p));
  }

  // ---- the device ----

  datatype Message = Message(ingress: seq<Pair>, egress: seq<Pair>)

  /** The first node for p is the one at k. */
  predicate FirstAt(l: seq<Node>, k: nat, p: nat) {
    k < |l| && l[k].prio == p && forall j :: 0 <= j < k ==> l[j].prio != p
  }

  lemma {:induction false} OverAt(l: seq<Node>, k: nat, p: nat, q: nat)
    requires FirstAt(l, k, p)
    ensures Over(l, p, q) == l[k := Node(p, q)] && Look(l, p) == l[k].qos
    decreases k
  {
    if k == 0 {
      assert l[0 := Node(p, q)] == [Node(p, q)] + l[1..];
    } else {
      OverAt(l[1..], k - 1, p, q);
      assert l[k := Node(p, q)] == [l[0]] + l[1..][k - 1 := Node(p, q)];
    }
  }

  lemma {:induction false} PutAt(l: seq<Node>, k: nat, p: nat, q: nat)
    requires FirstAt(l, k, p)
    ensures Put(l, p, q) == l[k := Node(p, q)] && Look(l, p) == l[k].qos
  {
    OverAt(l, k, p, q);
  }

  lemma {:induction false} DumpOne(e: seq<Pair>, l: seq<Node>, j: nat)
    requires j < |l|
    ensures e + DumpChain(l[j..]) ==
            (if l[j].qos != 0 then e + [Pair(l[j].prio, Unshifted(l[j].qos))] else e) + DumpChain(l[j + 1..])
  {
    assert l[j..][0] == l[j] && l[j..][1..] == l[j + 1..];
    var a, d := [Pair(l[j].prio, Unshifted(l[j].qos))], DumpChain(l[j + 1..]);
    if l[j].qos != 0 {
      assert DumpChain(l[j..]) == a + d;
      assert e + (a + d) == (e + a) + d;
    }
  }

  class PrioMaps {
    var egress: seq<seq<Node>>
    var nrEgress: int
    var ingress: seq<nat>
    var nrIngress: int

    /** The counters say how many entries a message will hold. */
    ghost predicate Valid()
      reads this
    {
      && Good(egress) && nrEgress == UsedIn(egress, 16)
      && |ingress| == 8 && nrIngress == UsedIngress(ingress, 8)
    }

    constructor ()
      ensures Valid() && egress == EMPTY && ingress == ZEROS
    {
      egress, nrEgress := EMPTY, 0;
      ingress, nrIngress := ZEROS, 0;
      new;
      EmptyGood();
      LastDump(EMPTY, 16, 0);
      NoneUsed(16);
      NoneUsedIngress(8);
    }

    /** vlan_dev_get_egress_qos_mask. */
    method GetEgress(p: nat) returns (q: nat)
      requires Valid()
      ensures q == Egress(egress, p)
    {
      var l, i := egress[p % 16], 0;
      assert l[0..] == l;
      while i < |l|
        invariant 0 <= i <= |l| && Look(l, p) == Look(l[i..], p)
      {
        assert l[i..][1..] == l[i + 1..];
        if l[i].prio == p {
          return l[i].qos;
        }
        i := i + 1;
      }
      return 0;
    }

    /** vlan_dev_set_egress_priority. */
    method SetEgress(p: nat, vlanPrio: nat, memory: bool) returns (err: int)
      requires Valid()
      modifies this
      ensures Valid() && err == (if Has(old(egress)[p % 16], p) || memory then 0 else ENOBUFS)
      ensures egress == if err == 0 then Set(old(egress), p, vlanPrio) else old(egress)
      ensures ingress == old(ingress)
    {
      var q, k := Shifted(vlanPrio), p % 16;
      SetMeans(egress, p, vlanPrio, p);
      var l := egress[k];
      var i := Find(l, p);
      if i < |l| {
        PutAt(l, i, p, q);
        if l[i].qos != 0 && q == 0 {
          nrEgress := nrEgress - 1;
        } else if l[i].qos == 0 && q != 0 {
          nrEgress := nrEgress + 1;
        }
        egress := egress[k := l[i := Node(p, q)]];
        return 0;
      }
      LookHas(l, p);
      if !memory {
        return ENOBUFS;
      }
      egress := egress[k := [Node(p, q)] + l];
      if q != 0 {
        nrEgress := nrEgress + 1;
      }
      return 0;
    }

    /** Position of the node for p in a chain, or its length. */
    static method Find(l: seq<Node>, p: nat) returns (i: nat)
      ensures i <= |l| && (i < |l| <==> Has(l, p))
      ensures i < |l| ==> l[i].prio == p && forall j :: 0 <= j < i ==> l[j].prio != p
    {
      i := 0;
      while i < |l|
        invariant i <= |l| && forall j :: 0 <= j < i ==> l[j].prio != p
      {
        if l[i].prio == p {
          return;
        }
        i := i + 1;
      }
    }

    /** vlan_dev_set_ingress_priority. */
    method SetIngress(skbPrio: nat, vlanPrio: nat)
      requires Valid()
      modifies this
      ensures Valid() && ingress == SetIn(old(ingress), skbPrio, vlanPrio) && egress == old(egress)
    {
      var k := vlanPrio % 8;
      UsedIngressUpdate(ingress, 8, k, skbPrio);
      if ingress[k] != 0 && skbPrio == 0 {
        nrIngress := nrIngress - 1;
      } else if ingress[k] == 0 && skbPrio != 0 {
        nrIngress := nrIngress + 1;
      }
      ingress := ingress[k := skbPrio];
    }

    /** The mapping part of vlan_fill_info: as many entries as the counters say; a table is left out only if empty. */
    method FillInfo() returns (m: Message)
      requires Valid()
      ensures m == Message(DumpIn(ingress, 8), Dump(egress, 16))
      ensures |m.ingress| == nrIngress && |m.egress| == nrEgress
    {
      LastDump(egress, 16, 0);
      IngressSoFar(ingress, 8, 0);
      var a: seq<Pair>, e: seq<Pair> := [], [];
      if nrIngress != 0 {
        var i := 0;
        while i < 8
          invariant 0 <= i <= 8 && a == DumpIn(ingress, i)
        {
          if ingress[i] != 0 {
            a := a + [Pair(i, ingress[i])];
          }
          i := i + 1;
        }
      }
      if nrEgress != 0 {
        e := FillEgress();
      }
      m := Message(a, e);
    }

    method FillEgress() returns (e: seq<Pair>)
      requires Valid()
      ensures e == Dump(egress, 16)
    {
      e := [];
      var i := 0;
      while i < 16
        invariant 0 <= i <= 16 && e == Dump(egress, i)
      {
        var es := FillChain(egress[i]);
        e := e + es;
        i := i + 1;
      }
    }

    /** The inner loop: mappings to priority zero are skipped. */
    static method FillChain(l: seq<Node>) returns (e: seq<Pair>)
      ensures e == DumpChain(l)
    {
      e := [];
      var j := 0;
      assert l[0..] == l;
      while j < |l|
        invariant 0 <= j <= |l| && e + DumpChain(l[j..]) == DumpChain(l)
      {
        DumpOne(e, l, j);
        if l[j].qos != 0 {
          e := e + [Pair(l[j].prio, Unshifted(l[j].qos))];
        }
        j := j + 1;
      }
    }

    /** The mapping part of vlan_changelink, which ignores failures. */
    method ChangeLink(m: Message, memory: seq<bool>)
      requires Valid() && |memory| == |m.egress|
      modifies this
      ensures Valid()
      ensures ingress == ReplayIn(old(ingress), m.ingress, |m.ingress|)
      ensures egress == ReplayTry(old(egress), m.egress, memory, |m.egress|)
    {
      var i := 0;
      while i < |m.ingress|
        invariant 0 <= i <= |m.ingress| && Valid() && egress == old(egress)
        invariant ingress == ReplayIn(old(ingress), m.ingress, i)
      {
        SetIngress(m.ingress[i].dst, m.ingress[i].src);
        i := i + 1;
      }
      i := 0;
      while i < |m.egress|
        invariant 0 <= i <= |m.egress| && Valid() && ingress == ReplayIn(old(ingress), m.ingress, |m.ingress|)
        invariant egress == ReplayTry(old(egress), m.egress, memory, i)
      {
        var _ := SetEgress(m.egress[i].src, m.egress[i].dst, memory[i]);
        i := i + 1;
      }
    }

    /** A device set up from another's message, with memory for every node, maps every packet as the other does. */
    method Clone() returns (other: PrioMaps)
      requires Valid()
      ensures fresh(other) && other.Valid() && other.ingress == ingress
      ensures forall p: nat :: Egress(other.egress, p) == Egress(egress, p)
    {
      var m := FillInfo();
      other := new PrioMaps();
      var memory := seq(|m.egress|, i => true);
      other.ChangeLink(m, memory);
      ReplayAll(EMPTY, m.egress, memory, |m.egress|);
      IngressRoundTrip(ingress);
      forall p: nat ensures Egress(other.egress, p) == Egress(egress, p) {
        EgressRoundTrip(egress, p);
      }
    }
  }

  lemma {:induction false} NoneUsed(n: nat)
    requires n <= 16
    ensures UsedIn(EMPTY, n) == 0
  {
    if n != 0 {
      NoneUsed(n - 1);
    }
  }

  lemma {:induction false} NoneUsedIngress(n: nat)
    requires n <= 8
    ensures UsedIngress(ZEROS, n) == 0
  {
    if n != 0 {
      NoneUsedIngress(n - 1);
    }
  }
}

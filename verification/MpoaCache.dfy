/**
 * The ingress cache of an MPOA client: a doubly linked list of reference-counted entries
 * (net/atm/mpoa_caches.c) and the handlers that use it (net/atm/mpc.c). Entries live in a memory
 * of their own: a pointer may be followed only while what it points to has not been freed.
 */
module MpoaCache {
  import opened Common

  type Ip = bv32
  type Ptr = nat
  const NULL: Ptr := 0

  datatype State = Invalid | Resolving | Resolved | Refreshing

  /** What an entry says; shortcut 0 means no circuit. */
  datatype Info = Info(dst: Ip, state: State, shortcut: nat, count: nat, seen: int, holding: nat, tag: nat,
                       forwarded: nat,
                       asked: int,    // reply_wait
                       refresh: nat)  // refresh_time

  datatype Entry = Entry(next: Ptr, prev: Ptr, use: int, info: Info)

  type Memory = map<Ptr, Entry>

  datatype Query = ByIp(ip: Ip) | ByMask(ip: Ip, mask: Ip) | ByVcc(vcc: nat) | Expired(now: int)

  /** The tests of in_cache_get, in_cache_get_with_mask, in_cache_get_by_vcc and clear_count_and_expired. */
  predicate Hit(q: Query, i: Info) {
    match q
    case ByIp(ip) => i.dst == ip
    case ByMask(ip, mask) => i.dst & mask == ip & mask
    case ByVcc(vcc) => i.shortcut == vcc
    case Expired(now) => now - i.seen > i.holding
  }

  /** What in_cache_add_entry writes. */
  function New(dst: Ip, now: int, holding: nat): Info {
    Info(dst, Invalid, 0, 1, now, holding, 0, 0, 0, 0)
  }

  // ---- lists in memory ----

  ghost predicate Distinct(sp: seq<Ptr>) {
    forall i, j :: 0 <= i < j < |sp| ==> sp[i] != sp[j]
  }

  ghost predicate Known(mem: Memory, sp: seq<Ptr>) {
    NULL !in mem && forall i :: 0 <= i < |sp| ==> sp[i] in mem
  }

  /** The pointers from head on run through sp and back. */
  ghost predicate Linked(head: Ptr, mem: Memory, sp: seq<Ptr>)
    requires Known(mem, sp)
  {
    && head == (if sp == [] then NULL else sp[0])
    && (sp != [] ==> mem[sp[0]].prev == NULL && mem[sp[|sp| - 1]].next == NULL)
    && forall i, j :: 0 <= i && i + 1 == j < |sp| ==> mem[sp[i]].next == sp[j] && mem[sp[j]].prev == sp[i]
  }

  /** One reference for the list, one for every handle given out; what has none is not there. */
  ghost predicate Counted(mem: Memory, sp: seq<Ptr>, handles: multiset<Ptr>) {
    && (forall p :: p in mem ==> mem[p].use == handles[p] + if p in sp then 1 else 0)
    && (forall p :: p in mem ==> mem[p].use > 0)
    && (forall p :: p in handles ==> p in mem)
  }

  ghost predicate Sound(head: Ptr, mem: Memory, sp: seq<Ptr>, handles: multiset<Ptr>) {
    Known(mem, sp) && Distinct(sp) && Linked(head, mem, sp) && Counted(mem, sp, handles)
  }

  // ---- one count up or down ----

  function Inc(mem: Memory, p: Ptr): Memory
    requires p in mem
  {
    mem[p := mem[p].(use := mem[p].use + 1)]
  }

  /** atomic_dec_and_test and the release of what is no longer used. */
  function Dec(mem: Memory, p: Ptr): Memory
    requires p in mem
  {
    if mem[p].use == 1 then mem - {p} else mem[p := mem[p].(use := mem[p].use - 1)]
  }

  lemma {:induction false} IncSound(head: Ptr, mem: Memory, sp: seq<Ptr>, handles: multiset<Ptr>, p: Ptr)
    requires Sound(head, mem, sp, handles) && p in mem
    ensures Sound(head, Inc(mem, p), sp, handles + multiset{p})
  {
  }

  lemma {:induction false} DecSound(head: Ptr, mem: Memory, sp: seq<Ptr>, handles: multiset<Ptr>, p: Ptr)
    requires Sound(head, mem, sp, handles) && p in handles
    ensures Sound(head, Dec(mem, p), sp, handles - multiset{p})
    ensures p in Dec(mem, p) <==> p in sp || p in handles - multiset{p}
  {
  }

  // ---- taking an entry out ----

  function Unlinked(mem: Memory, p: Ptr): Memory
    requires p in mem
  {
    var e := mem[p];
    var m := if e.prev in mem then mem[e.prev := mem[e.prev].(next := e.next)] else mem;
    if e.next in m then m[e.next := m[e.next].(prev := e.prev)] else m
  }

  function NewHead(head: Ptr, e: Entry): Ptr {
    if e.prev != NULL then head else e.next
  }

  /** Where an entry of a list points. */
  lemma {:induction false} Neighbours(head: Ptr, mem: Memory, sp: seq<Ptr>, k: nat)
    requires Known(mem, sp) && Linked(head, mem, sp) && k < |sp|
    ensures mem[sp[k]].prev == (if k == 0 then NULL else sp[k - 1])
    ensures mem[sp[k]].next == (if k == |sp| - 1 then NULL else sp[k + 1])
  {
    if k > 0 {
      assert mem[sp[k - 1]].next == sp[k];
    }
    if k < |sp| - 1 {
      assert mem[sp[k + 1]].prev == sp[k];
    }
  }

  /** Entry k of a list knows its two neighbours. */
  ghost predicate Chained(mem: Memory, sp: seq<Ptr>, k: nat)
    requires Known(mem, sp) && k < |sp|
  {
    && mem[sp[k]].prev == (if k == 0 then NULL else sp[k - 1])
    && mem[sp[k]].next == (if k == |sp| - 1 then NULL else sp[k + 1])
  }

  lemma {:induction false} ChainedLinked(head: Ptr, mem: Memory, sp: seq<Ptr>)
    requires Known(mem, sp) && head == (if sp == [] then NULL else sp[0])
    requires forall k :: 0 <= k < |sp| ==> Chained(mem, sp, k)
    ensures Linked(head, mem, sp)
  {
    if sp != [] {
      assert Chained(mem, sp, 0) && Chained(mem, sp, |sp| - 1);
    }
    forall i, j | 0 <= i && i + 1 == j < |sp|
      ensures mem[sp[i]].next == sp[j] && mem[sp[j]].prev == sp[i]
    {
      assert Chained(mem, sp, i) && Chained(mem, sp, j);
    }
  }

  lemma {:induction false} DropDistinct(sp: seq<Ptr>, k: nat)
    requires Distinct(sp) && k < |sp|
    ensures Distinct(sp[..k] + sp[k + 1..])
  {
    var t := sp[..k] + sp[k + 1..];
    assert forall i :: 0 <= i < |t| ==> t[i] == if i < k then sp[i] else sp[i + 1];
  }

  lemma {:induction false} UnlinkedAt(head: Ptr, mem: Memory, sp: seq<Ptr>, k: nat, i: nat)
    requires Known(mem, sp) && Distinct(sp) && Linked(head, mem, sp) && k < |sp| && i < |sp| && i != k
    ensures var m := Unlinked(mem, sp[k]);
            && m.Keys == mem.Keys
            && m[sp[i]].next == (if i == k - 1 then mem[sp[k]].next else mem[sp[i]].next)
            && m[sp[i]].prev == (if i == k + 1 then mem[sp[k]].prev else mem[sp[i]].prev)
            && m[sp[i]].use == mem[sp[i]].use && m[sp[i]].info == mem[sp[i]].info
  {
    Neighbours(head, mem, sp, k);
  }

  lemma {:induction false} UnlinkedChained(head: Ptr, mem: Memory, sp: seq<Ptr>, k: nat, i: nat)
    requires Known(mem, sp) && Distinct(sp) && Linked(head, mem, sp) && k < |sp| && i < |sp| - 1
    requires Known(Unlinked(mem, sp[k]), sp[..k] + sp[k + 1..])
    ensures Chained(Unlinked(mem, sp[k]), sp[..k] + sp[k + 1..], i)
  {
    var j := if i < k then i else i + 1;
    UnlinkedAt(head, mem, sp, k, j);
    Neighbours(head, mem, sp, k);
    Neighbours(head, mem, sp, j);
    hide Unlinked, Linked, Distinct;
  }

  lemma {:induction false} UnlinkedLinked(head: Ptr, mem: Memory, sp: seq<Ptr>, k: nat)
    requires Known(mem, sp) && Distinct(sp) && Linked(head, mem, sp) && k < |sp|
    ensures var t := sp[..k] + sp[k + 1..];
            var m := Unlinked(mem, sp[k]);
            Known(m, t) && Distinct(t) && Linked(NewHead(head, mem[sp[k]]), m, t)
  {
    var t := sp[..k] + sp[k + 1..];
    var m := Unlinked(mem, sp[k]);
    SameButLinks(mem, sp[k]);
    DropDistinct(sp, k);
    Neighbours(head, mem, sp, k);
    assert head == sp[0];
    hide Unlinked, Linked, Distinct, Chained;
    forall i | 0 <= i < |t|
      ensures Chained(m, t, i)
    {
      UnlinkedChained(head, mem, sp, k, i);
    }
    ChainedLinked(NewHead(head, mem[sp[k]]), m, t);
  }

  /** Off the list, an entry's list reference is one more handle: the one in_cache_remove_entry puts. */
  lemma {:induction false} UnlinkedSound(head: Ptr, mem: Memory, sp: seq<Ptr>, handles: multiset<Ptr>, k: nat)
    requires Sound(head, mem, sp, handles) && k < |sp|
    ensures Sound(NewHead(head, mem[sp[k]]), Unlinked(mem, sp[k]), sp[..k] + sp[k + 1..], handles + multiset{sp[k]})
  {
    var t, m, h := sp[..k] + sp[k + 1..], Unlinked(mem, sp[k]), handles + multiset{sp[k]};
    UnlinkedLinked(head, mem, sp, k);
    SameButLinks(mem, sp[k]);
    forall p | p in m
      ensures m[p].use == h[p] + if p in t then 1 else 0
    {
      DropIn(sp, k, p);
    }
  }

  lemma {:induction false} DetachSound(head: Ptr, mem: Memory, sp: seq<Ptr>, handles: multiset<Ptr>, k: nat)
    requires Sound(head, mem, sp, handles) && k < |sp|
    ensures var p, t := sp[k], sp[..k] + sp[k + 1..];
            && p in Unlinked(mem, p)
            && Sound(NewHead(head, mem[p]), Dec(Unlinked(mem, p), p), t, handles)
            && (p in Dec(Unlinked(mem, p), p) <==> p in handles)
  {
    var p, t := sp[k], sp[..k] + sp[k + 1..];
    UnlinkedSound(head, mem, sp, handles, k);
    DecSound(NewHead(head, mem[p]), Unlinked(mem, p), t, handles + multiset{p}, p);
    assert handles + multiset{p} - multiset{p} == handles;
    DropIn(sp, k, p);
  }

  /** Removal frees at most the entry itself and leaves what the others say. */
  lemma {:induction false} DetachShrinks(mem: Memory, p: Ptr)
    requires p in mem
    ensures p in Unlinked(mem, p) && Shrunk(mem, Dec(Unlinked(mem, p), p))
    ensures forall x :: x in mem && x != p ==> x in Dec(Unlinked(mem, p), p)
  {
    SameButLinks(mem, p);
  }

  lemma SameButLinks(mem: Memory, p: Ptr)
    requires p in mem
    ensures var m := Unlinked(mem, p);
            m.Keys == mem.Keys && forall q :: q in m ==> m[q].use == mem[q].use && m[q].info == mem[q].info
  {
  }

  lemma {:induction false} DropIn(sp: seq<Ptr>, k: nat, p: Ptr)
    requires Distinct(sp) && k < |sp|
    ensures p in sp[..k] + sp[k + 1..] <==> p in sp && p != sp[k]
  {
    var t := sp[..k] + sp[k + 1..];
    if p in sp && p != sp[k] {
      var i :| 0 <= i < |sp| && sp[i] == p;
      assert t[if i < k then i else i - 1] == p;
    }
  }

  // ---- putting an entry in front ----

  function Fronted(head: Ptr, mem: Memory, p: Ptr, i: Info): Memory {
    var m := if head in mem then mem[head := mem[head].(prev := p)] else mem;
    m[p := Entry(head, NULL, 2, i)]
  }

  lemma FrontedInfo(head: Ptr, mem: Memory, p: Ptr, i: Info)
    requires p !in mem
    ensures Fronted(head, mem, p, i)[p].info == i && Grown(mem, Fronted(head, mem, p, i))
  {
  }

  lemma {:induction false} FrontedSound(head: Ptr, mem: Memory, sp: seq<Ptr>, handles: multiset<Ptr>, p: Ptr, i: Info)
    requires Sound(head, mem, sp, handles) && p !in mem && p != NULL
    ensures Sound(p, Fronted(head, mem, p, i), [p] + sp, handles + multiset{p})
  {
    FrontedLinked(head, mem, sp, p, i);
    hide Linked;
    assert forall q :: q in [p] + sp <==> q == p || q in sp;
  }

  lemma {:induction false} FrontedLinked(head: Ptr, mem: Memory, sp: seq<Ptr>, p: Ptr, i: Info)
    requires Known(mem, sp) && Distinct(sp) && Linked(head, mem, sp) && p !in mem && p != NULL
    ensures var m, t := Fronted(head, mem, p, i), [p] + sp;
            Known(m, t) && Distinct(t) && Linked(p, m, t)
  {
    var m, t := Fronted(head, mem, p, i), [p] + sp;
    assert forall k :: 0 < k < |t| ==> t[k] == sp[k - 1];
    forall k | 0 <= k < |t|
      ensures Chained(m, t, k)
    {
      if k > 0 {
        Neighbours(head, mem, sp, k - 1);
      }
    }
    hide Linked, Chained;
    ChainedLinked(p, m, t);
  }

  // ---- searching and filtering ----

  /** The first match at or after position i, or the length. */
  ghost function First(mem: Memory, sp: seq<Ptr>, q: Query, i: nat): (k: nat)
    requires Known(mem, sp) && i <= |sp|
    ensures i <= k <= |sp| && (k < |sp| ==> Hit(q, mem[sp[k]].info))
    ensures forall j :: i <= j < k ==> !Hit(q, mem[sp[j]].info)
    decreases |sp| - i
  {
    if i == |sp| || Hit(q, mem[sp[i]].info) then i else First(mem, sp, q, i + 1)
  }

  /** Those of the first n entries that do not match, in order. */
  ghost function Kept(mem: Memory, sp: seq<Ptr>, n: nat, q: Query): seq<Ptr>
    requires Known(mem, sp) && n <= |sp|
    decreases n, sp
  {
    if n == 0 then [] else Kept(mem, sp, n - 1, q) + if Hit(q, mem[sp[n - 1]].info) then [] else [sp[n - 1]]
  }

  /** Entries may have gone; those left say what they said. */
  ghost predicate Shrunk(mem: Memory, m: Memory) {
    forall p :: p in m ==> p in mem && m[p].info == mem[p].info
  }

  /** Every entry is still there and says what it said. */
  ghost predicate Grown(mem: Memory, m: Memory) {
    forall p :: p in mem ==> p in m && m[p].info == mem[p].info
  }

  lemma {:induction false} KeptSame(mem: Memory, m: Memory, sp: seq<Ptr>, n: nat, q: Query)
    requires Known(mem, sp) && Known(m, sp) && n <= |sp| && Shrunk(mem, m)
    ensures Kept(m, sp, n, q) == Kept(mem, sp, n, q)
    decreases n
  {
    if n != 0 {
      KeptSame(mem, m, sp, n - 1, q);
    }
  }

  /** t is sp without its entry k. */
  ghost predicate Without(sp: seq<Ptr>, k: nat, t: seq<Ptr>) {
    && k < |sp| && |t| == |sp| - 1
    && (forall i :: 0 <= i < k ==> t[i] == sp[i])
    && (forall i :: k <= i < |t| ==> t[i] == sp[i + 1])
  }

  lemma {:induction false} KeptBefore(mem: Memory, sp: seq<Ptr>, k: nat, t: seq<Ptr>, n: nat, q: Query)
    requires Without(sp, k, t) && Known(mem, sp) && Known(mem, t) && n <= k
    ensures Kept(mem, t, n, q) == Kept(mem, sp, n, q)
    decreases n
  {
    if n != 0 {
      KeptBefore(mem, sp, k, t, n - 1, q);
      assert t[n - 1] == sp[n - 1];
    }
  }

  lemma {:induction false} KeptDrop(mem: Memory, sp: seq<Ptr>, k: nat, t: seq<Ptr>, n: nat, q: Query)
    requires Without(sp, k, t) && Known(mem, sp) && Known(mem, t) && k <= n <= |t| && Hit(q, mem[sp[k]].info)
    ensures Kept(mem, t, n, q) == Kept(mem, sp, n + 1, q)
    decreases n
  {
    if n == k {
      KeptBefore(mem, sp, k, t, n, q);
      assert Kept(mem, sp, n, q) + [] == Kept(mem, sp, n, q);
    } else {
      KeptDrop(mem, sp, k, t, n - 1, q);
      assert t[n - 1] == sp[n];
    }
  }

  lemma {:induction false} KeptAll(mem: Memory, sp: seq<Ptr>, n: nat, q: Query)
    requires Known(mem, sp) && n <= |sp| && forall j :: 0 <= j < n ==> !Hit(q, mem[sp[j]].info)
    ensures Kept(mem, sp, n, q) == sp[..n]
    decreases n
  {
    if n != 0 {
      KeptAll(mem, sp, n - 1, q);
      assert sp[..n] == sp[..n - 1] + [sp[n - 1]];
    }
  }

  /** No two entries of the list are for the same destination. */
  ghost predicate OnePerDst(mem: Memory, sp: seq<Ptr>)
    requires Known(mem, sp)
  {
    forall i, j :: 0 <= i < j < |sp| ==> mem[sp[i]].info.dst != mem[sp[j]].info.dst
  }

  lemma {:induction false} OneSame(mem: Memory, m: Memory, sp: seq<Ptr>)
    requires Known(mem, sp) && Known(m, sp) && OnePerDst(mem, sp)
    requires forall i :: 0 <= i < |sp| ==> m[sp[i]].info.dst == mem[sp[i]].info.dst
    ensures OnePerDst(m, sp)
  {
  }

  lemma {:induction false} OneDrop(mem: Memory, m: Memory, sp: seq<Ptr>, k: nat, t: seq<Ptr>)
    requires Without(sp, k, t) && Known(mem, sp) && Known(m, t) && OnePerDst(mem, sp) && Shrunk(mem, m)
    ensures OnePerDst(m, t)
  {
    forall i, j | 0 <= i < j < |t|
      ensures m[t[i]].info.dst != m[t[j]].info.dst
    {
      var i', j' := if i < k then i else i + 1, if j < k then j else j + 1;
      assert t[i] == sp[i'] && t[j] == sp[j'];
    }
  }

  lemma {:induction false} OneFront(head: Ptr, mem: Memory, sp: seq<Ptr>, p: Ptr, i: Info)
    requires Known(mem, sp) && OnePerDst(mem, sp) && p !in mem && p != NULL && First(mem, sp, ByIp(i.dst), 0) == |sp|
    ensures Known(Fronted(head, mem, p, i), [p] + sp) && OnePerDst(Fronted(head, mem, p, i), [p] + sp)
  {
    var m, t := Fronted(head, mem, p, i), [p] + sp;
    assert forall k :: 0 < k < |t| ==> t[k] == sp[k - 1];
    forall k | 0 <= k < |sp| ensures m[sp[k]].info == mem[sp[k]].info {
    }
  }

  // ---- what an entry says ----

  function Edit(mem: Memory, p: Ptr, i: Info): Memory
    requires p in mem
  {
    mem[p := mem[p].(info := i)]
  }

  lemma {:induction false} EditSound(head: Ptr, mem: Memory, sp: seq<Ptr>, handles: multiset<Ptr>, p: Ptr, i: Info)
    requires Sound(head, mem, sp, handles) && p in mem
    ensures Sound(head, Edit(mem, p, i), sp, handles)
  {
  }

  /** A handle taken and given back leaves nothing but the edit made meanwhile. */
  lemma {:induction false} Returned(mem: Memory, p: Ptr, i: Info)
    requires p in mem && mem[p].use > 0
    ensures p in Inc(mem, p) && p in Edit(Inc(mem, p), p, i) && Dec(Edit(Inc(mem, p), p, i), p) == Edit(mem, p, i)
    ensures Dec(Inc(mem, p), p) == mem && Edit(mem, p, mem[p].info) == mem
  {
  }

  /** A new entry after its creator has put its handle: linked, with the list's reference alone. */
  function Joined(head: Ptr, mem: Memory, p: Ptr, i: Info): Memory {
    Dec(Fronted(head, mem, p, i), p)
  }

  lemma {:induction false} JoinedSound(head: Ptr, mem: Memory, sp: seq<Ptr>, handles: multiset<Ptr>, p: Ptr, i: Info)
    requires Sound(head, mem, sp, handles) && OnePerDst(mem, sp) && p !in mem && p != NULL
    requires First(mem, sp, ByIp(i.dst), 0) == |sp|
    ensures Sound(p, Joined(head, mem, p, i), [p] + sp, handles) && OnePerDst(Joined(head, mem, p, i), [p] + sp)
  {
    hide Linked, Distinct;
    var m, t := Fronted(head, mem, p, i), [p] + sp;
    FrontedSound(head, mem, sp, handles, p, i);
    OneFront(head, mem, sp, p, i);
    DecSound(p, m, t, handles + multiset{p}, p);
    assert handles + multiset{p} - multiset{p} == handles;
    OneSame(m, Dec(m, p), t);
  }

  /** A packet finds the circuit of an entry usable. */
  predicate Opens(i: Info) {
    i.shortcut != 0 && i.state != Invalid
  }

  /** The packet takes the count over the limit of an entry that may ask. */
  predicate Asks(i: Info, limit: nat) {
    i.count + 1 > limit && (i.state == Refreshing || i.state == Invalid)
  }

  function Touched(i: Info, limit: nat, now: int): Info {
    var j := i.(count := i.count + 1);
    if Asks(i, limit) then j.(state := Resolving, asked := now) else j
  }

  /** An entry after a packet has come by, with a given ttl. */
  function Routed(i: Info, limit: nat, ttl: nat, now: int): Info {
    var j := Touched(i, limit, now);
    if Opens(i) && ttl > 1 then j.(forwarded := j.forwarded + 1) else j
  }

  /** An entry after the daemon has been asked about it. */
  function Requested(i: Info, now: int): Info {
    i.(state := Resolving, asked := now)
  }

  /** An entry after refresh_entries: two thirds of its holding time after the last answer it is due again. */
  function Aged(i: Info, now: int): Info {
    var j := i.(refresh := if i.refresh == 0 then 2 * i.holding / 3 else i.refresh);
    if i.state != Resolved then i
    else if now - i.asked > j.refresh then j.(state := Refreshing)
    else j
  }

  /** An entry after the daemon's answer, with the circuit the egress side offers (0: none). */
  function Replied(i: Info, holding: nat, tag: nat, now: int, offer: nat): Info {
    var j := i.(holding := holding, tag := tag, seen := now, asked := now, refresh := 0);
    if i.state == Resolved then i
    else if i.shortcut == 0 then j.(shortcut := offer, state := Resolved)
    else if i.state == Resolving then j.(state := Resolved)
    else j
  }

  // ---- the client as a whole ----

  /** What the client asks for: the daemon to stop keep-alives, to resolve or to open a circuit; a circuit to close. */
  datatype Notice = StopKeepAlive | Release(vcc: nat) | Resolve(dst: Ip) | OpenSvc(dst: Ip)

  /** The egress side: whether its cache is empty, and the circuits it uses. */
  datatype Egress = Egress(idle: bool, vccs: set<nat>)

  /** All of the cache, with the list and the outstanding handles spelled out. */
  datatype Whole = Whole(head: Ptr, mem: Memory, log: seq<Notice>, sp: seq<Ptr>, handles: multiset<Ptr>)

  const EMPTY := Whole(NULL, map[], [], [], multiset{})

  ghost predicate Valid(w: Whole) {
    Sound(w.head, w.mem, w.sp, w.handles)
  }

  /** Between handlers there is also at most one entry per destination. */
  ghost predicate Steady(w: Whole) {
    Valid(w) && OnePerDst(w.mem, w.sp)
  }

  function Take(w: Whole, p: Ptr): Whole
    requires p in w.mem
  {
    w.(mem := Inc(w.mem, p), handles := w.handles + multiset{p})
  }

  function Give(w: Whole, p: Ptr): Whole
    requires p in w.mem
  {
    w.(mem := Dec(w.mem, p), handles := w.handles - multiset{p})
  }

  function Notices(last: bool, vcc: nat, eg: Egress): seq<Notice> {
    (if last && eg.idle then [StopKeepAlive] else []) + if vcc != 0 && vcc !in eg.vccs then [Release(vcc)] else []
  }

  /** in_cache_remove_entry for entry k of the list. */
  function Removed(w: Whole, k: nat, eg: Egress): Whole
    requires k < |w.sp| && w.sp[k] in w.mem
  {
    var p, t := w.sp[k], w.sp[..k] + w.sp[k + 1..];
    Whole(NewHead(w.head, w.mem[p]), Dec(Unlinked(w.mem, p), p),
          w.log + Notices(t == [], w.mem[p].info.shortcut, eg), t, w.handles)
  }

  lemma {:induction false} RemovedValid(w: Whole, k: nat, eg: Egress)
    requires Valid(w) && k < |w.sp|
    ensures Valid(Removed(w, k, eg))
  {
    DetachSound(w.head, w.mem, w.sp, w.handles, k);
  }

  lemma {:induction false} RemovedShape(w: Whole, k: nat, eg: Egress)
    requires k < |w.sp| && w.sp[k] in w.mem
    ensures Shrunk(w.mem, Removed(w, k, eg).mem) && Without(w.sp, k, Removed(w, k, eg).sp)
  {
    DetachShrinks(w.mem, w.sp[k]);
  }

  lemma {:induction false} RemovedSteady(w: Whole, k: nat, eg: Egress)
    requires Steady(w) && k < |w.sp|
    ensures Steady(Removed(w, k, eg))
  {
    RemovedValid(w, k, eg);
    RemovedShape(w, k, eg);
    OneDrop(w.mem, Removed(w, k, eg).mem, w.sp, k, Removed(w, k, eg).sp);
  }

  lemma {:induction false} EditSteady(w: Whole, p: Ptr, i: Info)
    requires Steady(w) && p in w.mem && i.dst == w.mem[p].info.dst
    ensures Steady(w.(mem := Edit(w.mem, p, i)))
  {
    EditSound(w.head, w.mem, w.sp, w.handles, p, i);
    OneSame(w.mem, Edit(w.mem, p, i), w.sp);
  }

  /** A new entry in front, its creator's handle already put. */
  function Newcomer(w: Whole, p: Ptr, i: Info): Whole {
    w.(head := p, mem := Joined(w.head, w.mem, p, i), sp := [p] + w.sp)
  }

  // ---- the handlers ----

  /** send_via_shortcut. */
  ghost function Sent(w: Whole, ip: Ip, ttl: nat, limit: nat, now: int, holding: nat, room: Ptr): Whole
    requires Known(w.mem, w.sp)
  {
    var k := First(w.mem, w.sp, ByIp(ip), 0);
    if k < |w.sp| then
      var i := w.mem[w.sp[k]].info;
      w.(mem := Edit(w.mem, w.sp[k], Routed(i, limit, ttl, now)),
         log := if Asks(i, limit) then w.log + [Resolve(i.dst)] else w.log)
    else if room == NULL then w
    else Newcomer(w, room, New(ip, now, holding))
  }

  /** MPOA_trigger_rcvd; without memory for a new entry it faults before it has changed anything. */
  ghost function Triggered(w: Whole, ip: Ip, now: int, holding: nat, room: Ptr): Whole
    requires Known(w.mem, w.sp)
  {
    var k := First(w.mem, w.sp, ByIp(ip), 0);
    if k == |w.sp| && room == NULL then w
    else if k == |w.sp| then
      Newcomer(w, room, Requested(New(ip, now, holding), now)).(log := w.log + [Resolve(ip)])
    else
      var i := w.mem[w.sp[k]].info;
      if i.state == Invalid then w.(mem := Edit(w.mem, w.sp[k], Requested(i, now)), log := w.log + [Resolve(ip)])
      else w
  }

  /** MPOA_res_reply_rcvd. */
  ghost function Answered(w: Whole, ip: Ip, holding: nat, tag: nat, now: int, offer: nat): Whole
    requires Known(w.mem, w.sp)
  {
    var k := First(w.mem, w.sp, ByIp(ip), 0);
    if k == |w.sp| then w
    else
      var i := w.mem[w.sp[k]].info;
      w.(mem := Edit(w.mem, w.sp[k], Replied(i, holding, tag, now, offer)),
         log := if i.state != Resolved && i.shortcut == 0 && offer == 0 then w.log + [OpenSvc(ip)] else w.log)
  }

  /** mpc_vcc_close, ingress side: the first entry over the circuit loses it. */
  ghost function VccClosed(w: Whole, vcc: nat): Whole
    requires Known(w.mem, w.sp)
  {
    var k := First(w.mem, w.sp, ByVcc(vcc), 0);
    if k == |w.sp| then w else w.(mem := Edit(w.mem, w.sp[k], w.mem[w.sp[k]].info.(shortcut := 0)))
  }

  /** The ingress part of atm_mpoa_vcc_attach: an entry that has been resolved gets the circuit. */
  ghost function Attached(w: Whole, ip: Ip, vcc: nat): Whole
    requires Known(w.mem, w.sp)
  {
    var k := First(w.mem, w.sp, ByIp(ip), 0);
    if k == |w.sp| || !Settled(w.mem[w.sp[k]].info) then w
    else w.(mem := Edit(w.mem, w.sp[k], w.mem[w.sp[k]].info.(shortcut := vcc)))
  }

  /** entry_state >= INGRESS_RESOLVED. */
  predicate Settled(i: Info) {
    i.state == Resolved || i.state == Refreshing
  }

  /** refresh_entries from entry i on. */
  ghost function Refreshed(w: Whole, now: int, i: nat): Whole
    requires Valid(w) && i <= |w.sp|
    decreases |w.sp| - i
  {
    if i == |w.sp| then w
    else
      var p := w.sp[i];
      EditSound(w.head, w.mem, w.sp, w.handles, p, Aged(w.mem[p].info, now));
      Refreshed(w.(mem := Edit(w.mem, p, Aged(w.mem[p].info, now))), now, i + 1)
  }

  /** ingress_purge_rcvd: the first match is removed until there is none. */
  ghost function Purged(w: Whole, q: Query, eg: Egress): Whole
    requires Valid(w)
    decreases |w.sp|
  {
    var k := First(w.mem, w.sp, q, 0);
    if k == |w.sp| then w
    else
      RemovedValid(w, k, eg);
      Purged(Removed(w, k, eg), q, eg)
  }

  /** clear_count_and_expired from entry i on. */
  ghost function Cleared(w: Whole, now: int, i: nat, eg: Egress): Whole
    requires Valid(w) && i <= |w.sp|
    decreases |w.sp| - i
  {
    if i == |w.sp| then w
    else
      var v := Zeroed(w, i);
      EditSound(w.head, w.mem, w.sp, w.handles, w.sp[i], w.mem[w.sp[i]].info.(count := 0));
      if Hit(Expired(now), w.mem[w.sp[i]].info) then
        RemovedValid(v, i, eg);
        Cleared(Removed(v, i, eg), now, i, eg)
      else Cleared(v, now, i + 1, eg)
  }

  function Zeroed(w: Whole, i: nat): Whole
    requires i < |w.sp| && w.sp[i] in w.mem
  {
    w.(mem := Edit(w.mem, w.sp[i], w.mem[w.sp[i]].info.(count := 0)))
  }

  /** in_destroy_cache. */
  ghost function Destroyed(w: Whole, eg: Egress): Whole
    requires Valid(w)
    decreases |w.sp|
  {
    if w.sp == [] then w
    else
      RemovedValid(w, 0, eg);
      Destroyed(Removed(w, 0, eg), eg)
  }

  // ---- what they achieve ----

  /** A purge removes exactly the entries that match under the mask, and keeps the rest in order and as they were. */
  lemma {:induction false} PurgeExact(w: Whole, q: Query, eg: Egress)
    requires Valid(w)
    ensures var u := Purged(w, q, eg);
            Valid(u) && u.sp == Kept(w.mem, w.sp, |w.sp|, q) && Shrunk(w.mem, u.mem) && u.handles == w.handles
    decreases |w.sp|
  {
    var k := First(w.mem, w.sp, q, 0);
    if k == |w.sp| {
      KeptAll(w.mem, w.sp, |w.sp|, q);
    } else {
      KeptRemoved(w, k, q, eg);
      PurgeExact(Removed(w, k, eg), q, eg);
    }
  }

  /** Removing an entry that matches changes nothing about what is to be kept. */
  lemma {:induction false} KeptRemoved(w: Whole, k: nat, q: Query, eg: Egress)
    requires Valid(w) && k < |w.sp| && Hit(q, w.mem[w.sp[k]].info)
    ensures var v := Removed(w, k, eg);
            Valid(v) && Shrunk(w.mem, v.mem) && Kept(v.mem, v.sp, |v.sp|, q) == Kept(w.mem, w.sp, |w.sp|, q)
  {
    hide Linked, Distinct, Counted, Unlinked, Dec, Hit;
    var v := Removed(w, k, eg);
    RemovedValid(w, k, eg);
    RemovedShape(w, k, eg);
    KnownDrop(w.mem, w.sp, k, v.sp);
    KeptDrop(w.mem, w.sp, k, v.sp, |v.sp|, q);
    KeptSame(w.mem, v.mem, v.sp, |v.sp|, q);
  }

  lemma KnownDrop(mem: Memory, sp: seq<Ptr>, k: nat, t: seq<Ptr>)
    requires Known(mem, sp) && Without(sp, k, t)
    ensures Known(mem, t)
  {
  }

  lemma {:induction false} PurgeSteady(w: Whole, q: Query, eg: Egress)
    requires Steady(w)
    ensures Steady(Purged(w, q, eg))
    decreases |w.sp|
  {
    var k := First(w.mem, w.sp, q, 0);
    if k < |w.sp| {
      RemovedSteady(w, k, eg);
      PurgeSteady(Removed(w, k, eg), q, eg);
    }
  }

  lemma {:induction false} DestroyEmpties(w: Whole, eg: Egress)
    requires Steady(w)
    ensures var u := Destroyed(w, eg);
            && Steady(u) && u.sp == [] && u.handles == w.handles && Shrunk(w.mem, u.mem)
            && forall p :: p in u.mem <==> p in w.handles
    decreases |w.sp|
  {
    if w.sp != [] {
      RemovedSteady(w, 0, eg);
      RemovedShape(w, 0, eg);
      DestroyEmpties(Removed(w, 0, eg), eg);
    }
  }

  lemma {:induction false} ClearSteady(w: Whole, now: int, i: nat, eg: Egress)
    requires Steady(w) && i <= |w.sp|
    ensures Steady(Cleared(w, now, i, eg)) && Cleared(w, now, i, eg).handles == w.handles
    decreases |w.sp| - i
  {
    hide Linked, Distinct, Counted, OnePerDst, Unlinked, Dec;
    if i < |w.sp| {
      var v := Zeroed(w, i);
      EditSteady(w, w.sp[i], w.mem[w.sp[i]].info.(count := 0));
      if Hit(Expired(now), w.mem[w.sp[i]].info) {
        RemovedSteady(v, i, eg);
        ClearSteady(Removed(v, i, eg), now, i, eg);
      } else {
        ClearSteady(v, now, i + 1, eg);
      }
    }
  }

  /** Nothing leaks: with no handle out, memory holds the listed entries and no other, each with one reference. */
  lemma {:induction false} NoLeak(w: Whole)
    requires Valid(w) && w.handles == multiset{}
    ensures forall p :: p in w.mem ==> p in w.sp && w.mem[p].use == 1
    ensures forall p :: p in w.sp ==> p in w.mem
  {
  }

  lemma {:induction false} KeptAgree(mem: Memory, m: Memory, sp: seq<Ptr>, n: nat, q: Query)
    requires Known(mem, sp) && Known(m, sp) && n <= |sp|
    requires forall i :: 0 <= i < |sp| ==> Hit(q, m[sp[i]].info) == Hit(q, mem[sp[i]].info)
    ensures Kept(m, sp, n, q) == Kept(mem, sp, n, q)
    decreases n
  {
    if n != 0 {
      KeptAgree(mem, m, sp, n - 1, q);
    }
  }

  /** Entries may have gone; those left say what they said, but for the count. */
  ghost predicate Faded(mem: Memory, m: Memory) {
    forall p :: p in m ==> p in mem && m[p].info.(count := mem[p].info.count) == mem[p].info
  }

  ghost predicate Fresh(w: Whole, i: nat, now: int)
    requires Known(w.mem, w.sp) && i <= |w.sp|
  {
    forall j :: 0 <= j < i ==> w.mem[w.sp[j]].info.count == 0 && !Hit(Expired(now), w.mem[w.sp[j]].info)
  }

  /** One pass drops exactly the expired entries, keeps the others in order, and zeroes their counts. */
  lemma {:induction false} ClearExact(w: Whole, now: int, i: nat, eg: Egress)
    requires Valid(w) && i <= |w.sp| && Fresh(w, i, now)
    ensures var u := Cleared(w, now, i, eg);
            Valid(u) && u.sp == Kept(w.mem, w.sp, |w.sp|, Expired(now)) && Fresh(u, |u.sp|, now) && Faded(w.mem, u.mem)
    decreases |w.sp| - i
  {
    if i == |w.sp| {
      KeptAll(w.mem, w.sp, i, Expired(now));
    } else {
      var v := Zeroed(w, i);
      ClearZero(w, now, i);
      if Hit(Expired(now), w.mem[w.sp[i]].info) {
        ClearDrop(v, now, i, eg);
        ClearExact(Removed(v, i, eg), now, i, eg);
      } else {
        ClearExact(v, now, i + 1, eg);
      }
    }
  }

  lemma {:induction false} ClearZero(w: Whole, now: int, i: nat)
    requires Valid(w) && i < |w.sp| && Fresh(w, i, now)
    ensures var v := Zeroed(w, i);
            && Valid(v) && Fresh(v, i, now) && Faded(w.mem, v.mem) && v.mem[v.sp[i]].info.count == 0
            && Hit(Expired(now), v.mem[v.sp[i]].info) == Hit(Expired(now), w.mem[w.sp[i]].info)
            && Kept(v.mem, v.sp, |v.sp|, Expired(now)) == Kept(w.mem, w.sp, |w.sp|, Expired(now))
  {
    EditSound(w.head, w.mem, w.sp, w.handles, w.sp[i], w.mem[w.sp[i]].info.(count := 0));
    KeptAgree(w.mem, Zeroed(w, i).mem, w.sp, |w.sp|, Expired(now));
  }

  lemma {:induction false} ClearDrop(w: Whole, now: int, i: nat, eg: Egress)
    requires Valid(w) && i < |w.sp| && Fresh(w, i, now) && Hit(Expired(now), w.mem[w.sp[i]].info)
    ensures var v := Removed(w, i, eg);
            && Valid(v) && i <= |v.sp| && Fresh(v, i, now) && Shrunk(w.mem, v.mem)
            && Kept(v.mem, v.sp, |v.sp|, Expired(now)) == Kept(w.mem, w.sp, |w.sp|, Expired(now))
  {
    KeptRemoved(w, i, Expired(now), eg);
    RemovedShape(w, i, eg);
  }

  /** Closing a circuit leaves no entry over it exactly when at most one entry used it. */
  lemma {:induction false} VccGone(w: Whole, vcc: nat)
    requires Steady(w) && vcc != 0
    ensures var q, k, u := ByVcc(vcc), First(w.mem, w.sp, ByVcc(vcc), 0), VccClosed(w, vcc);
            && u.sp == w.sp && Known(u.mem, u.sp)
            && ((forall j :: 0 <= j < |w.sp| ==> !Hit(q, u.mem[w.sp[j]].info)) <==>
                (forall j :: 0 <= j < |w.sp| && j != k ==> !Hit(q, w.mem[w.sp[j]].info)))
  {
    var q, k, u := ByVcc(vcc), First(w.mem, w.sp, ByVcc(vcc), 0), VccClosed(w, vcc);
    assert forall j :: 0 <= j < |w.sp| ==> (Hit(q, u.mem[w.sp[j]].info) <==> j != k && Hit(q, w.mem[w.sp[j]].info));
  }

  /** Two destinations behind one circuit: once it is closed, the second entry still uses it. */
  lemma VccStays()
    ensures var i := Info(1, Resolved, 5, 0, 0, 0, 0, 0, 0, 0);
            var mem := map[1 := Entry(2, NULL, 1, i), 2 := Entry(NULL, 1, 1, i.(dst := 2))];
            var w := Whole(1, mem, [], [1, 2], multiset{});
            && Steady(w) && VccClosed(w, 5).sp == w.sp
            && VccClosed(w, 5).mem[1].info.shortcut == 0 && VccClosed(w, 5).mem[2].info.shortcut == 5
  {
    var i := Info(1, Resolved, 5, 0, 0, 0, 0, 0, 0, 0);
    var mem := map[1 := Entry(2, NULL, 1, i), 2 := Entry(NULL, 1, 1, i.(dst := 2))];
    assert Counted(mem, [1, 2], multiset{});
    assert First(mem, [1, 2], ByVcc(5), 0) == 0;
  }

  lemma {:induction false} VccClosedSteady(w: Whole, vcc: nat)
    requires Steady(w)
    ensures Steady(VccClosed(w, vcc))
  {
    var k := First(w.mem, w.sp, ByVcc(vcc), 0);
    if k < |w.sp| {
      EditSteady(w, w.sp[k], w.mem[w.sp[k]].info.(shortcut := 0));
    }
  }

  lemma {:induction false} AttachedSteady(w: Whole, ip: Ip, vcc: nat)
    requires Steady(w)
    ensures Steady(Attached(w, ip, vcc))
  {
    var k := First(w.mem, w.sp, ByIp(ip), 0);
    if k < |w.sp| && Settled(w.mem[w.sp[k]].info) {
      EditSteady(w, w.sp[k], w.mem[w.sp[k]].info.(shortcut := vcc));
    }
  }

  lemma {:induction false} RefreshSteady(w: Whole, now: int, i: nat)
    requires Steady(w) && i <= |w.sp|
    ensures Steady(Refreshed(w, now, i)) && Refreshed(w, now, i).handles == w.handles
    decreases |w.sp| - i
  {
    hide Linked, Distinct, Counted, OnePerDst;
    if i < |w.sp| {
      var p := w.sp[i];
      EditSteady(w, p, Aged(w.mem[p].info, now));
      RefreshSteady(w.(mem := Edit(w.mem, p, Aged(w.mem[p].info, now))), now, i + 1);
    }
  }

  lemma {:induction false} RefreshStep(w: Whole, now: int, i: nat)
    requires Valid(w) && i < |w.sp|
    ensures var p := w.sp[i];
            && p in w.mem && p != NULL
            && var v := w.(mem := Edit(w.mem, p, Aged(w.mem[p].info, now)));
               && Valid(v) && Refreshed(w, now, i) == Refreshed(v, now, i + 1)
               && v.mem[p].next == if i + 1 < |w.sp| then w.sp[i + 1] else NULL
  {
    hide Distinct, Counted, Aged;
    Neighbours(w.head, w.mem, w.sp, i);
    EditSound(w.head, w.mem, w.sp, w.handles, w.sp[i], Aged(w.mem[w.sp[i]].info, now));
  }

  /** Listed entries from i on have aged; every other entry is as it was. */
  ghost predicate AgedFrom(w: Whole, u: Whole, now: int, i: nat) {
    && u.sp == w.sp && u.head == w.head && u.handles == w.handles && u.log == w.log && u.mem.Keys == w.mem.Keys
    && forall p :: p in w.mem ==>
         u.mem[p] == if p in w.sp[Min(i, |w.sp|)..] then w.mem[p].(info := Aged(w.mem[p].info, now)) else w.mem[p]
  }

  /** refresh_entries ages each listed entry once and changes nothing else. */
  lemma {:induction false} RefreshExact(w: Whole, now: int, i: nat)
    requires Valid(w) && i <= |w.sp|
    ensures AgedFrom(w, Refreshed(w, now, i), now, i)
    decreases |w.sp| - i
  {
    hide Linked, Counted, Aged;
    if i < |w.sp| {
      var p := w.sp[i];
      var v := w.(mem := Edit(w.mem, p, Aged(w.mem[p].info, now)));
      EditSound(w.head, w.mem, w.sp, w.handles, p, Aged(w.mem[p].info, now));
      RefreshExact(v, now, i + 1);
      TailIn(w.sp, i);
    }
  }

  lemma {:induction false} TailIn(sp: seq<Ptr>, i: nat)
    requires Distinct(sp) && i < |sp|
    ensures forall p :: p in sp[i..] <==> p == sp[i] || p in sp[i + 1..]
    ensures sp[i] !in sp[i + 1..]
  {
    assert sp[i..] == [sp[i]] + sp[i + 1..];
  }

  // ---- whole runs ----

  datatype Event =
    | Packet(ip: Ip, ttl: nat, limit: nat, now: int, holding: nat, room: Ptr)
    | Trigger(ip: Ip, now: int, holding: nat, room: Ptr)
    | Reply(ip: Ip, holding: nat, tag: nat, now: int, offer: nat)
    | Purge(ip: Ip, mask: Ip)
    | CloseVcc(vcc: nat)
    | Attach(ip: Ip, vcc: nat)
    | Refresh(now: int)
    | Clear(now: int)
    | Destroy

  /** room is what the allocator gives: nothing, or an address not in use. */
  ghost predicate Enabled(w: Whole, ev: Event) {
    match ev
    case Packet(_, _, _, _, _, room) => room !in w.mem
    case Trigger(_, _, _, room) => room !in w.mem
    case CloseVcc(vcc) => vcc != 0
    case Attach(_, vcc) => vcc != 0
    case _ => true
  }

  ghost function Step(w: Whole, ev: Event, eg: Egress): Whole
    requires Valid(w) && Enabled(w, ev)
  {
    match ev
    case Packet(ip, ttl, limit, now, holding, room) => Sent(w, ip, ttl, limit, now, holding, room)
    case Trigger(ip, now, holding, room) => Triggered(w, ip, now, holding, room)
    case Reply(ip, holding, tag, now, offer) => Answered(w, ip, holding, tag, now, offer)
    case Purge(ip, mask) => Purged(w, ByMask(ip, mask), eg)
    case CloseVcc(vcc) => VccClosed(w, vcc)
    case Attach(ip, vcc) => Attached(w, ip, vcc)
    case Refresh(now) => Refreshed(w, now, 0)
    case Clear(now) => Cleared(w, now, 0, eg)
    case Destroy => Destroyed(w, eg)
  }

  lemma {:induction false} NewcomerSteady(w: Whole, ip: Ip, p: Ptr, i: Info)
    requires Steady(w) && p !in w.mem && p != NULL && i.dst == ip && First(w.mem, w.sp, ByIp(ip), 0) == |w.sp|
    ensures Steady(Newcomer(w, p, i))
  {
    JoinedSound(w.head, w.mem, w.sp, w.handles, p, i);
  }

  lemma {:induction false} SentSteady(w: Whole, ip: Ip, ttl: nat, limit: nat, now: int, holding: nat, room: Ptr)
    requires Steady(w) && room !in w.mem
    ensures Steady(Sent(w, ip, ttl, limit, now, holding, room))
  {
    var k := First(w.mem, w.sp, ByIp(ip), 0);
    if k < |w.sp| {
      EditSteady(w, w.sp[k], Routed(w.mem[w.sp[k]].info, limit, ttl, now));
    } else if room != NULL {
      NewcomerSteady(w, ip, room, New(ip, now, holding));
    }
  }

  lemma {:induction false} TriggeredSteady(w: Whole, ip: Ip, now: int, holding: nat, room: Ptr)
    requires Steady(w) && room !in w.mem
    ensures Steady(Triggered(w, ip, now, holding, room))
  {
    var k := First(w.mem, w.sp, ByIp(ip), 0);
    if k < |w.sp| {
      EditSteady(w, w.sp[k], Requested(w.mem[w.sp[k]].info, now));
    } else if room != NULL {
      NewcomerSteady(w, ip, room, Requested(New(ip, now, holding), now));
    }
  }

  lemma {:induction false} AnsweredSteady(w: Whole, ip: Ip, holding: nat, tag: nat, now: int, offer: nat)
    requires Steady(w)
    ensures Steady(Answered(w, ip, holding, tag, now, offer))
  {
    var k := First(w.mem, w.sp, ByIp(ip), 0);
    if k < |w.sp| {
      EditSteady(w, w.sp[k], Replied(w.mem[w.sp[k]].info, holding, tag, now, offer));
    }
  }

  /** Every handler leaves a sound list with exact counts, and as many handles out as before. */
  lemma {:induction false} StepSteady(w: Whole, ev: Event, eg: Egress)
    requires Steady(w) && Enabled(w, ev)
    ensures Steady(Step(w, ev, eg)) && Step(w, ev, eg).handles == w.handles
  {
    hide Linked, Distinct, Counted, OnePerDst;
    match ev
    case Packet(ip, ttl, limit, now, holding, room) => SentSteady(w, ip, ttl, limit, now, holding, room);
    case Trigger(ip, now, holding, room) => TriggeredSteady(w, ip, now, holding, room);
    case Reply(ip, holding, tag, now, offer) => AnsweredSteady(w, ip, holding, tag, now, offer);
    case Purge(ip, mask) =>
      PurgeSteady(w, ByMask(ip, mask), eg);
      PurgeExact(w, ByMask(ip, mask), eg);
    case CloseVcc(vcc) => VccClosedSteady(w, vcc);
    case Attach(ip, vcc) => AttachedSteady(w, ip, vcc);
    case Refresh(now) => RefreshSteady(w, now, 0);
    case Clear(now) => ClearSteady(w, now, 0, eg);
    case Destroy => DestroyEmpties(w, eg);
  }

  /** A sequence of states, each one handler after the one before. */
  ghost predicate IsRun(ws: seq<Whole>, evs: seq<Event>, eg: Egress) {
    && |ws| == |evs| + 1 && Steady(ws[0])
    && forall i :: 0 <= i < |evs| ==> Valid(ws[i]) && Enabled(ws[i], evs[i]) && ws[i + 1] == Step(ws[i], evs[i], eg)
  }

  /** Whatever handlers run: links, counts and uniqueness hold, and with no handle out nothing has leaked. */
  lemma {:induction false} RunSteady(ws: seq<Whole>, evs: seq<Event>, eg: Egress, n: nat)
    requires IsRun(ws, evs, eg) && n < |ws|
    ensures Steady(ws[n]) && ws[n].handles == ws[0].handles
    ensures ws[0].handles == multiset{} ==> forall p :: p in ws[n].mem ==> p in ws[n].sp && ws[n].mem[p].use == 1
    decreases n
  {
    if n != 0 {
      RunSteady(ws, evs, eg, n - 1);
      StepSteady(ws[n - 1], evs[n - 1], eg);
      assert ws[n] == Step(ws[n - 1], evs[n - 1], eg);
    }
    if ws[0].handles == multiset{} {
      NoLeak(ws[n]);
    }
  }

  // ---- entries without a circuit ----

  /** An INVALID entry has no circuit. */
  predicate PlainInfo(i: Info) {
    i.state == Invalid ==> i.shortcut == 0
  }

  ghost predicate Plain(mem: Memory) {
    forall p :: p in mem ==> PlainInfo(mem[p].info)
  }

  lemma ShrunkPlain(mem: Memory, m: Memory)
    requires Plain(mem) && Shrunk(mem, m)
    ensures Plain(m)
  {
  }

  lemma FadedPlain(mem: Memory, m: Memory)
    requires Plain(mem) && Faded(mem, m)
    ensures Plain(m)
  {
  }

  lemma EditPlain(mem: Memory, p: Ptr, i: Info)
    requires Plain(mem) && p in mem && PlainInfo(i)
    ensures Plain(Edit(mem, p, i))
  {
  }

  lemma NewcomerPlain(w: Whole, p: Ptr, i: Info)
    requires Plain(w.mem) && PlainInfo(i)
    ensures Plain(Newcomer(w, p, i).mem)
  {
  }

  lemma {:induction false} RefreshedPlain(w: Whole, now: int)
    requires Valid(w) && Plain(w.mem)
    ensures Plain(Refreshed(w, now, 0).mem)
  {
    RefreshExact(w, now, 0);
    hide Valid, Refreshed;
  }

  lemma {:induction false} SentPlain(w: Whole, ip: Ip, ttl: nat, limit: nat, now: int, holding: nat, room: Ptr)
    requires Valid(w) && Plain(w.mem)
    ensures Plain(Sent(w, ip, ttl, limit, now, holding, room).mem)
  {
    hide Plain, Linked, Distinct, Counted, Edit, Newcomer;
    NewcomerPlain(w, room, New(ip, now, holding));
    FoundPlain(w, ByIp(ip), (i: Info) => Routed(i, limit, ttl, now));
  }

  lemma {:induction false} TriggeredPlain(w: Whole, ip: Ip, now: int, holding: nat, room: Ptr)
    requires Valid(w) && Plain(w.mem)
    ensures Plain(Triggered(w, ip, now, holding, room).mem)
  {
    hide Plain, Linked, Distinct, Counted, Edit, Newcomer;
    NewcomerPlain(w, room, Requested(New(ip, now, holding), now));
    FoundPlain(w, ByIp(ip), (i: Info) => Requested(i, now));
  }

  lemma {:induction false} StepPlain(w: Whole, ev: Event, eg: Egress)
    requires Steady(w) && Enabled(w, ev) && Plain(w.mem)
    ensures Plain(Step(w, ev, eg).mem)
  {
    hide Plain, Linked, Distinct, Counted, OnePerDst, Sent, Triggered, Purged, Cleared, Destroyed, Refreshed, Edit;
    match ev
    case Packet(ip, ttl, limit, now, holding, room) => SentPlain(w, ip, ttl, limit, now, holding, room);
    case Trigger(ip, now, holding, room) => TriggeredPlain(w, ip, now, holding, room);
    case Reply(ip, holding, tag, now, offer) =>
      FoundPlain(w, ByIp(ip), (i: Info) => Replied(i, holding, tag, now, offer));
    case CloseVcc(vcc) => FoundPlain(w, ByVcc(vcc), (i: Info) => i.(shortcut := 0));
    case Attach(ip, vcc) =>
      FoundPlain(w, ByIp(ip), (i: Info) => if Settled(i) then i.(shortcut := vcc) else i);
    case Refresh(now) => RefreshedPlain(w, now);
    case Purge(ip, mask) =>
      PurgeExact(w, ByMask(ip, mask), eg);
      ShrunkPlain(w.mem, Purged(w, ByMask(ip, mask), eg).mem);
    case Clear(now) =>
      ClearExact(w, now, 0, eg);
      FadedPlain(w.mem, Cleared(w, now, 0, eg).mem);
    case Destroy =>
      DestroyEmpties(w, eg);
      ShrunkPlain(w.mem, Destroyed(w, eg).mem);
  }

  /** An entry that is found and rewritten. */
  lemma {:induction false} FoundPlain(w: Whole, q: Query, f: Info -> Info)
    requires Valid(w) && Plain(w.mem) && forall i :: PlainInfo(i) ==> PlainInfo(f(i))
    ensures var k := First(w.mem, w.sp, q, 0);
            k < |w.sp| ==> Plain(Edit(w.mem, w.sp[k], f(w.mem[w.sp[k]].info)))
  {
    var k := First(w.mem, w.sp, q, 0);
    if k < |w.sp| {
      EditPlain(w.mem, w.sp[k], f(w.mem[w.sp[k]].info));
    }
  }

  /** A reply finds the entry in the state that MPOA_res_reply_rcvd calls impossible. */
  predicate Impossible(i: Info) {
    i.state != Resolved && i.state != Resolving && i.shortcut != 0
  }

  lemma PlainMeans(i: Info)
    requires PlainInfo(i)
    ensures Opens(i) <==> i.shortcut != 0
    ensures Impossible(i) <==> i.state == Refreshing && i.shortcut != 0
  {
  }

  lemma {:induction false} RunPlain(ws: seq<Whole>, evs: seq<Event>, eg: Egress, n: nat)
    requires IsRun(ws, evs, eg) && ws[0] == EMPTY && n < |ws|
    ensures Plain(ws[n].mem)
    decreases n
  {
    if n != 0 {
      RunPlain(ws, evs, eg, n - 1);
      RunSteady(ws, evs, eg, n - 1);
      hide Plain, Sound, OnePerDst, Step;
      StepPlain(ws[n - 1], evs[n - 1], eg);
      assert ws[n] == Step(ws[n - 1], evs[n - 1], eg);
    }
  }

  /**
   * Over every run of a client that starts empty: a packet finds a circuit usable if and only if
   * the entry has one, and the "impossible" state is exactly that of a REFRESHING entry with a circuit.
   */
  lemma {:induction false} CircuitUsable(ws: seq<Whole>, evs: seq<Event>, eg: Egress, n: nat, p: Ptr)
    requires IsRun(ws, evs, eg) && ws[0] == EMPTY && n < |ws| && p in ws[n].mem
    ensures var i := ws[n].mem[p].info;
            && (Opens(i) <==> i.shortcut != 0)
            && (Impossible(i) <==> i.state == Refreshing && i.shortcut != 0)
  {
    RunPlain(ws, evs, eg, n);
    hide IsRun;
    PlainMeans(ws[n].mem[p].info);
  }
}

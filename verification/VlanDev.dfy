/**
 * What VLAN devices hold on the real device below them: unicast address references and
 * allmulti/promiscuity counts (net/8021q/vlan_dev.c, net/8021q/vlan.c).
 */
module VlanDev {
  import opened Common

  const ENETDOWN := -100
  const EADDRNOTAVAIL := -99

  /** A six-byte address as a number. */
  type Addr = nat

  /** is_valid_ether_addr: neither zero nor a group address. */
  predicate IsValid(a: Addr) {
    a != 0 && (a / 0x100_0000_0000) % 2 == 0
  }

  /** A slot of the VLAN group; saved is real_dev_addr, the real device's address as this VLAN last saw it. */
  datatype Vlan = NoVlan | Vlan(mac: Addr, up: bool, allmulti: bool, promisc: bool, loose: bool, saved: Addr)

  /** The real device's address and state, and its VLANs by id. */
  datatype Config = Config(addr: Addr, up: bool, vlans: seq<Vlan>)

  /** With the real device's address reference list and counters. */
  datatype Real = Real(c: Config, uc: multiset<Addr>, allmulti: int, promisc: int)

  /** References held by everyone else. */
  datatype Others = Others(uc: multiset<Addr>, allmulti: int, promisc: int)

  // ---- what is held ----

  predicate Up(v: Vlan) {
    v.Vlan? && v.up
  }

  /** A VLAN that is up refers to its own address, unless that is the real device's too. */
  predicate Refers(v: Vlan) {
    Up(v) && v.mac != v.saved
  }

  function Take(u: multiset<Addr>, v: Vlan): multiset<Addr> {
    if Refers(v) then u + multiset{v.mac} else u
  }

  function Give(u: multiset<Addr>, v: Vlan): multiset<Addr> {
    if Refers(v) then u - multiset{v.mac} else u
  }

  function DueTo(v: Vlan, a: Addr): nat {
    if Refers(v) && v.mac == a then 1 else 0
  }

  /** References to address a due to the first n slots. */
  function DueAll(vs: seq<Vlan>, n: nat, a: Addr): nat
    requires n <= |vs|
    decreases n, vs
  {
    if n == 0 then 0 else DueAll(vs, n - 1, a) + DueTo(vs[n - 1], a)
  }

  function AllmultiDue(vs: seq<Vlan>, n: nat): int
    requires n <= |vs|
    decreases n, vs
  {
    if n == 0 then 0 else AllmultiDue(vs, n - 1) + One(Up(vs[n - 1]) && vs[n - 1].allmulti)
  }

  function PromiscDue(vs: seq<Vlan>, n: nat): int
    requires n <= |vs|
    decreases n, vs
  {
    if n == 0 then 0 else PromiscDue(vs, n - 1) + One(Up(vs[n - 1]) && vs[n - 1].promisc)
  }

  /** The address list is exact but for c references to a that are missing. */
  ghost predicate ShortBy(b: Others, r: Real, a: Addr, c: int) {
    forall e :: r.uc[e] == b.uc[e] + DueAll(r.c.vlans, |r.c.vlans|, e) - if e == a then c else 0
  }

  ghost predicate Counted(b: Others, r: Real) {
    && r.allmulti == b.allmulti + AllmultiDue(r.c.vlans, |r.c.vlans|)
    && r.promisc == b.promisc + PromiscDue(r.c.vlans, |r.c.vlans|)
  }

  /** Each VLAN that is up has seen the current address of the real device. */
  ghost predicate Fresh(c: Config) {
    forall i :: 0 <= i < |c.vlans| && Up(c.vlans[i]) ==> c.vlans[i].saved == c.addr
  }

  /** Only loosely bound VLANs are up while the real device is down. */
  ghost predicate Bound(c: Config) {
    !c.up ==> forall i :: 0 <= i < |c.vlans| && Up(c.vlans[i]) ==> c.vlans[i].loose
  }

  /** The real device carries exactly what is due: no reference lost, none leaked. */
  ghost predicate Good(b: Others, r: Real) {
    ShortBy(b, r, 0, 0) && Counted(b, r) && Fresh(r.c)
  }

  /** How many of the first n VLANs are up with address a while the real device has another. */
  function Users(vs: seq<Vlan>, n: nat, a: Addr, below: Addr): nat
    requires n <= |vs|
    decreases n, vs
  {
    if n == 0 then 0
    else Users(vs, n - 1, a, below) + if Up(vs[n - 1]) && vs[n - 1].mac == a && a != below then 1 else 0
  }

  /** What Good says in terms of the real device's own address. */
  lemma {:induction false} UsersDue(vs: seq<Vlan>, n: nat, a: Addr, below: Addr)
    requires n <= |vs| && forall i :: 0 <= i < |vs| && Up(vs[i]) ==> vs[i].saved == below
    ensures DueAll(vs, n, a) == Users(vs, n, a, below)
    decreases n
  {
    if n != 0 {
      UsersDue(vs, n - 1, a, below);
    }
  }

  lemma {:induction false} GoodMeans(b: Others, r: Real, a: Addr)
    requires Good(b, r)
    ensures r.uc[a] == b.uc[a] + Users(r.c.vlans, |r.c.vlans|, a, r.c.addr)
  {
    UsersDue(r.c.vlans, |r.c.vlans|, a, r.c.addr);
  }

  // ---- one VLAN changes ----

  function Put(c: Config, k: nat, v: Vlan): Config
    requires k < |c.vlans|
  {
    c.(vlans := c.vlans[k := v])
  }

  /** VLAN k becomes v and its references follow. */
  function Replace(r: Real, k: nat, v: Vlan): Real
    requires k < |r.c.vlans|
  {
    var w := r.c.vlans[k];
    Real(Put(r.c, k, v), Take(Give(r.uc, w), v),
         r.allmulti - One(Up(w) && w.allmulti) + One(Up(v) && v.allmulti),
         r.promisc - One(Up(w) && w.promisc) + One(Up(v) && v.promisc))
  }

  lemma {:induction false} DueReplace(vs: seq<Vlan>, n: nat, k: nat, v: Vlan, e: Addr)
    requires k < |vs| && n <= |vs|
    ensures k >= n ==> DueAll(vs[k := v], n, e) == DueAll(vs, n, e)
    ensures k < n ==> DueAll(vs[k := v], n, e) == DueAll(vs, n, e) - DueTo(vs[k], e) + DueTo(v, e)
    ensures k < n ==> DueTo(vs[k], e) <= DueAll(vs, n, e)
    decreases n
  {
    if n != 0 {
      DueReplace(vs, n - 1, k, v, e);
    }
  }

  lemma {:induction false} CountsReplace(vs: seq<Vlan>, n: nat, k: nat, v: Vlan)
    requires k < |vs| && n <= |vs|
    ensures AllmultiDue(vs[k := v], n) == AllmultiDue(vs, n) +
            if k < n then One(Up(v) && v.allmulti) - One(Up(vs[k]) && vs[k].allmulti) else 0
    ensures PromiscDue(vs[k := v], n) == PromiscDue(vs, n) +
            if k < n then One(Up(v) && v.promisc) - One(Up(vs[k]) && vs[k].promisc) else 0
    decreases n
  {
    if n != 0 {
      CountsReplace(vs, n - 1, k, v);
    }
  }

  lemma TakeGive(u: multiset<Addr>, w: Vlan, v: Vlan, e: Addr)
    requires DueTo(w, e) <= u[e]
    ensures Take(Give(u, w), v)[e] == u[e] - DueTo(w, e) + DueTo(v, e)
  {
  }

  /** The VLAN's old reference is there to be dropped, unless it is to the address whose references are missing. */
  lemma {:induction false} ReplaceShort(b: Others, r: Real, k: nat, v: Vlan, a: Addr, c: int)
    requires k < |r.c.vlans| && ShortBy(b, r, a, c) && (DueTo(r.c.vlans[k], a) == 0 || c == 0)
    ensures ShortBy(b, Replace(r, k, v), a, c)
    ensures Refers(r.c.vlans[k]) ==> r.c.vlans[k].mac in r.uc
  {
    var w := r.c.vlans[k];
    forall e
      ensures DueTo(w, e) <= r.uc[e]
      ensures Replace(r, k, v).uc[e] == b.uc[e] + DueAll(r.c.vlans[k := v], |r.c.vlans|, e) - if e == a then c else 0
    {
      DueReplace(r.c.vlans, |r.c.vlans|, k, v, e);
      TakeGive(r.uc, w, v, e);
    }
    if Refers(w) {
      assert DueTo(w, w.mac) <= r.uc[w.mac];
    }
  }

  lemma {:induction false} ReplaceCounted(b: Others, r: Real, k: nat, v: Vlan)
    requires k < |r.c.vlans| && Counted(b, r)
    ensures Counted(b, Replace(r, k, v))
  {
    CountsReplace(r.c.vlans, |r.c.vlans|, k, v);
  }

  lemma {:induction false} ReplaceGood(b: Others, r: Real, k: nat, v: Vlan)
    requires k < |r.c.vlans| && Good(b, r)
    requires Up(v) ==> v.saved == r.c.addr
    ensures Good(b, Replace(r, k, v)) && (Refers(r.c.vlans[k]) ==> r.c.vlans[k].mac in r.uc)
  {
    ReplaceShort(b, r, k, v, 0, 0);
    ReplaceCounted(b, r, k, v);
  }

  // ---- the operations on the configuration ----

  /** Results of the calls on the real device: negative for failure. */
  datatype Errs = Errs(uc: int, allmulti: int, promisc: int)

  predicate Present(c: Config, k: nat) {
    k < |c.vlans| && c.vlans[k].Vlan?
  }

  function OpenErr(c: Config, v: Vlan, e: Errs): int
    requires v.Vlan?
  {
    if !c.up && !v.loose then ENETDOWN
    else if v.mac != c.addr && e.uc < 0 then e.uc
    else if v.allmulti && e.allmulti < 0 then e.allmulti
    else if v.promisc && e.promisc < 0 then e.promisc
    else 0
  }

  function MacErr(c: Config, v: Vlan, a: Addr, err: int): int
    requires v.Vlan?
  {
    if !IsValid(a) then EADDRNOTAVAIL
    else if v.up && a != c.addr && err < 0 then err
    else 0
  }

  function Opened(c: Config, v: Vlan, e: Errs): Vlan
    requires v.Vlan?
  {
    if v.up || OpenErr(c, v, e) != 0 then v else v.(up := true, saved := c.addr)
  }

  function MacSet(c: Config, k: nat, a: Addr, err: int): Config
    requires Present(c, k)
  {
    if MacErr(c, c.vlans[k], a, err) != 0 then c else Put(c, k, c.vlans[k].(mac := a))
  }

  function FlagsSet(c: Config, k: nat, allmulti: bool, promisc: bool): Config
    requires Present(c, k)
  {
    Put(c, k, c.vlans[k].(allmulti := allmulti, promisc := promisc))
  }

  /** An increment is wanted and fails. */
  predicate Lost(v: Vlan, before: bool, after: bool, err: int) {
    Up(v) && !before && after && err < 0
  }

  predicate FlagsHeeded(c: Config, k: nat, allmulti: bool, promisc: bool, e: Errs)
    requires Present(c, k)
  {
    var v := c.vlans[k];
    !Lost(v, v.allmulti, allmulti, e.allmulti) && !Lost(v, v.promisc, promisc, e.promisc)
  }

  function Seen(v: Vlan, now: Addr): Vlan {
    if Up(v) then v.(saved := now) else v
  }

  function Lowered(v: Vlan): Vlan {
    if Up(v) && !v.loose then v.(up := false) else v
  }

  function Raised(c: Config, v: Vlan, e: Errs): Vlan {
    if v.Vlan? && !v.loose then Opened(c, v, e) else v
  }

  /** Every VLAN that is up has taken note of the real device's new address. */
  function Rebased(c: Config, a: Addr): Config {
    var n := |c.vlans|;
    c.(addr := a, vlans := seq(n, i requires 0 <= i < n => Seen(c.vlans[i], a)))
  }

  datatype Event =
    | Open(k: nat, e: Errs)
    | Stop(k: nat)
    | SetMac(k: nat, mac: Addr, err: int)
    | SetFlags(k: nat, allmulti: bool, promisc: bool, e: Errs)
    | SetLoose(k: nat, loose: bool)
    | ChangeAddr(addr: Addr, errs: seq<int>)
    | RealDown
    | RealUp(es: seq<Errs>)
    | Register(k: nat, v: Vlan)
    | Unregister(k: nat)

  predicate Enabled(c: Config, ev: Event) {
    match ev
    case Open(k, _) => Present(c, k)
    case Stop(k) => Present(c, k) && c.vlans[k].up
    case SetMac(k, _, _) => Present(c, k)
    case SetFlags(k, _, _, _) => Present(c, k)
    case SetLoose(k, _) => Present(c, k)
    case ChangeAddr(_, errs) => |errs| == |c.vlans|
    case RealDown => true
    case RealUp(es) => |es| == |c.vlans|
    case Register(k, v) => k < |c.vlans| && c.vlans[k].NoVlan? && v.Vlan? && !v.up
    case Unregister(k) => Present(c, k)
  }

  function Step(c: Config, ev: Event): Config
    requires Enabled(c, ev)
  {
    var n := |c.vlans|;
    match ev
    case Open(k, e) => Put(c, k, Opened(c, c.vlans[k], e))
    case Stop(k) => Put(c, k, c.vlans[k].(up := false))
    case SetMac(k, a, err) => MacSet(c, k, a, err)
    case SetFlags(k, a, p, _) => FlagsSet(c, k, a, p)
    case SetLoose(k, loose) => Put(c, k, c.vlans[k].(loose := loose))
    case ChangeAddr(a, _) => Rebased(c, a)
    case RealDown => c.(up := false, vlans := seq(n, i requires 0 <= i < n => Lowered(c.vlans[i])))
    case RealUp(es) =>
      var d := c.(up := true);
      d.(vlans := seq(n, i requires 0 <= i < n => Raised(d, c.vlans[i], es[i])))
    case Register(k, v) => Put(c, k, v)
    case Unregister(k) => Put(c, k, NoVlan)
  }

  /** How many of the first n VLANs had the old address, need a reference now and do not get it. */
  function Misses(vs: seq<Vlan>, n: nat, was: Addr, now: Addr, errs: seq<int>): nat
    requires n <= |vs| <= |errs|
    decreases n, vs
  {
    if n == 0 then 0
    else
      var v := vs[n - 1];
      Misses(vs, n - 1, was, now, errs) + One(Missed(v, was, now, errs[n - 1]))
  }

  /** No call whose failure the code ignores has failed. */
  predicate Heeded(c: Config, ev: Event)
    requires Enabled(c, ev)
  {
    match ev
    case SetFlags(k, a, p, e) => FlagsHeeded(c, k, a, p, e)
    case ChangeAddr(a, errs) => Misses(c.vlans, |c.vlans|, c.addr, a, errs) == 0
    case _ => true
  }

  function Run(c: Config, evs: seq<Event>): Config
    requires Calm(c, evs)
    decreases |evs|
  {
    if evs == [] then c else Run(Step(c, evs[0]), evs[1..])
  }

  /** A run in which every event is possible and no ignored failure occurs. */
  predicate Calm(c: Config, evs: seq<Event>)
    decreases |evs|
  {
    evs == [] || (Enabled(c, evs[0]) && Heeded(c, evs[0]) && Calm(Step(c, evs[0]), evs[1..]))
  }

  // ---- which VLANs are up on a device that is down ----

  /** The event does not clear the loose-binding flag of a VLAN that is up on a device that is down. */
  predicate Ties(c: Config, ev: Event)
    requires Enabled(c, ev)
  {
    match ev
    case SetLoose(k, loose) => c.up || !c.vlans[k].up || loose
    case _ => true
  }

  lemma {:induction false} PutBound(c: Config, k: nat, v: Vlan)
    requires Bound(c) && k < |c.vlans|
    ensures Bound(Put(c, k, v)) <==> c.up || !Up(v) || v.loose
  {
    if !c.up && Up(v) && !v.loose {
      assert Put(c, k, v).vlans[k] == v;
    }
  }

  /** Each event keeps the loosely bound VLANs the only ones up on a device that is down, but for that one. */
  lemma {:induction false} StepBound(c: Config, ev: Event)
    requires Bound(c) && Enabled(c, ev)
    ensures Bound(Step(c, ev)) <==> Ties(c, ev)
  {
    match ev
    case Open(k, e) => PutBound(c, k, Opened(c, c.vlans[k], e));
    case Stop(k) => PutBound(c, k, c.vlans[k].(up := false));
    case SetMac(k, a, err) => PutBound(c, k, c.vlans[k].(mac := a));
    case SetFlags(k, a, p, _) => PutBound(c, k, c.vlans[k].(allmulti := a, promisc := p));
    case SetLoose(k, loose) => PutBound(c, k, c.vlans[k].(loose := loose));
    case Register(k, v) => PutBound(c, k, v);
    case Unregister(k) => PutBound(c, k, NoVlan);
    case ChangeAddr(_, _) =>
    case RealDown =>
    case RealUp(_) =>
  }

  /** Bound from the start of a run to its end. */
  ghost predicate BoundThroughout(c: Config, evs: seq<Event>)
    requires Calm(c, evs)
    decreases |evs|
  {
    Bound(c) && (evs == [] || BoundThroughout(Step(c, evs[0]), evs[1..]))
  }

  predicate TiesThroughout(c: Config, evs: seq<Event>)
    requires Calm(c, evs)
    decreases |evs|
  {
    evs == [] || (Ties(c, evs[0]) && TiesThroughout(Step(c, evs[0]), evs[1..]))
  }

  /**
   * Over every run, only loosely bound VLANs are ever up on a device that is down, if and only
   * if the flag is never cleared on such a VLAN.
   */
  lemma {:induction false} RunBound(c: Config, evs: seq<Event>)
    requires Bound(c) && Calm(c, evs)
    ensures BoundThroughout(c, evs) <==> TiesThroughout(c, evs)
    ensures TiesThroughout(c, evs) ==> Bound(Run(c, evs))
    decreases |evs|
  {
    if evs != [] {
      StepBound(c, evs[0]);
      if Ties(c, evs[0]) {
        RunBound(Step(c, evs[0]), evs[1..]);
      }
    }
  }

  /** The references follow from the configuration: two exact accounts of it agree. */
  lemma OneLedger(b: Others, r: Real, s: Real)
    requires Good(b, r) && Good(b, s) && r.c == s.c
    ensures r == s
  {
    assert forall e :: r.uc[e] == s.uc[e];
    assert r.uc == s.uc;
  }

  /** The counters fall short by x and y. */
  function Less(r: Real, x: int, y: int): Real {
    r.(allmulti := r.allmulti - x, promisc := r.promisc - y)
  }

  lemma Fallen(b: Others, r: Real, x: int, y: int)
    requires Good(b, r)
    ensures Good(b, Less(r, x, y)) <==> x == 0 && y == 0
  {
  }

  lemma Same(u: multiset<Addr>, v: Vlan, w: Vlan)
    requires v.Vlan? && w.Vlan? && v.mac == w.mac && Refers(v) == Refers(w) && (Refers(v) ==> v.mac in u)
    ensures Take(Give(u, v), w) == u
  {
  }

  /** A change of flags keeps the accounts exactly when no ignored increment failed. */
  lemma {:induction false} FlagsGood(b: Others, r: Real, k: nat, v: Vlan, w: Vlan, x: int, y: int)
    requires Good(b, r) && Present(r.c, k) && v == r.c.vlans[k]
    requires w.Vlan? && w == v.(allmulti := w.allmulti, promisc := w.promisc)
    ensures var s := Real(Put(r.c, k, w), r.uc, r.allmulti - One(Up(v) && v.allmulti) + One(Up(w) && w.allmulti) - x,
                          r.promisc - One(Up(v) && v.promisc) + One(Up(w) && w.promisc) - y);
            Good(b, s) <==> x == 0 && y == 0
  {
    ReplaceGood(b, r, k, w);
    hide Good;
    Same(r.uc, v, w);
    Fallen(b, Replace(r, k, w), x, y);
  }

  lemma Undone(u: multiset<Addr>, m: Addr)
    ensures u + multiset{m} - multiset{m} == u
  {
  }

  lemma Exchanged(u: multiset<Addr>, a: Addr, m: Addr)
    requires m in u
    ensures u + multiset{a} - multiset{m} == u - multiset{m} + multiset{a}
  {
  }

  lemma {:induction false} ReplaceLedger(b: Others, r: Real, k: nat, v: Vlan)
    requires k < |r.c.vlans| && ShortBy(b, r, 0, 0) && Counted(b, r)
    ensures ShortBy(b, Replace(r, k, v), 0, 0) && Counted(b, Replace(r, k, v))
  {
    ReplaceShort(b, r, k, v, 0, 0);
    ReplaceCounted(b, r, k, v);
  }

  /** Address list of the real device after vlan_sync_address for a VLAN that is up. */
  function SyncUc(u: multiset<Addr>, v: Vlan, now: Addr, err: int): multiset<Addr>
    requires v.Vlan?
  {
    if v.saved == now then u
    else if v.mac != v.saved && v.mac == now then u - multiset{v.mac}
    else if v.mac == v.saved && v.mac != now && err >= 0 then u + multiset{v.mac}
    else u
  }

  predicate Missed(v: Vlan, was: Addr, now: Addr, err: int) {
    Up(v) && v.mac == was && was != now && err < 0
  }

  /** One VLAN catches up with the new address; if its dev_uc_add fails, one more old reference is missing. */
  lemma {:induction false} SyncShort(b: Others, r: Real, k: nat, v: Vlan, c: int, err: int)
    requires k < |r.c.vlans| && v == r.c.vlans[k] && Up(v) && ShortBy(b, r, v.saved, c) && Counted(b, r)
    ensures var now := r.c.addr;
            var s := r.(c := Put(r.c, k, v.(saved := now)), uc := SyncUc(r.uc, v, now, err));
            ShortBy(b, s, v.saved, c + One(Missed(v, v.saved, now, err))) && Counted(b, s)
  {
    var w := v.(saved := r.c.addr);
    ReplaceShort(b, r, k, w, v.saved, c);
    ReplaceCounted(b, r, k, w);
    SyncCase(r.uc, v, r.c.addr, err);
    assert r.c.vlans[k := v] == r.c.vlans;
  }

  lemma SyncCase(u: multiset<Addr>, v: Vlan, now: Addr, err: int)
    requires Up(v) && (Refers(v) ==> v.mac in u)
    ensures var t := Take(Give(u, v), v.(saved := now));
            if Missed(v, v.saved, now, err) then t == SyncUc(u, v, now, err) + multiset{v.saved}
            else t == SyncUc(u, v, now, err)
  {
  }

  lemma ShortMeans(b: Others, r: Real, a: Addr, c: int)
    requires ShortBy(b, r, a, c) && Counted(b, r) && Fresh(r.c)
    ensures Good(b, r) <==> c == 0
  {
    assert r.uc[a] == b.uc[a] + DueAll(r.c.vlans, |r.c.vlans|, a) - c;
  }

  /**
   * An ignored failure that matters: a VLAN shares the real device's address 2, the address
   * becomes 4, and dev_uc_add fails.  The VLAN is still up with address 2, to which the real
   * device has no reference.
   */
  lemma {:induction false} LostReference()
    ensures var b := Others(multiset{}, 0, 0);
            var v := Vlan(2, true, false, false, false, 2);
            var r, ev := Real(Config(2, true, [v]), multiset{}, 0, 0), ChangeAddr(4, [-12]);
            && Good(b, r) && Enabled(r.c, ev) && !Heeded(r.c, ev)
            && var r' := Real(Step(r.c, ev), SyncUc(r.uc, v, 4, -12), 0, 0);
               Up(r'.c.vlans[0]) && r'.c.vlans[0].mac == 2 != r'.c.addr && 2 !in r'.uc && !Good(b, r')
  {
    var v := Vlan(2, true, false, false, false, 2);
    forall e: Addr
      ensures DueAll([v], 1, e) == 0
    {
      assert DueAll([v], 0, e) == 0;
    }
    assert AllmultiDue([v], 0) == 0 && PromiscDue([v], 0) == 0;
    assert Misses([v], 0, 2, 4, [-12]) == 0;
    var w := v.(saved := 4);
    assert DueAll([w], 0, 2) == 0 && DueAll([w], 1, 2) == 1;
  }

  lemma {:induction false} NoneDue(vs: seq<Vlan>, n: nat, e: Addr)
    requires n <= |vs| && forall i :: 0 <= i < |vs| ==> vs[i] == NoVlan
    ensures DueAll(vs, n, e) == 0 && AllmultiDue(vs, n) == 0 && PromiscDue(vs, n) == 0
    decreases n
  {
    if n != 0 {
      NoneDue(vs, n - 1, e);
    }
  }

  // ---- the devices ----

  class RealDevice {
    var r: Real
    ghost const b: Others

    /** A real device without VLANs. */
    constructor (addr: Addr, up: bool, slots: nat, uc: multiset<Addr>, allmulti: int, promisc: int)
      ensures r.c == Config(addr, up, seq(slots, i => NoVlan)) && b == Others(uc, allmulti, promisc) && Good(b, r)
    {
      r := Real(Config(addr, up, seq(slots, i => NoVlan)), uc, allmulti, promisc);
      b := Others(uc, allmulti, promisc);
      new;
      forall e: Addr ensures DueAll(r.c.vlans, slots, e) == 0 {
        NoneDue(r.c.vlans, slots, e);
      }
      NoneDue(r.c.vlans, slots, 0);
    }

    /** vlan_dev_open, and the core marking the VLAN up: all that is due is taken, or nothing. */
    method Open(k: nat, e: Errs) returns (err: int)
      requires Good(b, r) && Present(r.c, k) && !r.c.vlans[k].up
      modifies this
      ensures Good(b, r) && err == OpenErr(old(r.c), old(r.c.vlans[k]), e)
      ensures r.c == Put(old(r.c), k, Opened(old(r.c), old(r.c.vlans[k]), e))
      ensures err != 0 ==> r == old(r)
    {
      var v := r.c.vlans[k];
      assert r.c.vlans[k := v] == r.c.vlans;
      var s;
      err, s := Acquire(r, v, e);
      if err == 0 {
        var w := v.(up := true, saved := r.c.addr);
        ReplaceGood(b, r, k, w);
        assert s.(c := Put(r.c, k, w)) == Replace(r, k, w);
        s := s.(c := Put(r.c, k, w));
      }
      r := s;
    }

    /** The calls vlan_dev_open makes on the real device, with their unwinding. */
    static method Acquire(r: Real, v: Vlan, e: Errs) returns (err: int, s: Real)
      requires v.Vlan?
      ensures err == OpenErr(r.c, v, e) && (err != 0 ==> s == r)
      ensures err == 0 ==> s == Real(r.c, if v.mac != r.c.addr then r.uc + multiset{v.mac} else r.uc,
                                     r.allmulti + One(v.allmulti), r.promisc + One(v.promisc))
    {
      s := r;
      if !r.c.up && !v.loose {
        return ENETDOWN, s;
      }
      if v.mac != r.c.addr {
        if e.uc < 0 {
          return e.uc, s;
        }
        s := s.(uc := s.uc + multiset{v.mac});
      }
      err, s := Counts(s, v, e);
      if err < 0 && v.mac != r.c.addr {
        Undone(r.uc, v.mac);
        s := s.(uc := s.uc - multiset{v.mac});
      }
    }

    /** Both counters are raised, or neither. */
    static method Counts(r: Real, v: Vlan, e: Errs) returns (err: int, s: Real)
      requires v.Vlan?
      ensures err == if v.allmulti && e.allmulti < 0 then e.allmulti
                     else if v.promisc && e.promisc < 0 then e.promisc else 0
      ensures s == if err != 0 then r
                   else r.(allmulti := r.allmulti + One(v.allmulti), promisc := r.promisc + One(v.promisc))
    {
      s := r;
      if v.allmulti {
        if e.allmulti < 0 {
          return e.allmulti, s;
        }
        s := s.(allmulti := s.allmulti + 1);
      }
      if v.promisc {
        if e.promisc < 0 {
          if v.allmulti {
            s := s.(allmulti := s.allmulti - 1);
          }
          return e.promisc, s;
        }
        s := s.(promisc := s.promisc + 1);
      }
      return 0, s;
    }

    /** vlan_dev_stop, and the core marking the VLAN down. */
    method Stop(k: nat)
      requires Present(r.c, k) && r.c.vlans[k].up && r.c.vlans[k].saved == r.c.addr
      modifies this
      ensures r == Replace(old(r), k, old(r.c.vlans[k]).(up := false))
    {
      var v := r.c.vlans[k];
      var s := Surrender(r, v);
      r := s.(c := Put(s.c, k, v.(up := false)));
    }

    /** The calls vlan_dev_stop makes on the real device. */
    static method Surrender(r: Real, v: Vlan) returns (s: Real)
      requires v.Vlan?
      ensures s == Real(r.c, if v.mac != r.c.addr then r.uc - multiset{v.mac} else r.uc,
                        r.allmulti - One(v.allmulti), r.promisc - One(v.promisc))
    {
      s := r;
      if v.allmulti {
        s := s.(allmulti := s.allmulti - 1);
      }
      if v.promisc {
        s := s.(promisc := s.promisc - 1);
      }
      if v.mac != r.c.addr {
        s := s.(uc := s.uc - multiset{v.mac});
      }
    }

    /** vlan_dev_set_mac_address. */
    method SetMac(k: nat, a: Addr, e: int) returns (err: int)
      requires Good(b, r) && Present(r.c, k)
      modifies this
      ensures Good(b, r) && err == MacErr(old(r.c), old(r.c.vlans[k]), a, e)
      ensures r.c == MacSet(old(r.c), k, a, e)
    {
      var v := r.c.vlans[k];
      if !IsValid(a) {
        return EADDRNOTAVAIL;
      }
      ReplaceGood(b, r, k, v.(mac := a));
      var u;
      err, u := Exchange(r.uc, r.c.addr, v, a, e);
      if err == 0 {
        assert r.(c := Put(r.c, k, v.(mac := a)), uc := u) == Replace(r, k, v.(mac := a));
        r := r.(c := Put(r.c, k, v.(mac := a)), uc := u);
      }
    }

    /** The new reference is taken before the old one is given up. */
    static method Exchange(uc: multiset<Addr>, addr: Addr, v: Vlan, a: Addr, e: int)
      returns (err: int, u: multiset<Addr>)
      requires v.Vlan? && (Up(v) ==> v.saved == addr) && (Refers(v) ==> v.mac in uc)
      ensures err == if v.up && a != addr && e < 0 then e else 0
      ensures u == if err != 0 then uc else Take(Give(uc, v), v.(mac := a))
    {
      u := uc;
      if !v.up {
        return 0, u;
      }
      if a != addr {
        if e < 0 {
          return e, u;
        }
        u := u + multiset{a};
      }
      if v.mac != addr {
        Exchanged(uc, a, v.mac);
        u := u - multiset{v.mac};
      }
      return 0, u;
    }

    /** The core changing a VLAN's flags and telling vlan_dev_change_rx_flags, which ignores failures. */
    method SetFlags(k: nat, allmulti: bool, promisc: bool, e: Errs)
      requires Good(b, r) && Present(r.c, k)
      modifies this
      ensures r.c == FlagsSet(old(r.c), k, allmulti, promisc)
      ensures Good(b, r) <==> FlagsHeeded(old(r.c), k, allmulti, promisc, e)
    {
      var v := r.c.vlans[k];
      var w := v.(allmulti := allmulti, promisc := promisc);
      FlagsGood(b, r, k, v, w,
                One(Lost(v, v.allmulti, allmulti, e.allmulti)), One(Lost(v, v.promisc, promisc, e.promisc)));
      var a := Count(r.allmulti, v.up, v.allmulti, allmulti, e.allmulti);
      var p := Count(r.promisc, v.up, v.promisc, promisc, e.promisc);
      r := Real(Put(r.c, k, w), r.uc, a, p);
    }

    /** One flag of vlan_dev_change_rx_flags; the result of the call is not looked at. */
    static method Count(n: int, up: bool, was: bool, now: bool, err: int) returns (m: int)
      ensures m == n - One(up && was) + One(up && now) - One(up && !was && now && err < 0)
    {
      m := n;
      if up && was != now {
        if !now {
          m := n - 1;
        } else if err >= 0 {
          m := n + 1;
        }
      }
    }

    /** vlan_dev_change_flags for VLAN_FLAG_LOOSE_BINDING, which looks at neither device's state. */
    method SetLoose(k: nat, loose: bool)
      requires Good(b, r) && Present(r.c, k)
      modifies this
      ensures Good(b, r) && r == old(r).(c := Put(old(r.c), k, old(r.c.vlans[k]).(loose := loose)))
      ensures old(Bound(r.c)) ==> (Bound(r.c) <==> r.c.up || !old(r.c.vlans[k]).up || loose)
    {
      var v := r.c.vlans[k];
      var w := v.(loose := loose);
      ReplaceGood(b, r, k, w);
      Same(r.uc, v, w);
      if Bound(r.c) {
        PutBound(r.c, k, w);
      }
      r := r.(c := Put(r.c, k, w));
    }

    /** NETDEV_DOWN: VLANs that are not loosely bound go down with the real device. */
    method Down()
      requires Good(b, r)
      modifies this
      ensures Good(b, r) && r.c == Step(old(r.c), RealDown)
    {
      r := r.(c := r.c.(up := false));
      ghost var vs := r.c.vlans;
      var i := 0;
      while i < |r.c.vlans|
        invariant ShortBy(b, r, 0, 0) && Counted(b, r)
        invariant 0 <= i <= |r.c.vlans| == |vs| && !r.c.up && r.c.addr == old(r.c.addr)
        invariant forall j :: 0 <= j < |vs| ==> r.c.vlans[j] == if j < i then Lowered(vs[j]) else vs[j]
      {
        var v := r.c.vlans[i];
        if Up(v) && !v.loose {
          ReplaceLedger(b, r, i, v.(up := false));
          Stop(i);
        }
        i := i + 1;
      }
      assert r.c.vlans == Step(old(r.c), RealDown).vlans;
    }

    /** NETDEV_UP: VLANs that are not loosely bound come up with the real device; failures are ignored. */
    method ComeUp(es: seq<Errs>)
      requires Good(b, r) && |es| == |r.c.vlans|
      modifies this
      ensures Good(b, r) && r.c == Step(old(r.c), RealUp(es))
    {
      r := r.(c := r.c.(up := true));
      ghost var d := r.c;
      var i := 0;
      while i < |r.c.vlans|
        invariant Good(b, r) && 0 <= i <= |r.c.vlans| == |d.vlans| && r.c.up && r.c.addr == d.addr
        invariant forall j :: 0 <= j < |es| ==>
                    r.c.vlans[j] == if j < i then Raised(d, d.vlans[j], es[j]) else d.vlans[j]
      {
        var v := r.c.vlans[i];
        if v.Vlan? && !v.up && !v.loose {
          var _ := Open(i, es[i]);
        }
        i := i + 1;
      }
      assert r.c.vlans == Step(old(r.c), RealUp(es)).vlans;
    }

    /** NETDEV_CHANGEADDR after the real device has taken address a. */
    method ChangeAddr(a: Addr, errs: seq<int>)
      requires Good(b, r) && |errs| == |r.c.vlans|
      modifies this
      ensures r.c == Rebased(old(r.c), a)
      ensures ShortBy(b, r, old(r.c.addr), Misses(old(r.c.vlans), |errs|, old(r.c.addr), a, errs))
      ensures Good(b, r) <==> Misses(old(r.c.vlans), |errs|, old(r.c.addr), a, errs) == 0
    {
      ghost var c := r.c;
      r := r.(c := r.c.(addr := a));
      SyncAll(errs, c);
      ShortMeans(b, r, c.addr, Misses(c.vlans, |errs|, c.addr, a, errs));
    }

    /** The loop over the VLAN group, after the real device's address has changed from that in c. */
    method SyncAll(errs: seq<int>, ghost c: Config)
      requires r.c == c.(addr := r.c.addr) && |errs| == |c.vlans| && Fresh(c) && ShortBy(b, r, 0, 0) && Counted(b, r)
      modifies this
      ensures r.c == Rebased(c, old(r.c.addr))
      ensures ShortBy(b, r, c.addr, Misses(c.vlans, |errs|, c.addr, r.c.addr, errs)) && Counted(b, r)
    {
      ghost var a := r.c.addr;
      var i := 0;
      assert ShortBy(b, r, c.addr, 0);
      hide ShortBy, Counted, Missed;
      while i < |r.c.vlans|
        invariant 0 <= i <= |r.c.vlans| == |c.vlans| && r.c.up == c.up && r.c.addr == a
        invariant ShortBy(b, r, c.addr, Misses(c.vlans, i, c.addr, a, errs)) && Counted(b, r)
        invariant forall j :: 0 <= j < |errs| ==> r.c.vlans[j] == if j < i then Seen(c.vlans[j], a) else c.vlans[j]
      {
        SyncSlot(i, errs[i], c.addr, Misses(c.vlans, i, c.addr, a, errs));
        i := i + 1;
      }
      assert r.c.vlans == Rebased(c, a).vlans;
    }

    /** One turn of that loop: a VLAN that is down is skipped. */
    method SyncSlot(k: nat, err: int, ghost was: Addr, ghost m: int)
      requires k < |r.c.vlans| && (Up(r.c.vlans[k]) ==> r.c.vlans[k].saved == was)
      requires ShortBy(b, r, was, m) && Counted(b, r)
      modifies this
      ensures r.c == Put(old(r.c), k, Seen(old(r.c.vlans[k]), old(r.c.addr)))
      ensures ShortBy(b, r, was, m + One(Missed(old(r.c.vlans[k]), was, old(r.c.addr), err))) && Counted(b, r)
    {
      var v := r.c.vlans[k];
      if Up(v) {
        SyncShort(b, r, k, v, m, err);
        SyncAddress(k, err);
      } else {
        assert r.c.vlans[k := v] == r.c.vlans;
      }
    }

    /** vlan_sync_address. */
    method SyncAddress(k: nat, err: int)
      requires Present(r.c, k)
      modifies this
      ensures var v := old(r.c.vlans[k]);
              r == old(r).(c := Put(old(r.c), k, v.(saved := old(r.c.addr))),
                           uc := SyncUc(old(r.uc), v, old(r.c.addr), err))
    {
      var v, s := r.c.vlans[k], r;
      if v.saved == s.c.addr {
        assert s.c.vlans[k := v] == s.c.vlans;
        return;
      }
      if v.mac != v.saved && v.mac == s.c.addr {
        s := s.(uc := s.uc - multiset{v.mac});
      }
      if v.mac == v.saved && v.mac != s.c.addr && err >= 0 {
        s := s.(uc := s.uc + multiset{v.mac});
      }
      r := s.(c := Put(s.c, k, v.(saved := s.c.addr)));
    }

    method Register(k: nat, v: Vlan)
      requires Good(b, r) && Enabled(r.c, Event.Register(k, v))
      modifies this
      ensures Good(b, r) && r.c == Put(old(r.c), k, v)
    {
      ReplaceGood(b, r, k, v);
      r := r.(c := Put(r.c, k, v));
    }

    /** Unregistering closes the device first. */
    method Unregister(k: nat)
      requires Good(b, r) && Present(r.c, k)
      modifies this
      ensures Good(b, r) && r.c == Put(old(r.c), k, NoVlan)
    {
      if r.c.vlans[k].up {
        ReplaceGood(b, r, k, r.c.vlans[k].(up := false));
        Stop(k);
      }
      ReplaceGood(b, r, k, NoVlan);
      r := r.(c := Put(r.c, k, NoVlan));
    }

    /** Any one operation: the accounts stay exact if and only if no ignored call failed. */
    method Do(ev: Event)
      requires Good(b, r) && Enabled(r.c, ev)
      modifies this
      ensures r.c == Step(old(r.c), ev)
      ensures Good(b, r) <==> Heeded(old(r.c), ev)
      ensures old(Bound(r.c)) ==> (Bound(r.c) <==> Ties(old(r.c), ev))
    {
      if Bound(r.c) {
        StepBound(r.c, ev);
      }
      hide Bound;
      match ev
      case Open(k, e) =>
        if r.c.vlans[k].up {
          assert r.c.vlans[k := r.c.vlans[k]] == r.c.vlans;
        } else {
          var _ := Open(k, e);
        }
      case Stop(k) =>
        ReplaceGood(b, r, k, r.c.vlans[k].(up := false));
        Stop(k);
      case SetMac(k, a, err) =>
        var _ := SetMac(k, a, err);
      case SetFlags(k, a, p, e) =>
        SetFlags(k, a, p, e);
      case SetLoose(k, loose) =>
        SetLoose(k, loose);
      case ChangeAddr(a, errs) =>
        ChangeAddr(a, errs);
      case RealDown =>
        Down();
      case RealUp(es) =>
        ComeUp(es);
      case Register(k, v) =>
        Register(k, v);
      case Unregister(k) =>
        Unregister(k);
    }

    /** Any run of operations on the real device and its VLANs. */
    method Play(evs: seq<Event>)
      requires Good(b, r) && Calm(r.c, evs)
      modifies this
      ensures Good(b, r) && r.c == Run(old(r.c), evs)
      ensures old(Bound(r.c)) && TiesThroughout(old(r.c), evs) ==> Bound(r.c)
    {
      if Bound(r.c) {
        RunBound(r.c, evs);
      }
      hide Bound, Good;
      var i := 0;
      assert evs[0..] == evs;
      while i < |evs|
        invariant 0 <= i <= |evs| && Good(b, r)
        invariant Calm(r.c, evs[i..]) && Run(r.c, evs[i..]) == Run(old(r.c), evs)
      {
        assert evs[i..][1..] == evs[i + 1..];
        Do(evs[i]);
        i := i + 1;
      }
    }
  }

  /**
   * The failing calls: a loosely bound VLAN is opened on a device that is down, and then the flag
   * is cleared.  The accounts are exact, but the VLAN is up on a device that is down.
   */
  method FlagCleared() returns (d: RealDevice)
    ensures fresh(d) && Good(d.b, d.r) && !Bound(d.r.c)
    ensures !d.r.c.up && |d.r.c.vlans| == 1 && Up(d.r.c.vlans[0]) && !d.r.c.vlans[0].loose
  {
    d := new RealDevice(2, false, 1, multiset{}, 0, 0);
    d.Register(0, Vlan(2, false, false, false, true, 2));
    var _ := d.Open(0, Errs(0, 0, 0));
    d.SetLoose(0, false);
  }
}

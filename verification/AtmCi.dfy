/**
 * Choosing a VPI/VCI pair for an ATM connection (net/atm/common.c): check_ci looks into one hash
 * bucket, find_ci scans all candidate pairs like an odometer from where the last scan stopped.
 */
module AtmCi {
  const ANY := -1          // ATM_VPI_ANY and ATM_VCI_ANY
  const FIRST := 32        // ATM_NOT_RSV_VCI
  const BUCKETS := 32      // VCC_HTABLE_SIZE
  const UNSPEC := -2       // ATM_VPI_UNSPEC and ATM_VCI_UNSPEC
  const EADDRINUSE := -98
  const EINVAL := -22

  /** tx and rx: the traffic class in that direction is not ATM_NONE. */
  datatype Vcc = Vcc(dev: nat, addr: bool, vpi: int, vci: int, tx: bool, rx: bool)

  predicate Clash(w: Vcc, me: Vcc, vpi: int, vci: int) {
    w.dev == me.dev && w.addr && w.vpi == vpi && w.vci == vci && ((w.tx && me.tx) || (w.rx && me.rx))
  }

  /** Every connection is in the bucket of its VCI. */
  predicate Hashed(t: seq<seq<Vcc>>) {
    |t| == BUCKETS && forall k, i :: 0 <= k < |t| && 0 <= i < |t[k]| ==> t[k][i].vci % BUCKETS == k
  }

  /** Some connection anywhere in the table is in the way. */
  ghost predicate InUse(t: seq<seq<Vcc>>, me: Vcc, vpi: int, vci: int) {
    exists k, i :: 0 <= k < |t| && 0 <= i < |t[k]| && Clash(t[k][i], me, vpi, vci)
  }

  /** __vcc_insert_socket: at the head of the bucket. */
  function Insert(t: seq<seq<Vcc>>, v: Vcc): seq<seq<Vcc>>
    requires |t| == BUCKETS
  {
    var k := v.vci % BUCKETS;
    t[k := [v] + t[k]]
  }

  /** No two addressed connections of a device collide in a direction. */
  ghost predicate Apart(t: seq<seq<Vcc>>) {
    forall k, i, l, j :: 0 <= k < |t| && 0 <= i < |t[k]| && 0 <= l < |t| && 0 <= j < |t[l]| && (k != l || i != j) ==>
      !(t[k][i].addr && Clash(t[l][j], t[k][i], t[k][i].vpi, t[k][i].vci))
  }

  lemma {:induction false} InsertHashed(t: seq<seq<Vcc>>, v: Vcc)
    requires Hashed(t)
    ensures Hashed(Insert(t, v))
  {
    var k := v.vci % BUCKETS;
    var u: seq<seq<Vcc>> := Insert(t, v);
    forall l, i | 0 <= l < |u| && 0 <= i < |u[l]|
      ensures u[l][i].vci % BUCKETS == l
    {
      if l == k && i > 0 {
        assert u[l][i] == t[k][i - 1];
      }
    }
  }

  /** Adding a connection under a pair that check_ci accepts keeps all connections apart. */
  lemma {:induction false} InsertApart(t: seq<seq<Vcc>>, v: Vcc)
    requires Hashed(t) && Apart(t) && !InUse(t, v, v.vpi, v.vci)
    ensures Apart(Insert(t, v))
  {
    var h := v.vci % BUCKETS;
    var u: seq<seq<Vcc>> := Insert(t, v);
    forall k, i, l, j | 0 <= k < |u| && 0 <= i < |u[k]| && 0 <= l < |u| && 0 <= j < |u[l]| && (k != l || i != j)
      ensures !(u[k][i].addr && Clash(u[l][j], u[k][i], u[k][i].vpi, u[k][i].vci))
    {
      var i' := if k == h then i - 1 else i;
      var j' := if l == h then j - 1 else j;
      if k == h && i == 0 {
        assert u[k][i] == v && u[l][j] == t[l][j'];
      } else if l == h && j == 0 {
        assert u[l][j] == v && u[k][i] == t[k][i'];
      } else {
        assert u[k][i] == t[k][i'] && u[l][j] == t[l][j'];
      }
    }
  }

  // ---- the order of the scan ----

  /** A search: the halves asked for, and how many VPIs and VCIs the device has. */
  datatype Ask = Ask(vpi: int, vci: int, vpis: int, vcis: int)

  predicate Proper(a: Ask) {
    1 <= a.vpis && FIRST < a.vcis
  }

  /** What the caller may get: the halves asked for, the others within the device's range. */
  predicate Cand(a: Ask, q: int, d: int) {
    && (if a.vpi != ANY then q == a.vpi else 0 <= q < a.vpis)
    && (if a.vci != ANY then d == a.vci else FIRST <= d < a.vcis)
  }

  /** The scan from (p0, c0): the rest of VPI p0, the VPIs above, those below, the start of VPI p0. */
  function Phase(p0: int, c0: int, q: int, d: int): nat {
    if q > p0 then 1 else if q < p0 then 2 else if d >= c0 then 0 else 3
  }

  predicate Before(p0: int, c0: int, q: int, d: int, p: int, c: int) {
    var f, g := Phase(p0, c0, q, d), Phase(p0, c0, p, c);
    f < g || (f == g && (q < p || (q == p && d < c)))
  }

  function NextC(a: Ask, c: int): int {
    if a.vci != ANY then c else if c + 1 >= a.vcis then FIRST else c + 1
  }

  function NextP(a: Ask, p: int, c: int): int {
    if (NextC(a, c) == FIRST || a.vci != ANY) && a.vpi == ANY then (if p + 1 >= a.vpis then 0 else p + 1) else p
  }

  /** One step of the odometer passes over no candidate, and ends at the start only after the last. */
  lemma OdometerStep(a: Ask, p0: int, c0: int, p: int, c: int, q: int, d: int)
    requires Proper(a) && (a.vpi == ANY || a.vci == ANY)
    requires Cand(a, p0, c0) && Cand(a, p, c) && Cand(a, q, d)
    ensures var p', c' := NextP(a, p, c), NextC(a, c);
            && Cand(a, p', c')
            && ((p' == p0 && c' == c0) || Before(p0, c0, p, c, p', c'))
            && (p' == p0 && c' == c0 ==> Before(p0, c0, q, d, p, c) || (q == p && d == c))
            && (Before(p0, c0, q, d, p', c') ==> Before(p0, c0, q, d, p, c) || (q == p && d == c))
  {
  }

  /** A cached VPI is only brought back into range from above, a cached VCI from both sides. */
  function StartP(a: Ask, p: int): int {
    if a.vpi != ANY then a.vpi else if p >= a.vpis then 0 else p
  }

  function StartC(a: Ask, c: int): int {
    if a.vci != ANY then a.vci else if c < FIRST || c >= a.vcis then FIRST else c
  }

  /** All candidates that come before (p, c) are taken. */
  ghost predicate TakenBefore(t: seq<seq<Vcc>>, me: Vcc, a: Ask, p0: int, c0: int, p: int, c: int) {
    forall q, d :: Cand(a, q, d) && Before(p0, c0, q, d, p, c) ==> InUse(t, me, q, d)
  }

  ghost predicate AllTaken(t: seq<seq<Vcc>>, me: Vcc, a: Ask) {
    forall q, d :: Cand(a, q, d) ==> InUse(t, me, q, d)
  }

  lemma {:induction false} StepTaken(t: seq<seq<Vcc>>, me: Vcc, a: Ask, p0: int, c0: int, p: int, c: int)
    requires Proper(a) && (a.vpi == ANY || a.vci == ANY) && Cand(a, p0, c0) && Cand(a, p, c)
    requires TakenBefore(t, me, a, p0, c0, p, c) && InUse(t, me, p, c)
    ensures var p', c' := NextP(a, p, c), NextC(a, c);
            && Cand(a, p', c') && TakenBefore(t, me, a, p0, c0, p', c')
            && (if p' == p0 && c' == c0 then AllTaken(t, me, a) else Before(p0, c0, p, c, p', c'))
  {
    var p', c' := NextP(a, p, c), NextC(a, c);
    forall x, y | Cand(a, x, y)
      ensures p' == p0 && c' == c0 ==> InUse(t, me, x, y)
      ensures Before(p0, c0, x, y, p', c') ==> InUse(t, me, x, y)
    {
      OdometerStep(a, p0, c0, p, c, x, y);
    }
    OdometerStep(a, p0, c0, p, c, p, c);
  }

  // ---- a start outside the range ----

  /** The odometer after n steps. */
  function Turned(a: Ask, p: int, c: int, n: nat): (int, int)
    decreases n, a
  {
    if n == 0 then (p, c)
    else
      var (q, d) := Turned(a, p, c, n - 1);
      (NextP(a, q, d), NextC(a, d))
  }

  /** find_ci stops at (q, d), n steps from where it started: the first pair on its way that is free. */
  ghost predicate Stops(t: seq<seq<Vcc>>, me: Vcc, a: Ask, p: int, c: int, n: nat, q: int, d: int) {
    && Turned(a, p, c, n) == (q, d) && !InUse(t, me, q, d)
    && forall m: nat :: m < n ==> InUse(t, me, Turned(a, p, c, m).0, Turned(a, p, c, m).1)
  }

  /** The VPI is free and the scan may start at (p, c), be p negative or not. */
  predicate Startable(a: Ask, p: int, c: int) {
    Proper(a) && a.vpi == ANY && p < a.vpis && (if a.vci != ANY then c == a.vci else FIRST <= c < a.vcis)
  }

  lemma {:induction false} TurnedCand(a: Ask, p: int, c: int, n: nat)
    requires Proper(a) && (a.vpi == ANY || a.vci == ANY) && Cand(a, p, c)
    ensures Cand(a, Turned(a, p, c, n).0, Turned(a, p, c, n).1)
    decreases n
  {
    if n != 0 {
      TurnedCand(a, p, c, n - 1);
      var (q, d) := Turned(a, p, c, n - 1);
      OdometerStep(a, p, c, q, d, q, d);
    }
  }

  /** From the n-th position of a scan within the range, the start comes again. */
  lemma {:induction false} ComesBack(a: Ask, p0: int, c0: int, n: nat) returns (k: nat)
    requires Proper(a) && (a.vpi == ANY || a.vci == ANY) && Cand(a, p0, c0)
    ensures k > n && Turned(a, p0, c0, k) == (p0, c0)
    decreases var (p, c) := Turned(a, p0, c0, n); 4 - Phase(p0, c0, p, c),
              a.vpis - Turned(a, p0, c0, n).0, a.vcis - Turned(a, p0, c0, n).1
  {
    TurnedCand(a, p0, c0, n);
    var (p, c) := Turned(a, p0, c0, n);
    OdometerStep(a, p0, c0, p, c, p, c);
    k := n + 1;
    if Turned(a, p0, c0, k) != (p0, c0) {
      k := ComesBack(a, p0, c0, k);
    }
  }

  /** From a negative VPI the scan moves up and never comes back. */
  lemma {:induction false} StaysAbove(a: Ask, p0: int, c0: int, n: nat)
    requires Startable(a, p0, c0) && p0 < 0 && n >= 1
    ensures var (p, c) := Turned(a, p0, c0, n);
            && (a.vci == ANY ==> FIRST <= c)
            && (p > p0 || (p == p0 && a.vci == ANY && c > c0))
    decreases n
  {
    if n == 1 {
      assert Turned(a, p0, c0, 0) == (p0, c0);
    } else {
      StaysAbove(a, p0, c0, n - 1);
    }
  }

  /** The odometer is back at its start after n steps. */
  predicate Back(a: Ask, p: int, c: int, n: nat) {
    n >= 1 && Turned(a, p, c, n) == (p, c)
  }

  /**
   * With every pair taken, find_ci ends only when the odometer is back at its start. With a free VPI
   * it comes back if and only if the cached VPI it started from was not negative.
   */
  lemma {:induction false} EndsIff(a: Ask, p: int, c: int)
    requires Startable(a, p, c)
    ensures (exists n :: Back(a, p, c, n)) <==> p >= 0
  {
    if p >= 0 {
      var k := ComesBack(a, p, c, 0);
      assert Back(a, p, c, k);
    } else {
      forall n: nat
        ensures !Back(a, p, c, n)
      {
        if n >= 1 {
          StaysAbove(a, p, c, n);
        }
      }
    }
  }

  /** The loop of find_ci ends: at a free pair, or back where it started. */
  ghost predicate Halts(t: seq<seq<Vcc>>, me: Vcc, a: Ask, p: int, c: int) {
    || (exists n, q, d :: Stops(t, me, a, p, c, n, q, d))
    || (exists n :: Back(a, p, c, n))
  }

  /** From a negative VPI the loop ends if and only if some pair on its way is free; from any other it ends. */
  lemma {:induction false} HaltsIff(t: seq<seq<Vcc>>, me: Vcc, a: Ask, p: int, c: int)
    requires Startable(a, p, c)
    ensures Halts(t, me, a, p, c) <==> p >= 0 || exists n, q, d :: Stops(t, me, a, p, c, n, q, d)
  {
    EndsIff(a, p, c);
  }

  /** A table without connections. */
  function Nobody(): seq<seq<Vcc>> {
    seq(BUCKETS, i => [])
  }

  /**
   * With a free VPI, what find_ci returns is within the range for every table if and only if the
   * cached VPI is not negative.
   */
  lemma {:induction false} InRangeIff(a: Ask, p: int, c: int, me: Vcc)
    requires Startable(a, p, c)
    ensures (forall t, n, q, d :: Hashed(t) && Stops(t, me, a, p, c, n, q, d) ==> Cand(a, q, d)) <==> p >= 0
  {
    if p >= 0 {
      forall t, n, q, d | Hashed(t) && Stops(t, me, a, p, c, n, q, d)
        ensures Cand(a, q, d)
      {
        TurnedCand(a, p, c, n);
      }
    } else {
      assert Hashed(Nobody()) && Stops(Nobody(), me, a, p, c, 0, p, c) && !Cand(a, p, c);
    }
  }

  /**
   * check_ci overlooks a connection that is in the table but not yet marked: a second one gets the
   * same pair, and once both are marked they collide.
   */
  lemma {:induction false} NotYetMarked(v: Vcc)
    requires !v.addr && (v.tx || v.rx)
    ensures !InUse(Insert(Nobody(), v), v, v.vpi, v.vci)
    ensures var on := v.(addr := true);
            !Apart(Insert(Insert(Nobody(), on), on))
  {
    var on, k := v.(addr := true), v.vci % BUCKETS;
    var t := Insert(Insert(Nobody(), on), on);
    assert t[k] == [on, on];
    assert Clash(t[k][1], t[k][0], t[k][0].vpi, t[k][0].vci);
  }

  class Table {
    var vccs: seq<seq<Vcc>>
    var p: int    // the scan's position, kept between calls
    var c: int

    constructor ()
      ensures vccs == Nobody() && p == 0 && c == 0
    {
      vccs, p, c := Nobody(), 0, 0;
    }

    /** check_ci: one bucket decides for the whole table. */
    method CheckCi(me: Vcc, vpi: int, vci: int) returns (err: int)
      requires Hashed(vccs)
      ensures err == if InUse(vccs, me, vpi, vci) then EADDRINUSE else 0
    {
      var k := vci % BUCKETS;
      var l, i := vccs[k], 0;
      while i < |l|
        invariant 0 <= i <= |l| && forall j :: 0 <= j < i ==> !Clash(l[j], me, vpi, vci)
      {
        if Clash(l[i], me, vpi, vci) {
          assert Clash(vccs[k][i], me, vpi, vci);
          return EADDRINUSE;
        }
        i := i + 1;
      }
      return 0;
    }

    /**
     * find_ci: the first free candidate in scan order, or an error if and only if there is none.
     * From a negative cached VPI it is the first free pair on its way, in range or not; if there
     * is none the scan does not end.
     */
    method FindCi(me: Vcc, a: Ask) returns (err: int, q: int, d: int)
      requires Hashed(vccs) && Proper(a)
      requires a.vpi == ANY && p < 0 ==> exists n, x, y :: Stops(vccs, me, a, p, StartC(a, c), n, x, y)
      modifies this`p, this`c
      ensures err == 0 ==> !InUse(vccs, me, q, d)
      ensures a.vpi != ANY || old(p) >= 0 ==>
                && err == (if AllTaken(vccs, me, a) then EADDRINUSE else 0)
                && (err == 0 ==> Cand(a, q, d))
      ensures a.vpi != ANY && a.vci != ANY ==> p == old(p) && c == old(c)
      ensures (a.vpi == ANY || a.vci == ANY) && (a.vpi != ANY || old(p) >= 0) ==>
                var p0, c0 := StartP(a, old(p)), StartC(a, old(c));
                if err == 0 then p == q && c == d && TakenBefore(vccs, me, a, p0, c0, q, d) else p == p0 && c == c0
      ensures a.vpi == ANY && old(p) < 0 ==>
                err == 0 && p == q && c == d && exists n :: Stops(vccs, me, a, old(p), StartC(a, old(c)), n, q, d)
    {
      q, d := a.vpi, a.vci;
      if a.vpi != ANY && a.vci != ANY {
        err := CheckCi(me, a.vpi, a.vci);
        return;
      }
      if a.vpi != ANY {
        p := a.vpi;
      } else if p >= a.vpis {
        p := 0;
      }
      if a.vci != ANY {
        c := a.vci;
      } else if c < FIRST || c >= a.vcis {
        c := FIRST;
      }
      if Cand(a, p, c) {
        err, q, d := Scan(me, a);
      } else {
        err, q, d := ScanUp(me, a);
      }
    }

    /** The loop of find_ci from a position within the range. */
    method Scan(me: Vcc, a: Ask) returns (err: int, q: int, d: int)
      requires Hashed(vccs) && Proper(a) && (a.vpi == ANY || a.vci == ANY) && Cand(a, p, c)
      modifies this`p, this`c
      ensures err == 0 ==> Cand(a, q, d) && !InUse(vccs, me, q, d)
      ensures err == 0 ==> p == q && c == d && TakenBefore(vccs, me, a, old(p), old(c), q, d)
      ensures err != 0 ==> err == EADDRINUSE && AllTaken(vccs, me, a) && p == old(p) && c == old(c)
    {
      var p0, c0 := p, c;
      while true
        invariant Cand(a, p, c) && TakenBefore(vccs, me, a, p0, c0, p, c)
        decreases 4 - Phase(p0, c0, p, c), a.vpis - p, a.vcis - c
      {
        err := CheckCi(me, p, c);
        if err == 0 {
          return 0, p, c;
        }
        StepTaken(vccs, me, a, p0, c0, p, c);
        Advance(a);
        if p == p0 && c == c0 {
          return EADDRINUSE, a.vpi, a.vci;
        }
      }
    }

    /** The same loop from a negative VPI, which it never reaches again. */
    method ScanUp(me: Vcc, a: Ask) returns (err: int, q: int, d: int)
      requires Hashed(vccs) && Startable(a, p, c) && p < 0
      requires exists n, x, y :: Stops(vccs, me, a, p, c, n, x, y)
      modifies this`p, this`c
      ensures err == 0 && p == q && c == d && exists n :: Stops(vccs, me, a, old(p), old(c), n, q, d)
    {
      ghost var last: nat, x: int, y: int :| Stops(vccs, me, a, p, c, last, x, y);
      var p0, c0 := p, c;
      ghost var n: nat := 0;
      while true
        invariant n <= last && (p, c) == Turned(a, p0, c0, n)
        invariant forall m: nat :: m < n ==> InUse(vccs, me, Turned(a, p0, c0, m).0, Turned(a, p0, c0, m).1)
        decreases last - n
      {
        err := CheckCi(me, p, c);
        if err == 0 {
          assert Stops(vccs, me, a, p0, c0, n, p, c);
          return 0, p, c;
        }
        Advance(a);
        n := n + 1;
        StaysAbove(a, p0, c0, n);
        if p == p0 && c == c0 {
          return EADDRINUSE, a.vpi, a.vci;
        }
      }
    }

    method Advance(a: Ask)
      modifies this`p, this`c
      ensures p == NextP(a, old(p), old(c)) && c == NextC(a, old(c))
    {
      if a.vci == ANY {
        c := c + 1;
        if c >= a.vcis {
          c := FIRST;
        }
      }
      if (c == FIRST || a.vci != ANY) && a.vpi == ANY {
        p := p + 1;
        if p >= a.vpis {
          p := 0;
        }
      }
    }

    /** The start of __vcc_connect, under its lock: the range test, the search and the insertion. */
    method Connect(me: Vcc, a: Ask) returns (err: int)
      requires Hashed(vccs) && Apart(vccs) && Proper(a)
      requires a.vpi == ANY && p < 0 ==> exists n, x, y :: Stops(vccs, me, a, p, StartC(a, c), n, x, y)
      modifies this
      ensures Hashed(vccs) && Apart(vccs)
      ensures !InRange(a.vpi, a.vpis) || !InRange(a.vci, a.vcis) ==> err == EINVAL
      ensures InRange(a.vpi, a.vpis) && InRange(a.vci, a.vcis) && (a.vpi != ANY || old(p) >= 0) ==>
                err == if AllTaken(old(vccs), me, a) then EADDRINUSE else 0
      ensures err != 0 ==> vccs == old(vccs)
      ensures err == 0 ==> exists q, d ::
                && !InUse(old(vccs), me, q, d) && (a.vpi != ANY || old(p) >= 0 ==> Cand(a, q, d))
                && vccs == Insert(old(vccs), me.(vpi := q, vci := d))
      // Only a search with an unspecified VPI and a free VCI leaves a negative VPI behind.
      ensures old(p) >= 0 ==> (p < 0 <==> a.vpi == UNSPEC && a.vci == ANY)
    {
      if !InRange(a.vpi, a.vpis) || !InRange(a.vci, a.vcis) {
        return EINVAL;
      }
      var q, d;
      err, q, d := FindCi(me, a);
      if err == 0 {
        var v := me.(vpi := q, vci := d);
        SameClash(vccs, me, v, q, d);
        InsertHashed(vccs, v);
        InsertApart(vccs, v);
        vccs := Insert(vccs, v);
      }
    }
  }

  /** Fixed values must fit the device; -1 and -2 stand for "any" and "unspecified". */
  predicate InRange(x: int, n: int) {
    x == ANY || x == UNSPEC || 0 <= x < n
  }

  lemma SameClash(t: seq<seq<Vcc>>, me: Vcc, v: Vcc, q: int, d: int)
    requires v == me.(vpi := q, vci := d)
    ensures InUse(t, v, q, d) == InUse(t, me, q, d)
  {
  }

  /** A search with VPI -2 leaves -2 in the cache, and the next search for any VPI returns it. */
  method StrayVpi(me: Vcc, vpis: int, vcis: int) returns (q: int, d: int)
    requires 1 <= vpis && FIRST < vcis
    ensures q == UNSPEC && !Cand(Ask(ANY, ANY, vpis, vcis), q, d)
  {
    var t := new Table();
    var a := Ask(UNSPEC, ANY, vpis, vcis);
    assert !InUse(t.vccs, me, UNSPEC, FIRST) && Cand(a, UNSPEC, FIRST);
    var err, _, _ := t.FindCi(me, a);
    a := Ask(ANY, ANY, vpis, vcis);
    assert Stops(t.vccs, me, a, t.p, StartC(a, t.c), 0, t.p, StartC(a, t.c));
    err, q, d := t.FindCi(me, a);
    ghost var n: nat :| Stops(Nobody(), me, a, UNSPEC, StartC(a, FIRST), n, q, d);
    ghost var start := Turned(a, UNSPEC, StartC(a, FIRST), 0);
    assert !InUse(Nobody(), me, start.0, start.1);
  }
}

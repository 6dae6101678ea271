/**
 * The ingress side of an MPOA client in place: each operation of net/atm/mpoa_caches.c and each
 * handler of net/atm/mpc.c takes the client from one value of its state to the next.
 */
module MpoaClient {
  import opened MpoaCache

  lemma {:induction false} Balanced(w: Whole, p: Ptr, i: Info)
    requires Valid(w) && p in w.mem
    ensures var t := Take(w, p);
            && p in t.mem && p in Edit(t.mem, p, i)
            && Give(t.(mem := Edit(t.mem, p, i)), p) == w.(mem := Edit(w.mem, p, i))
            && Edit(t.mem, p, t.mem[p].info) == t.mem && Edit(w.mem, p, w.mem[p].info) == w.mem
  {
    Returned(w.mem, p, i);
    assert w.handles + multiset{p} - multiset{p} == w.handles;
    assert Edit(Inc(w.mem, p), p, w.mem[p].info) == Inc(w.mem, p);
  }

  lemma {:induction false} UnlinkInc(w: Whole, k: nat)
    requires Valid(w) && k < |w.sp|
    ensures var p := w.sp[k];
            && p in Unlinked(w.mem, p) && Unlinked(w.mem, p)[p].use == w.mem[p].use
            && Unlinked(Inc(w.mem, p), p) == Inc(Unlinked(w.mem, p), p)
  {
    Neighbours(w.head, w.mem, w.sp, k);
  }

  /** Taking a handle, removing the entry and putting the handle comes to removing the entry. */
  lemma {:induction false} HeldRemoval(w: Whole, k: nat, eg: Egress)
    requires Valid(w) && k < |w.sp|
    ensures var p := w.sp[k];
            var t := Take(w, p);
            && Valid(t) && t.sp == w.sp && p in Removed(t, k, eg).mem
            && Give(Removed(t, k, eg), p) == Removed(w, k, eg)
  {
    var p := w.sp[k];
    IncSound(w.head, w.mem, w.sp, w.handles, p);
    UnlinkInc(w, k);
    DecInc(Unlinked(w.mem, p), p);
    assert w.handles + multiset{p} - multiset{p} == w.handles;
  }

  lemma DecInc(m: Memory, p: Ptr)
    requires p in m && m[p].use > 0
    ensures p in Inc(m, p) && Dec(Inc(m, p), p) == m
  {
  }

  class Client {
    const eg: Egress
    var head: Ptr
    var mem: Memory
    var log: seq<Notice>
    ghost var sp: seq<Ptr>
    ghost var handles: multiset<Ptr>

    ghost function Now(): Whole
      reads this
    {
      Whole(head, mem, log, sp, handles)
    }

    constructor (eg: Egress)
      ensures Now() == EMPTY && Steady(Now())
    {
      this.eg := eg;
      head, mem, log, sp, handles := NULL, map[], [], [], multiset{};
    }

    /** The walk along the list. */
    method Find(q: Query) returns (p: Ptr)
      requires Valid(Now())
      ensures var k := First(mem, sp, q, 0);
              p == if k == |sp| then NULL else sp[k]
    {
      p := head;
      ghost var i := 0;
      while p != NULL
        invariant 0 <= i <= |sp| && p == (if i < |sp| then sp[i] else NULL)
        invariant First(mem, sp, q, i) == First(mem, sp, q, 0)
        decreases |sp| - i
      {
        if Hit(q, mem[p].info) {
          return;
        }
        Neighbours(head, mem, sp, i);
        p := mem[p].next;
        i := i + 1;
      }
    }

    /** in_cache_get and its two variants: a handle on the first match. */
    method Get(q: Query) returns (p: Ptr)
      requires Valid(Now())
      modifies this`mem, this`handles
      ensures var k := First(old(mem), sp, q, 0);
              if k == |sp| then p == NULL && Now() == old(Now())
              else p == sp[k] && p != NULL && Now() == Take(old(Now()), p)
    {
      p := Find(q);
      if p != NULL {
        mem, handles := Inc(mem, p), handles + multiset{p};
      }
    }

    /** in_cache_put: the entry is freed with the last reference, and not before. */
    method Put(p: Ptr)
      requires Valid(Now()) && p in handles
      modifies this`mem, this`handles
      ensures Valid(Now()) && Now() == Give(old(Now()), p)
      ensures p in mem <==> p in sp || p in handles
    {
      DecSound(head, mem, sp, handles, p);
      mem, handles := Dec(mem, p), handles - multiset{p};
    }

    /** in_cache_add_entry with the memory at p: a reference for the list and one for the caller. */
    method Add(p: Ptr, i: Info)
      requires Valid(Now()) && p !in mem && p != NULL
      modifies this
      ensures Valid(Now()) && sp == [p] + old(sp) && handles == old(handles) + multiset{p}
      ensures mem[p].info == i && Grown(old(mem), mem)
      ensures Now() == Whole(p, Fronted(old(head), old(mem), p, i), old(log), [p] + old(sp), old(handles) + multiset{p})
    {
      FrontedSound(head, mem, sp, handles, p, i);
      assert head == NULL <==> head !in mem;
      FrontedInfo(head, mem, p, i);
      hide Sound, Grown;
      if head != NULL {
        mem := mem[head := mem[head].(prev := p)];
      }
      mem := mem[p := Entry(head, NULL, 2, i)];
      head, sp, handles := p, [p] + sp, handles + multiset{p};
    }

    /** in_cache_remove_entry for entry k of the list. */
    method Remove(p: Ptr, ghost k: nat)
      requires Valid(Now()) && k < |sp| && p == sp[k]
      modifies this
      ensures Now() == Removed(old(Now()), k, eg)
    {
      var e := mem[p];
      Unlink(p, k);
      sp := sp[..k] + sp[k + 1..];
      mem := Dec(mem, p);
      Notify(e.info.shortcut);
    }

    /** What removal tells the daemon, and the circuit nobody uses any more. */
    method Notify(vcc: nat)
      modifies this`log
      ensures log == old(log) + Notices(head == NULL, vcc, eg)
    {
      if head == NULL && eg.idle {
        log := log + [StopKeepAlive];
      }
      if vcc != 0 && vcc !in eg.vccs {
        log := log + [Release(vcc)];
      }
    }

    method Unlink(p: Ptr, ghost k: nat)
      requires Valid(Now()) && k < |sp| && p == sp[k]
      modifies this`head, this`mem
      ensures head == NewHead(old(head), old(mem)[p]) && mem == Unlinked(old(mem), p)
      ensures head == NULL <==> sp[..k] + sp[k + 1..] == []
    {
      Neighbours(head, mem, sp, k);
      var e := mem[p];
      if e.prev != NULL {
        mem := mem[e.prev := mem[e.prev].(next := e.next)];
      } else {
        head := e.next;
      }
      if e.next != NULL {
        mem := mem[e.next := mem[e.next].(prev := e.prev)];
      }
    }

    /** cache_hit on what an entry says. */
    static method CacheHit(i: Info, limit: nat, now: int) returns (j: Info, ask: bool, open: bool)
      ensures j == Touched(i, limit, now) && ask == Asks(i, limit) && open == Opens(i)
    {
      j, ask := i.(count := i.count + 1), false;
      if j.state == Resolved && j.shortcut != 0 {
        return j, ask, true;
      }
      if j.state == Refreshing {
        if j.count > limit {
          ask := true;
          j := j.(state := Resolving, asked := now);
        }
        return j, ask, j.shortcut != 0;
      }
      if j.state == Resolving && j.shortcut != 0 {
        return j, ask, true;
      }
      if j.count > limit && j.state == Invalid {
        ask := true;
        j := j.(state := Resolving, asked := now);
      }
      return j, ask, false;
    }

    /** send_via_shortcut: the packet goes over the circuit, or the caller has to use LANE. */
    method SendViaShortcut(ip: Ip, ttl: nat, limit: nat, now: int, holding: nat, room: Ptr) returns (sent: bool)
      requires Valid(Now()) && room !in mem
      modifies this
      ensures Now() == Sent(old(Now()), ip, ttl, limit, now, holding, room)
      ensures var k := First(old(mem), old(sp), ByIp(ip), 0);
              sent == (k < |old(sp)| && Opens(old(mem)[old(sp)[k]].info) && ttl > 1)
    {
      ghost var w := Now();
      var p := Get(ByIp(ip));
      if p == NULL {
        if room != NULL {
          Admit(room, New(ip, now, holding));
        }
        return false;
      }
      sent := UseEntry(p, ttl, limit, now, w);
    }

    /** The way of a packet that finds an entry. */
    method UseEntry(p: Ptr, ttl: nat, limit: nat, now: int, ghost w: Whole) returns (sent: bool)
      requires Valid(w) && p in w.mem && Now() == Take(w, p)
      modifies this
      ensures var i := w.mem[p].info;
              && sent == (Opens(i) && ttl > 1)
              && Now() == w.(mem := Edit(w.mem, p, Routed(i, limit, ttl, now)),
                             log := if Asks(i, limit) then w.log + [Resolve(i.dst)] else w.log)
    {
      var i := mem[p].info;
      var j, ask, open := CacheHit(i, limit, now);
      if ask {
        log := log + [Resolve(i.dst)];
      }
      sent := open && ttl > 1;
      if sent {
        j := j.(forwarded := j.forwarded + 1);
      }
      Finish(p, j, w);
    }

    /** A handler is done with the entry at p, which says i from now on; the state was w before it took its handle. */
    method Finish(p: Ptr, i: Info, ghost w: Whole)
      requires Valid(w) && p in w.mem && Now() == Take(w, p).(log := log)
      modifies this`mem, this`handles
      ensures Now() == w.(mem := Edit(w.mem, p, i), log := log)
    {
      Balanced(w, p, i);
      IncSound(w.head, w.mem, w.sp, w.handles, p);
      EditSound(head, mem, sp, handles, p, i);
      mem := Edit(mem, p, i);
      Put(p);
    }

    /** A new entry whose creator puts its handle at once. */
    method Admit(p: Ptr, i: Info)
      requires Valid(Now()) && p !in mem && p != NULL
      modifies this
      ensures Now() == Newcomer(old(Now()), p, i)
    {
      Add(p, i);
      assert old(handles) + multiset{p} - multiset{p} == old(handles);
      Put(p);
    }

    /** MPOA_trigger_rcvd, which follows the pointer it gets for a new entry without looking at it. */
    method Trigger(ip: Ip, now: int, holding: nat, room: Ptr) returns (fault: bool)
      requires Valid(Now()) && room !in mem
      modifies this
      ensures fault <==> room == NULL && First(old(mem), old(sp), ByIp(ip), 0) == |old(sp)|
      ensures Now() == Triggered(old(Now()), ip, now, holding, room)
    {
      ghost var w := Now();
      var p := Get(ByIp(ip));
      if p == NULL {
        if room == NULL {
          return true;
        }
        Admit(room, New(ip, now, holding).(state := Resolving, asked := now));
        log := log + [Resolve(ip)];
        return false;
      }
      fault := false;
      var i := mem[p].info;
      if i.state == Invalid {
        log := log + [Resolve(ip)];
        Finish(p, i.(state := Resolving, asked := now), w);
      } else {
        Balanced(w, p, i);
        Finish(p, i, w);
      }
    }

    /** MPOA_res_reply_rcvd; offer is the circuit check_qos_and_open_shortcut finds in the egress cache. */
    method Reply(ip: Ip, holding: nat, tag: nat, now: int, offer: nat)
      requires Valid(Now())
      modifies this
      ensures Now() == Answered(old(Now()), ip, holding, tag, now, offer)
    {
      ghost var w := Now();
      var p := Get(ByIp(ip));
      if p == NULL {
        return;
      }
      var i := mem[p].info;
      var j := i;
      if i.state != Resolved {
        j := i.(holding := holding, tag := tag, seen := now, asked := now, refresh := 0);
        if i.state == Resolving && i.shortcut != 0 {
          j := j.(state := Resolved);
        } else if i.shortcut == 0 {
          if offer == 0 {
            log := log + [OpenSvc(ip)];
          }
          j := j.(shortcut := offer, state := Resolved);
        }
      }
      Finish(p, j, w);
    }

    /** The ingress part of mpc_vcc_close. */
    method VccClose(vcc: nat)
      requires Valid(Now())
      modifies this
      ensures Now() == VccClosed(old(Now()), vcc)
    {
      ghost var w := Now();
      var p := Get(ByVcc(vcc));
      if p != NULL {
        Finish(p, mem[p].info.(shortcut := 0), w);
      }
    }

    /** The ingress part of atm_mpoa_vcc_attach. */
    method Attach(ip: Ip, vcc: nat) returns (ok: bool)
      requires Valid(Now())
      modifies this
      ensures Now() == Attached(old(Now()), ip, vcc)
      ensures var k := First(old(mem), old(sp), ByIp(ip), 0);
              ok <==> k < |old(sp)| && Settled(old(mem)[old(sp)[k]].info)
    {
      hide Linked, Distinct, Counted;
      ghost var w := Now();
      var p := Get(ByIp(ip));
      if p == NULL {
        return false;
      }
      var i := mem[p].info;
      if i.state != Resolved && i.state != Refreshing {
        Balanced(w, p, i);
        Finish(p, i, w);
        return false;
      }
      Finish(p, i.(shortcut := vcc), w);
      return true;
    }

    /** One turn of refresh_entries on what an entry says. */
    static method Age(i: Info, now: int) returns (j: Info)
      ensures j == Aged(i, now)
    {
      j := i;
      if j.state == Resolved {
        if j.refresh == 0 {
          j := j.(refresh := 2 * j.holding / 3);
        }
        if now - j.asked > j.refresh {
          j := j.(state := Refreshing);
        }
      }
    }

    /** refresh_entries. */
    method RefreshEntries(now: int)
      requires Valid(Now())
      modifies this
      ensures Now() == Refreshed(old(Now()), now, 0)
    {
      var p := head;
      ghost var i := 0;
      assert p == if i < |sp| then sp[i] else NULL;
      hide Sound, Aged, Edit, Refreshed;
      while p != NULL
        invariant Valid(Now()) && 0 <= i <= |sp| && p == (if i < |sp| then sp[i] else NULL)
        invariant Refreshed(Now(), now, i) == Refreshed(old(Now()), now, 0)
        decreases |sp| - i
      {
        RefreshStep(Now(), now, i);
        var j := Age(mem[p].info, now);
        mem := Edit(mem, p, j);
        p := mem[p].next;
        i := i + 1;
      }
    }

    /** ingress_purge_rcvd: look up, remove, put, look up again. */
    method Purge(ip: Ip, mask: Ip)
      requires Valid(Now())
      modifies this
      ensures Now() == Purged(old(Now()), ByMask(ip, mask), eg)
    {
      hide Linked, Distinct, Counted, Unlinked, Dec, Inc, Hit;
      ghost var q, w := ByMask(ip, mask), Now();
      var p := Get(ByMask(ip, mask));
      while p != NULL
        invariant Valid(w) && Purged(w, q, eg) == Purged(old(Now()), q, eg)
        invariant var k := First(w.mem, w.sp, q, 0);
                  if p == NULL then Now() == w && k == |w.sp| else k < |w.sp| && p == w.sp[k] && Now() == Take(w, p)
        decreases |w.sp|
      {
        ghost var k := First(w.mem, w.sp, q, 0);
        HeldRemoval(w, k, eg);
        RemovedValid(Take(w, p), k, eg);
        RemovedValid(w, k, eg);
        Remove(p, k);
        Put(p);
        w := Removed(w, k, eg);
        p := Get(ByMask(ip, mask));
      }
    }

    /** clear_count_and_expired: the successor is noted before an entry may go. */
    method ClearCountAndExpired(now: int)
      requires Valid(Now())
      modifies this
      ensures Now() == Cleared(old(Now()), now, 0, eg)
    {
      var p := head;
      ghost var i := 0;
      assert p == if i < |sp| then sp[i] else NULL;
      hide Linked, Distinct, Counted, Unlinked, Dec;
      while p != NULL
        invariant Valid(Now()) && 0 <= i <= |sp| && p == (if i < |sp| then sp[i] else NULL)
        invariant Cleared(Now(), now, i, eg) == Cleared(old(Now()), now, 0, eg)
        decreases |sp| - i
      {
        var j := mem[p].info;
        EditSound(head, mem, sp, handles, p, j.(count := 0));
        mem := Edit(mem, p, j.(count := 0));
        Neighbours(head, mem, sp, i);
        var next := mem[p].next;
        if Hit(Expired(now), j) {
          RemovedValid(Now(), i, eg);
          Remove(p, i);
        } else {
          i := i + 1;
        }
        p := next;
      }
    }

    /** in_destroy_cache. */
    method DestroyCache()
      requires Valid(Now())
      modifies this
      ensures Now() == Destroyed(old(Now()), eg)
    {
      while head != NULL
        invariant Valid(Now()) && Destroyed(Now(), eg) == Destroyed(old(Now()), eg)
        decreases |sp|
      {
        RemovedValid(Now(), 0, eg);
        Remove(head, 0);
      }
    }

    /** Any handler. */
    method Do(ev: Event)
      requires Valid(Now()) && Enabled(Now(), ev)
      modifies this
      ensures Now() == Step(old(Now()), ev, eg)
    {
      hide Sound, OnePerDst, Sent, Triggered, Answered, VccClosed, Attached, Refreshed, Purged, Cleared, Destroyed;
      match ev
      case Packet(ip, ttl, limit, now, holding, room) =>
        var _ := SendViaShortcut(ip, ttl, limit, now, holding, room);
      case Trigger(ip, now, holding, room) => var _ := Trigger(ip, now, holding, room);
      case Reply(ip, holding, tag, now, offer) => Reply(ip, holding, tag, now, offer);
      case Purge(ip, mask) => Purge(ip, mask);
      case CloseVcc(vcc) => VccClose(vcc);
      case Attach(ip, vcc) => var _ := Attach(ip, vcc);
      case Refresh(now) => RefreshEntries(now);
      case Clear(now) => ClearCountAndExpired(now);
      case Destroy => DestroyCache();
    }

    /** Any handler leaves the client as sound as it was, with as many handles out. */
    method Serve(ev: Event)
      requires Steady(Now()) && Enabled(Now(), ev)
      modifies this
      ensures Steady(Now()) && handles == old(handles) && Now() == Step(old(Now()), ev, eg)
    {
      StepSteady(Now(), ev, eg);
      hide Sound, OnePerDst, Enabled, Step;
      Do(ev);
    }
  }

  /** What a list of one entry says to a query by its destination. */
  lemma OnlyOne(w: Whole, p: Ptr)
    requires Steady(w) && w.sp == [p]
    ensures p in w.mem && First(w.mem, w.sp, ByIp(w.mem[p].info.dst), 0) == 0
  {
  }

  /** The state a reply calls impossible: an entry is resolved over circuit 5, and its refresh falls due. */
  method RefreshedInUse() returns (c: Client)
    ensures fresh(c) && Steady(c.Now()) && c.sp == [1] && 1 in c.mem && Impossible(c.mem[1].info)
  {
    c := new Client(Egress(true, {}));
    hide Sound, OnePerDst;
    c.Serve(Trigger(7, 0, 1200, 1));
    assert c.sp == [1];
    OnlyOne(c.Now(), 1);
    assert c.mem[1].info == Requested(New(7, 0, 1200), 0);
    c.Serve(Reply(7, 300, 1, 0, 5));
    OnlyOne(c.Now(), 1);
    assert c.mem[1].info.state == Resolved && c.mem[1].info.shortcut == 5;
    ghost var w := c.Now();
    c.Serve(Refresh(1000));
    RefreshExact(w, 1000, 0);
  }
}

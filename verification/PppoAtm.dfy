/**
 * Flow control of PPP over ATM (struct pppoatm_vcc): one sender under the PPP channel lock,
 * any number of pop handlers, the socket owner and the wakeup tasklet, interleaved at the
 * level of their atomic operations.  The release callback schedules the tasklet under the
 * socket's spin lock; letting the sender in between as well only adds interleavings.
 */
module PppoAtm {
  import opened Common

  /** inflight counts from here: -2 is an empty queue, 0 a full one. */
  const NONE_INFLIGHT := -2

  /** A socket's sk_wmem_alloc starts at one, not zero. */
  const WMEM_BASE := 1

  /** Where the sender is in pppoatm_send; size is the truesize of its packet. */
  datatype Pc =
    | Idle
    | Enter(size: nat)     // called, socket lock not yet taken
    | Locked(size: nat)    // before sock_owned_by_user
    | Try1(size: nat)      // before the first atm_may_send
    | Inc1(size: nat)      // before the first atomic_inc_not_zero
    | SetBit(size: nat)    // before test_and_set_bit(BLOCKED)
    | Try2(size: nat)      // before the second atm_may_send
    | Inc2(size: nat)      // before the second atomic_inc_not_zero
    | Charge(size: nat)    // admitted, sk_wmem_alloc not yet charged
    | Send(size: nat)      // before vcc->send
    | Refuse(size: nat)    // at nospace, the lock still held

  datatype State = State(
    sndbuf: nat,
    pc: Pc,
    inflight: int,
    blocked: bool,
    scheduled: bool,      // wakeup tasklet scheduled
    running: bool,        // wakeup tasklet running, waiting for the channel lock
    owned: bool,          // socket owned by user
    wmem: int,            // sk_wmem_alloc
    device: seq<nat>,     // sizes of packets the device has not popped
    toDec: nat,           // pops between old_pop and atomic_dec
    toTest: nat,          // pops between atomic_dec and the test of BLOCKED
    toSchedule: nat,      // handlers that cleared BLOCKED and have still to call tasklet_schedule
    waiting: Option<nat>) // a refused packet, and no wakeup since

  datatype Step =
    | Call(size: nat)
    | Lock
    | CheckOwner(drop: bool)  // drop: VCC not ready, no encapsulation, or no memory
    | MaySend
    | IncNotZero
    | SetBlocked
    | ChargeWmem
    | VccSend
    | Unlock
    | PopStart(k: nat)
    | PopDec
    | PopTest
    | UserLock
    | UserRelease
    | Schedule
    | TaskletStart
    | TaskletWake

  predicate LockHeld(s: State) {
    !s.pc.Idle? && !s.pc.Enter?
  }

  predicate Enabled(s: State, st: Step) {
    match st
    case Call(_) => s.pc.Idle?
    case Lock => s.pc.Enter?
    case CheckOwner(_) => s.pc.Locked?
    case MaySend => s.pc.Try1? || s.pc.Try2?
    case IncNotZero => s.pc.Inc1? || s.pc.Inc2?
    case SetBlocked => s.pc.SetBit?
    case ChargeWmem => s.pc.Charge?
    case VccSend => s.pc.Send?
    case Unlock => s.pc.Refuse?
    case PopStart(k) => k < |s.device|
    case PopDec => s.toDec > 0
    case PopTest => s.toTest > 0
    case UserLock => !s.owned && !LockHeld(s)
    case UserRelease => s.owned && !LockHeld(s)
    case Schedule => s.toSchedule > 0
    case TaskletStart => s.scheduled && !s.running
    case TaskletWake => s.running && s.pc.Idle?
  }

  function TestAndClear(s: State): State {
    if s.blocked then s.(blocked := false, toSchedule := s.toSchedule + 1) else s
  }

  /** atm_may_send. */
  predicate MayFit(s: State, size: nat) {
    size + s.wmem < s.sndbuf
  }

  predicate FitsEmpty(s: State, size: nat) {
    size + WMEM_BASE < s.sndbuf
  }

  /** The sender's own steps, under the PPP channel lock. */
  predicate Sends(st: Step) {
    st.Call? || st.Lock? || st.CheckOwner? || st.MaySend? || st.IncNotZero? || st.SetBlocked? || st.ChargeWmem?
    || st.VccSend? || st.Unlock?
  }

  function Sending(s: State, st: Step): State
    requires Enabled(s, st) && Sends(st)
  {
    match st
    case Call(size) => s.(pc := Enter(size), waiting := None)
    case Lock => s.(pc := Locked(s.pc.size))
    case CheckOwner(drop) =>
      if s.owned then s.(blocked := true, pc := Refuse(s.pc.size))
      else if drop then s.(pc := Idle)
      else s.(pc := Try1(s.pc.size))
    case MaySend =>
      if s.pc.Try1? then s.(pc := if MayFit(s, s.pc.size) then Inc1(s.pc.size) else SetBit(s.pc.size))
      else s.(pc := if MayFit(s, s.pc.size) then Inc2(s.pc.size) else Refuse(s.pc.size))
    case IncNotZero =>
      if s.inflight != 0 then s.(inflight := s.inflight + 1, pc := Charge(s.pc.size))
      else s.(pc := if s.pc.Inc1? then SetBit(s.pc.size) else Refuse(s.pc.size))
    case SetBlocked => s.(blocked := true, pc := Try2(s.pc.size))
    case ChargeWmem => s.(wmem := s.wmem + s.pc.size, pc := Send(s.pc.size))
    case VccSend => s.(device := s.device + [s.pc.size], pc := Idle)
    case Unlock => s.(pc := Idle, waiting := Some(s.pc.size))
  }

  /** What goes on around it: pops, the socket owner, the tasklet. */
  function Around(s: State, st: Step): State
    requires Enabled(s, st) && !Sends(st)
  {
    match st
    case PopStart(k) =>
      s.(device := s.device[..k] + s.device[k + 1..], wmem := s.wmem - s.device[k], toDec := s.toDec + 1)
    case PopDec => s.(inflight := s.inflight - 1, toDec := s.toDec - 1, toTest := s.toTest + 1)
    case PopTest => TestAndClear(s.(toTest := s.toTest - 1))
    case UserLock => s.(owned := true)
    case UserRelease => TestAndClear(s.(owned := false))
    case Schedule => s.(scheduled := true, toSchedule := s.toSchedule - 1)
    case TaskletStart => s.(scheduled := false, running := true)
    case TaskletWake => s.(running := false, waiting := None)
  }

  function Next(s: State, st: Step): State
    requires Enabled(s, st)
  {
    if Sends(st) then Sending(s, st) else Around(s, st)
  }

  function Sum(l: seq<nat>): nat {
    if l == [] then 0 else l[0] + Sum(l[1..])
  }

  lemma {:induction false} SumAppend(a: seq<nat>, b: seq<nat>)
    ensures Sum(a + b) == Sum(a) + Sum(b)
  {
    if a == [] {
      assert a + b == b;
    } else {
      SumAppend(a[1..], b);
      assert (a + b)[1..] == a[1..] + b;
    }
  }

  lemma {:induction false} SumRemove(l: seq<nat>, k: nat)
    requires k < |l|
    ensures Sum(l[..k] + l[k + 1..]) == Sum(l) - l[k]
  {
    SumAppend(l[..k], l[k..]);
    SumAppend(l[..k], l[k + 1..]);
    assert l == l[..k] + l[k..];
    assert l[k..][1..] == l[k + 1..];
  }

  /** Packets admitted by pppoatm_may_send whose pop has not yet counted them out. */
  function Admitted(s: State): nat {
    |s.device| + s.toDec + if s.pc.Charge? || s.pc.Send? then 1 else 0
  }

  predicate Counted(s: State) {
    s.inflight - NONE_INFLIGHT == Admitted(s) && s.inflight <= 0
  }

  predicate Charged(s: State) {
    s.wmem == WMEM_BASE + Sum(s.device) + if s.pc.Send? then s.pc.size else 0
  }

  /** Someone has still to test BLOCKED: a pop, or the owner of the socket. */
  predicate Tester(s: State) {
    s.owned || |s.device| + s.toDec + s.toTest > 0
  }

  /** A wakeup is on its way, or will be. */
  predicate WakeDue(s: State) {
    Waking(s) || (s.blocked && Tester(s))
  }

  /** The tasklet runs, is scheduled, or is about to be. */
  predicate Waking(s: State) {
    s.scheduled || s.running || s.toSchedule > 0
  }

  predicate NoLostWakeup(s: State) {
    && (s.waiting.Some? && FitsEmpty(s, s.waiting.value) ==> WakeDue(s))
    && (s.pc.Refuse? && FitsEmpty(s, s.pc.size) ==> WakeDue(s))
    && (s.pc.Try2? || s.pc.Inc2? ==> s.blocked || Waking(s))
  }

  predicate Inv(s: State) {
    Counted(s) && Charged(s) && NoLostWakeup(s)
  }

  /** Steps that finish work already begun elsewhere; none of them needs the sender. */
  predicate Drains(st: Step) {
    st.PopStart? || st.PopDec? || st.PopTest? || st.UserRelease? || st.Schedule? || st.TaskletStart?
  }

  lemma {:induction false} SendCounted(s: State, st: Step)
    requires Counted(s) && Enabled(s, st) && Sends(st)
    ensures Counted(Sending(s, st))
  {
  }

  lemma {:induction false} AroundCounted(s: State, st: Step)
    requires Counted(s) && Enabled(s, st) && !Sends(st)
    ensures Counted(Around(s, st))
  {
    if st.PopStart? {
      assert |Around(s, st).device| == |s.device| - 1;
    }
  }

  lemma {:induction false} StepCounted(s: State, st: Step)
    requires Counted(s) && Enabled(s, st)
    ensures Counted(Next(s, st))
  {
    if Sends(st) {
      SendCounted(s, st);
    } else {
      AroundCounted(s, st);
    }
  }

  lemma {:induction false} SendCharged(s: State, st: Step)
    requires Charged(s) && Enabled(s, st) && Sends(st)
    ensures Charged(Sending(s, st))
  {
    if st.VccSend? {
      SumAppend(s.device, [s.pc.size]);
      assert Sum([s.pc.size]) == s.pc.size;
    } else {
      SendDevice(s, st);
    }
  }

  lemma {:induction false} SendDevice(s: State, st: Step)
    requires Enabled(s, st) && Sends(st) && !st.VccSend?
    ensures var t := Sending(s, st);
            && t.device == s.device && (t.pc.Send? ==> st.ChargeWmem? && t.pc.size == s.pc.size)
            && t.wmem == s.wmem + (if st.ChargeWmem? then s.pc.size else 0) && !s.pc.Send?
  {
  }

  lemma {:induction false} AroundCharged(s: State, st: Step)
    requires Charged(s) && Enabled(s, st) && !Sends(st)
    ensures Charged(Around(s, st))
  {
    if st.PopStart? {
      SumRemove(s.device, st.k);
    } else {
      assert Around(s, st).device == s.device;
    }
  }

  lemma {:induction false} StepCharged(s: State, st: Step)
    requires Charged(s) && Enabled(s, st)
    ensures Charged(Next(s, st))
  {
    if Sends(st) {
      SendCharged(s, st);
    } else {
      AroundCharged(s, st);
    }
  }

  lemma {:induction false} SendWake(s: State, st: Step)
    requires Inv(s) && Enabled(s, st) && Sends(st)
    ensures NoLostWakeup(Sending(s, st))
  {
    if st.MaySend? && s.pc.Try2? && !MayFit(s, s.pc.size) && FitsEmpty(s, s.pc.size) {
      assert Sum(s.device) > 0;
      assert s.device != [];
    }
  }

  lemma {:induction false} AroundWake(s: State, st: Step)
    requires Inv(s) && Enabled(s, st) && !Sends(st)
    ensures NoLostWakeup(Around(s, st))
  {
  }

  lemma {:induction false} StepWake(s: State, st: Step)
    requires Inv(s) && Enabled(s, st)
    ensures NoLostWakeup(Next(s, st))
  {
    if Sends(st) {
      SendWake(s, st);
    } else {
      AroundWake(s, st);
    }
  }

  predicate Init(s: State) {
    && s.pc.Idle? && s.inflight == NONE_INFLIGHT && !s.blocked && !s.scheduled && !s.running && !s.owned
    && s.wmem == WMEM_BASE && s.device == [] && s.toDec == 0 && s.toTest == 0 && s.toSchedule == 0 && s.waiting.None?
  }

  ghost predicate Runs(s: State, steps: seq<Step>, s': State)
    decreases |steps|
  {
    if steps == [] then s == s' else Enabled(s, steps[0]) && Runs(Next(s, steps[0]), steps[1..], s')
  }

  lemma {:induction false} RunsKeep(s: State, steps: seq<Step>, s': State)
    requires Inv(s) && Runs(s, steps, s')
    ensures Inv(s')
    decreases |steps|
  {
    if steps != [] {
      StepCounted(s, steps[0]);
      StepCharged(s, steps[0]);
      StepWake(s, steps[0]);
      RunsKeep(Next(s, steps[0]), steps[1..], s');
    }
  }

  /** In every interleaving, inflight + 2 counts the admitted packets and stays within 0..2. */
  lemma {:induction false} InflightCounts(s0: State, steps: seq<Step>, s: State)
    requires Init(s0) && Runs(s0, steps, s)
    ensures s.inflight + 2 == Admitted(s) && 0 <= s.inflight + 2 <= 2
  {
    RunsKeep(s0, steps, s);
  }

  /** In every interleaving, a packet that would fit an empty queue is not refused without a wakeup to come. */
  lemma {:induction false} WakeupNotLost(s0: State, steps: seq<Step>, s: State)
    requires Init(s0) && Runs(s0, steps, s)
    requires s.waiting.Some? && FitsEmpty(s, s.waiting.value)
    ensures || s.scheduled || s.running || s.toSchedule > 0
            || (s.blocked && (s.owned || |s.device| + s.toDec + s.toTest > 0))
  {
    RunsKeep(s0, steps, s);
  }

  function Work(s: State): nat {
    4 * |s.device| + 3 * s.toDec + 2 * s.toTest
    + (if s.owned then 2 else 0) + (if s.blocked then 3 else 0) + 2 * s.toSchedule + (if s.scheduled then 1 else 0)
  }

  lemma {:induction false} DrainShrinks(s: State, st: Step)
    requires Enabled(s, st) && Drains(st)
    ensures Work(Next(s, st)) < Work(s)
  {
  }

  /** All such work done, and the sender out of pppoatm_send: the wakeup itself can run. */
  lemma {:induction false} DrainedWakes(s: State)
    requires Inv(s) && s.waiting.Some? && FitsEmpty(s, s.waiting.value) && s.pc.Idle?
    requires forall st :: Drains(st) ==> !Enabled(s, st)
    ensures Enabled(s, TaskletWake)
  {
    assert !Enabled(s, PopDec) && !Enabled(s, PopTest) && !Enabled(s, UserRelease);
    assert !Enabled(s, Schedule) && !Enabled(s, TaskletStart);
    if s.device != [] {
      assert Enabled(s, PopStart(0));
    }
  }

  /**
   * However the pops, the socket owner and the tasklet are scheduled, a stalled sender is
   * woken: such a schedule is at most Work(s) steps long, and where it ends for want of
   * steps the wakeup can be taken.
   */
  lemma {:induction false} StalledIsWoken(s0: State, steps: seq<Step>, s: State, more: seq<Step>, s': State)
    requires Init(s0) && Runs(s0, steps, s) && s.pc.Idle?
    requires s.waiting.Some? && FitsEmpty(s, s.waiting.value)
    requires Runs(s, more, s') && forall i :: 0 <= i < |more| ==> Drains(more[i])
    ensures |more| <= Work(s)
    ensures s'.waiting == s.waiting && s'.pc.Idle?
    ensures (forall st :: Drains(st) ==> !Enabled(s', st)) ==> Enabled(s', TaskletWake)
  {
    RunsKeep(s0, steps, s);
    RunsKeep(s, more, s');
    DrainRun(s, more, s');
    if forall st :: Drains(st) ==> !Enabled(s', st) {
      DrainedWakes(s');
    }
  }

  lemma {:induction false} DrainRun(s: State, more: seq<Step>, s': State)
    requires Runs(s, more, s') && s.pc.Idle? && forall i :: 0 <= i < |more| ==> Drains(more[i])
    ensures |more| + Work(s') <= Work(s)
    ensures s'.waiting == s.waiting && s'.pc.Idle? && s'.sndbuf == s.sndbuf
    decreases |more|
  {
    if more != [] {
      var s1 := Next(s, more[0]);
      DrainShrinks(s, more[0]);
      assert s1.waiting == s.waiting && s1.pc.Idle? && s1.sndbuf == s.sndbuf;
      DrainRun(s1, more[1..], s');
    }
  }

  /** The run that refuses a packet of size n for want of room. */
  function Refusal(n: nat): seq<Step> {
    [Call(n), Lock, CheckOwner(false), MaySend, SetBlocked, MaySend, Unlock]
  }

  lemma {:induction false} RefusalEnds(s0: State, n: nat)
    requires Init(s0) && !FitsEmpty(s0, n)
    ensures Runs(s0.(pc := SetBit(n)), Refusal(n)[4..], s0.(blocked := true, waiting := Some(n)))
  {
    var run, s := Refusal(n), s0.(blocked := true, waiting := Some(n));
    RunsFrom(s.(pc := Refuse(n), waiting := None), run, 6, s);
    RunsFrom(s.(pc := Try2(n), waiting := None), run, 5, s);
    RunsFrom(s0.(pc := SetBit(n)), run, 4, s);
  }

  /** Any packet that does not fit an empty queue can be refused with no wakeup to come. */
  lemma {:induction false} OversizeStalls(s0: State, n: nat)
    requires Init(s0) && !FitsEmpty(s0, n)
    ensures var s := s0.(blocked := true, waiting := Some(n));
            Runs(s0, Refusal(n), s) && !WakeDue(s)
  {
    var run, s := Refusal(n), s0.(blocked := true, waiting := Some(n));
    RefusalEnds(s0, n);
    RunsFrom(s0.(pc := Try1(n)), run, 3, s);
    RunsFrom(s0.(pc := Locked(n)), run, 2, s);
    RunsFrom(s0.(pc := Enter(n)), run, 1, s);
    RunsFrom(s0, run, 0, s);
    assert run[0..] == run;
  }

  lemma {:induction false} StepBuffer(s: State, st: Step)
    requires Enabled(s, st)
    ensures Next(s, st).sndbuf == s.sndbuf
  {
  }

  lemma {:induction false} SameBuffer(s: State, steps: seq<Step>, s': State)
    requires Runs(s, steps, s')
    ensures s'.sndbuf == s.sndbuf
    decreases |steps|
  {
    if steps != [] {
      StepBuffer(s, steps[0]);
      SameBuffer(Next(s, steps[0]), steps[1..], s');
    }
  }

  /** A run that leaves a packet of size n waiting. */
  ghost predicate Refuses(s0: State, steps: seq<Step>, s: State, n: nat) {
    Runs(s0, steps, s) && s.waiting == Some(n)
  }

  /**
   * No wakeup is lost, exactly for the packets that fit an empty queue: such a packet never
   * waits without a wakeup due, in any interleaving, and every other packet can.
   */
  lemma {:induction false} WakeupIffFits(s0: State, n: nat)
    requires Init(s0)
    ensures (forall steps, s :: Refuses(s0, steps, s, n) ==> WakeDue(s)) <==> FitsEmpty(s0, n)
  {
    if FitsEmpty(s0, n) {
      forall steps, s | Refuses(s0, steps, s, n)
        ensures WakeDue(s)
      {
        SameBuffer(s0, steps, s);
        WakeupNotLost(s0, steps, s);
      }
    } else {
      OversizeStalls(s0, n);
      assert Refuses(s0, Refusal(n), s0.(blocked := true, waiting := Some(n)), n);
    }
  }

  lemma RunsFrom(s: State, run: seq<Step>, k: nat, s': State)
    requires k < |run| && Enabled(s, run[k])
    requires if k + 1 == |run| then Next(s, run[k]) == s' else Runs(Next(s, run[k]), run[k + 1..], s')
    ensures Runs(s, run[k..], s')
  {
    assert run[k..][1..] == run[k + 1..];
  }
}

/**
 * The GARP applicant (clause 12 of IEEE 802.1D-2004): one state machine per attribute,
 * driven by local requests, received messages and the join timer.
 */
module GarpApplicant {
  import opened Bytes
  import opened Common

  datatype Key = Key(kind: byte, data: seq<byte>)

  datatype AState = VA | AA | QA | LA | VP | AP | QP | VO | AO | QO

  datatype Event = TransmitPdu | RJoinIn | RJoinEmpty | REmpty | RLeaveIn | RLeaveEmpty | ReqJoin | ReqLeave

  datatype Action = NoAction | SendJoinIn | SendLeaveEmpty

  datatype Trans = Trans(state: AState, action: Action)

  /** garp_applicant_state_table; None stands for GARP_APPLICANT_INVALID. */
  function Table(s: AState, e: Event): Option<Trans> {
    match s
    case VA => (match e
      case TransmitPdu => Some(Trans(AA, SendJoinIn))
      case RJoinIn => Goto(AA)
      case RLeaveEmpty => Goto(VP)
      case ReqJoin => None
      case ReqLeave => Goto(LA)
      case _ => Goto(VA))
    case AA => (match e
      case TransmitPdu => Some(Trans(QA, SendJoinIn))
      case RJoinIn => Goto(QA)
      case RLeaveEmpty => Goto(VP)
      case ReqJoin => None
      case ReqLeave => Goto(LA)
      case _ => Goto(VA))
    case QA => (match e
      case TransmitPdu => None
      case RJoinIn => Goto(QA)
      case RLeaveIn => Goto(VP)
      case RLeaveEmpty => Goto(VP)
      case ReqJoin => None
      case ReqLeave => Goto(LA)
      case _ => Goto(VA))
    case LA => (match e
      case TransmitPdu => Some(Trans(VO, SendLeaveEmpty))
      case RJoinEmpty => Goto(VO)
      case RLeaveEmpty => Goto(VO)
      case ReqJoin => Goto(VA)
      case ReqLeave => None
      case _ => Goto(LA))
    case VP => (match e
      case TransmitPdu => Some(Trans(AA, SendJoinIn))
      case RJoinIn => Goto(AP)
      case ReqJoin => None
      case ReqLeave => Goto(VO)
      case _ => Goto(VP))
    case AP => (match e
      case TransmitPdu => Some(Trans(QA, SendJoinIn))
      case RJoinIn => Goto(QP)
      case ReqJoin => None
      case ReqLeave => Goto(AO)
      case _ => Goto(VP))
    case QP => (match e
      case TransmitPdu => None
      case RJoinIn => Goto(QP)
      case ReqJoin => None
      case ReqLeave => Goto(QO)
      case _ => Goto(VP))
    case VO => (match e
      case TransmitPdu => None
      case RJoinIn => Goto(AO)
      case ReqJoin => Goto(VP)
      case ReqLeave => None
      case _ => Goto(VO))
    case AO => (match e
      case TransmitPdu => None
      case RJoinIn => Goto(QO)
      case ReqJoin => Goto(AP)
      case ReqLeave => None
      case _ => Goto(VO))
    case QO => (match e
      case TransmitPdu => None
      case RJoinIn => Goto(QO)
      case ReqJoin => Goto(QP)
      case ReqLeave => None
      case _ => Goto(VO))
  }

  function Goto(s: AState): Option<Trans> {
    Some(Trans(s, NoAction))
  }

  /** The states in which the attribute is declared locally. */
  predicate Member(s: AState) {
    s == VA || s == AA || s == QA || s == VP || s == AP || s == QP
  }

  datatype Msg = JoinIn | LeaveEmpty

  /** A message put into a PDU; life tells apart successive attributes with one key. */
  datatype Sent = Sent(key: Key, life: nat, msg: Msg)

  datatype Attr = Attr(state: AState, life: nat)

  datatype App = App(attrs: map<Key, Attr>, nextLife: nat, log: seq<Sent>)

  /** garp_attr_event; ok tells whether the PDU append succeeded. */
  function AttrEvent(a: App, k: Key, e: Event, ok: bool): App
    requires k in a.attrs
  {
    var t := Table(a.attrs[k].state, e);
    if t.None? then a
    else
      var life := a.attrs[k].life;
      match t.value.action
      case NoAction => a.(attrs := a.attrs[k := Attr(t.value.state, life)])
      case SendJoinIn =>
        if ok then a.(attrs := a.attrs[k := Attr(t.value.state, life)], log := a.log + [Sent(k, life, JoinIn)])
        else a
      case SendLeaveEmpty =>
        a.(attrs := a.attrs - {k}, log := if ok then a.log + [Sent(k, life, LeaveEmpty)] else a.log)
  }

  /** garp_attr_create, when the allocation succeeds. */
  function Create(a: App, k: Key): App {
    if k in a.attrs then a else a.(attrs := a.attrs[k := Attr(VO, a.nextLife)], nextLife := a.nextLife + 1)
  }

  /** A tick of the join timer is one Transmit per attribute; LeaveAll is one Deliver per attribute. */
  datatype Step =
    | Join(k: Key, ok: bool)
    | Leave(k: Key)
    | Deliver(k: Key, e: Event)
    | Transmit(k: Key, ok: bool)

  /** The events a message can bring; Deliver of another event does nothing. */
  predicate Received(e: Event) {
    e == RJoinIn || e == RJoinEmpty || e == REmpty || e == RLeaveIn || e == RLeaveEmpty
  }

  function Apply(a: App, st: Step): App {
    match st
    case Join(k, ok) => if k in a.attrs || ok then AttrEvent(Create(a, k), k, ReqJoin, true) else a
    case Leave(k) => if k in a.attrs then AttrEvent(a, k, ReqLeave, true) else a
    case Deliver(k, e) => if k in a.attrs && Received(e) then AttrEvent(a, k, e, true) else a
    case Transmit(k, ok) => if k in a.attrs then AttrEvent(a, k, TransmitPdu, ok) else a
  }

  type Run = seq<Step>

  /** The applicant after a run. */
  function Exec(r: Run): App {
    if r == [] then App(map[], 0, []) else Apply(Exec(r[..|r| - 1]), r[|r| - 1])
  }

  // ---- declared exactly while wanted ----

  /** The latest request for k was a join that the applicant took. */
  predicate Wanted(r: Run, k: Key) {
    if r == [] then false
    else
      var before, st := r[..|r| - 1], r[|r| - 1];
      match st
      case Join(k', ok) => if k' == k && (ok || k in Exec(before).attrs) then true else Wanted(before, k)
      case Leave(k') => k' != k && Wanted(before, k)
      case _ => Wanted(before, k)
  }

  predicate Declared(a: App, k: Key) {
    k in a.attrs && Member(a.attrs[k].state)
  }

  /** Whether an attribute is declared after an event that moves it. */
  function After(e: Event, before: bool): bool {
    if e == ReqJoin then true else if e == ReqLeave then false else before
  }

  lemma TableMember(s: AState, e: Event)
    ensures Table(s, e).None? ==> Member(s) == After(e, Member(s))
    ensures Table(s, e).Some? && Table(s, e).value.action != SendLeaveEmpty ==>
              Member(Table(s, e).value.state) == After(e, Member(s))
    ensures Table(s, e).Some? && Table(s, e).value.action != NoAction ==> e == TransmitPdu
    ensures Table(s, e).Some? && Table(s, e).value.action == SendLeaveEmpty ==> !Member(s)
  {
  }

  lemma {:induction false} EventDeclared(a: App, k: Key, e: Event, ok: bool, k': Key)
    requires k in a.attrs
    ensures Declared(AttrEvent(a, k, e, ok), k') == if k' == k then After(e, Declared(a, k)) else Declared(a, k')
    ensures e != TransmitPdu ==> AttrEvent(a, k, e, ok).log == a.log
  {
    TableMember(a.attrs[k].state, e);
    hide Table, Member;
  }

  lemma {:induction false} StepDeclared(a: App, st: Step, k: Key)
    ensures match st
            case Join(k', ok) =>
              Declared(Apply(a, st), k) == if k' == k && (ok || k in a.attrs) then true else Declared(a, k)
            case Leave(k') => Declared(Apply(a, st), k) == (k' != k && Declared(a, k))
            case _ => Declared(Apply(a, st), k) == Declared(a, k)
  {
    hide AttrEvent;
    match st
    case Join(k', ok) => if k' in a.attrs || ok { EventDeclared(Create(a, k'), k', ReqJoin, true, k); }
    case Leave(k') => if k' in a.attrs { EventDeclared(a, k', ReqLeave, true, k); }
    case Deliver(k', e) => if k' in a.attrs && Received(e) { EventDeclared(a, k', e, true, k); }
    case Transmit(k', ok) => if k' in a.attrs { EventDeclared(a, k', TransmitPdu, ok, k); }
  }

  /** Whatever is received and whenever the timer fires, k is declared exactly when its latest request was a join. */
  lemma {:induction false} DeclaredIffWanted(r: Run, k: Key)
    ensures Declared(Exec(r), k) <==> Wanted(r, k)
    decreases |r|
  {
    if r != [] {
      var before, st := r[..|r| - 1], r[|r| - 1];
      DeclaredIffWanted(before, k);
      StepDeclared(Exec(before), st, k);
    }
  }

  // ---- a leave follows a join, once ----

  predicate JoinSent(log: seq<Sent>, k: Key, life: nat) {
    Sent(k, life, JoinIn) in log
  }

  /** An attribute past its first join message, or leaving. */
  predicate Announced(s: AState) {
    s == VA || s == AA || s == QA || s == LA
  }

  predicate Lives(a: App) {
    && (forall k :: k in a.attrs ==>
         && a.attrs[k].life < a.nextLife
         && Sent(k, a.attrs[k].life, LeaveEmpty) !in a.log
         && (Announced(a.attrs[k].state) ==> JoinSent(a.log, k, a.attrs[k].life)))
    && (forall i :: 0 <= i < |a.log| ==> a.log[i].life < a.nextLife)
  }

  /** In the order sent: every leave has an earlier join of the same attribute, and nothing follows it. */
  predicate Polite(log: seq<Sent>) {
    && (forall i :: 0 <= i < |log| && log[i].msg == LeaveEmpty ==>
          exists j :: 0 <= j < i && log[j] == log[i].(msg := JoinIn))
    && (forall i, j :: 0 <= i < j < |log| && log[i].msg == LeaveEmpty ==>
          !(log[j].key == log[i].key && log[j].life == log[i].life))
  }

  lemma {:induction false} PoliteJoin(log: seq<Sent>, k: Key, life: nat)
    requires Polite(log) && Sent(k, life, LeaveEmpty) !in log
    ensures Polite(log + [Sent(k, life, JoinIn)])
  {
    var log' := log + [Sent(k, life, JoinIn)];
    forall i | 0 <= i < |log'| && log'[i].msg == LeaveEmpty
      ensures exists j :: 0 <= j < i && log'[j] == log'[i].(msg := JoinIn)
    {
      assert i < |log|;
      var j :| 0 <= j < i && log[j] == log[i].(msg := JoinIn);
      assert log'[j] == log'[i].(msg := JoinIn);
    }
  }

  lemma {:induction false} PoliteLeave(log: seq<Sent>, k: Key, life: nat)
    requires Polite(log) && Sent(k, life, LeaveEmpty) !in log && JoinSent(log, k, life)
    ensures Polite(log + [Sent(k, life, LeaveEmpty)])
  {
    var d := Sent(k, life, LeaveEmpty);
    var log' := log + [d];
    forall i | 0 <= i < |log'| && log'[i].msg == LeaveEmpty
      ensures exists j :: 0 <= j < i && log'[j] == log'[i].(msg := JoinIn)
    {
      if i < |log| {
        var j :| 0 <= j < i && log[j] == log[i].(msg := JoinIn);
        assert log'[j] == log'[i].(msg := JoinIn);
      } else {
        var j :| 0 <= j < |log| && log[j] == Sent(k, life, JoinIn);
        assert log'[j] == log'[i].(msg := JoinIn);
      }
    }
  }

  /** What the table does to announcements and to the joins still to come. */
  lemma TableFacts(s: AState, e: Event)
    ensures Table(s, e).Some? ==>
              var t := Table(s, e).value;
              match t.action
              case NoAction => e != TransmitPdu && (Announced(t.state) ==> Announced(s))
              case SendJoinIn => e == TransmitPdu && CreditOf(t.state) < CreditOf(s)
              case SendLeaveEmpty => e == TransmitPdu && s == LA
  {
  }

  lemma {:induction false} LivesMove(a: App, k: Key, s: AState)
    requires Lives(a) && k in a.attrs && (Announced(s) ==> JoinSent(a.log, k, a.attrs[k].life))
    ensures Lives(a.(attrs := a.attrs[k := Attr(s, a.attrs[k].life)]))
  {
  }

  lemma {:induction false} LivesLog(a: App, d: Sent)
    requires Lives(a) && d.life < a.nextLife
    requires d.msg == LeaveEmpty ==> forall k :: k in a.attrs ==> a.attrs[k].life != d.life || k != d.key
    ensures Lives(a.(log := a.log + [d]))
  {
  }

  lemma {:induction false} EventPolite(a: App, k: Key, e: Event, ok: bool)
    requires Lives(a) && Polite(a.log) && k in a.attrs
    ensures Lives(AttrEvent(a, k, e, ok)) && Polite(AttrEvent(a, k, e, ok).log)
  {
    var s, life := a.attrs[k].state, a.attrs[k].life;
    TableFacts(s, e);
    var t := Table(s, e);
    if t.Some? {
      match t.value.action
      case NoAction => LivesMove(a, k, t.value.state);
      case SendJoinIn =>
        var d := Sent(k, life, JoinIn);
        PoliteJoin(a.log, k, life);
        LivesLog(a, d);
        LivesMove(a.(log := a.log + [d]), k, t.value.state);
      case SendLeaveEmpty =>
        var a' := a.(attrs := a.attrs - {k});
        PoliteLeave(a.log, k, life);
        assert Lives(a');
        LivesLog(a', Sent(k, life, LeaveEmpty));
    }
  }

  lemma {:induction false} StepPolite(a: App, st: Step)
    requires Lives(a) && Polite(a.log)
    ensures Lives(Apply(a, st)) && Polite(Apply(a, st).log)
  {
    hide AttrEvent, Polite;
    match st
    case Join(k, ok) =>
      if k in a.attrs || ok {
        EventPolite(Create(a, k), k, ReqJoin, true);
      }
    case Leave(k) => if k in a.attrs { EventPolite(a, k, ReqLeave, true); }
    case Deliver(k, e) => if k in a.attrs && Received(e) { EventPolite(a, k, e, true); }
    case Transmit(k, ok) => if k in a.attrs { EventPolite(a, k, TransmitPdu, ok); }
  }

  lemma {:induction false} RunPolite(r: Run)
    ensures Lives(Exec(r)) && Polite(Exec(r).log)
    decreases |r|
  {
    if r != [] {
      RunPolite(r[..|r| - 1]);
      StepPolite(Exec(r[..|r| - 1]), r[|r| - 1]);
    }
  }

  /** Over every run, LEAVE_EMPTY is sent only after a JOIN_IN of the same attribute, and at most once. */
  lemma {:induction false} LeaveAfterJoinOnce(r: Run, i: nat)
    requires i < |Exec(r).log| && Exec(r).log[i].msg == LeaveEmpty
    ensures exists j :: 0 <= j < i && Exec(r).log[j] == Exec(r).log[i].(msg := JoinIn)
    ensures forall j :: 0 <= j < |Exec(r).log| && j != i ==> Exec(r).log[j] != Exec(r).log[i]
  {
    RunPolite(r);
  }

  // ---- the number of joins ----

  function Joins(log: seq<Sent>, k: Key): nat {
    if log == [] then 0
    else
      var d := log[|log| - 1];
      Joins(log[..|log| - 1], k) + if d.key == k && d.msg == JoinIn then 1 else 0
  }

  lemma JoinsAppend(log: seq<Sent>, d: Sent, k: Key)
    ensures Joins(log + [d], k) == Joins(log, k) + if d.key == k && d.msg == JoinIn then 1 else 0
  {
    assert (log + [d])[..|log|] == log;
  }

  /** How many joins the attribute may still send if nothing else happens. */
  function Credit(a: App, k: Key): nat {
    if k in a.attrs then CreditOf(a.attrs[k].state) else 0
  }

  function CreditOf(s: AState): nat {
    match s
    case VA => 2
    case VP => 2
    case AA => 1
    case AP => 1
    case _ => 0
  }

  predicate Touches(st: Step, k: Key) {
    !st.Transmit? && st.k == k
  }

  /** Requests and received messages that concern k. */
  function Inputs(r: Run, k: Key): nat {
    if r == [] then 0
    else Inputs(r[..|r| - 1], k) + if Touches(r[|r| - 1], k) then 1 else 0
  }

  lemma {:induction false} EventJoins(a: App, k': Key, e: Event, ok: bool, k: Key)
    requires k' in a.attrs
    ensures var a' := AttrEvent(a, k', e, ok);
            && Joins(a.log, k) <= Joins(a'.log, k)
            && (e != TransmitPdu ==> Joins(a'.log, k) == Joins(a.log, k))
            && (k' != k ==> Credit(a', k) == Credit(a, k) && Joins(a'.log, k) == Joins(a.log, k))
            && (e == TransmitPdu ==> Joins(a'.log, k) + Credit(a', k) <= Joins(a.log, k) + Credit(a, k))
  {
    var life := a.attrs[k'].life;
    TableFacts(a.attrs[k'].state, e);
    JoinsAppend(a.log, Sent(k', life, JoinIn), k);
    JoinsAppend(a.log, Sent(k', life, LeaveEmpty), k);
  }

  lemma {:induction false} StepJoins(a: App, st: Step, k: Key)
    ensures var a' := Apply(a, st);
            && Joins(a.log, k) <= Joins(a'.log, k)
            && Joins(a'.log, k) + Credit(a', k)
               <= Joins(a.log, k) + if Touches(st, k) then 2 else Credit(a, k)
  {
    hide AttrEvent, Joins;
    match st
    case Join(k', ok) =>
      if k' in a.attrs || ok {
        EventJoins(Create(a, k'), k', ReqJoin, true, k);
      }
    case Leave(k') => if k' in a.attrs { EventJoins(a, k', ReqLeave, true, k); }
    case Deliver(k', e) => if k' in a.attrs && Received(e) { EventJoins(a, k', e, true, k); }
    case Transmit(k', ok) => if k' in a.attrs { EventJoins(a, k', TransmitPdu, ok, k); }
  }

  /** At most two JOIN_INs per request or received message, over every run. */
  lemma {:induction false} JoinsBounded(r: Run, k: Key)
    ensures Joins(Exec(r).log, k) + Credit(Exec(r), k) <= 2 * Inputs(r, k)
    decreases |r|
  {
    if r != [] {
      var before := r[..|r| - 1];
      JoinsBounded(before, k);
      StepJoins(Exec(before), r[|r| - 1], k);
    }
  }

  /** With no requests and nothing received for k, at most two JOIN_INs are sent, however often the timer fires. */
  lemma {:induction false} QuietJoins(r: Run, more: Run, k: Key)
    requires forall i :: 0 <= i < |more| ==> !Touches(more[i], k)
    ensures Joins(Exec(r).log, k) <= Joins(Exec(r + more).log, k)
    ensures Joins(Exec(r + more).log, k) + Credit(Exec(r + more), k) <= Joins(Exec(r).log, k) + Credit(Exec(r), k)
    ensures Joins(Exec(r + more).log, k) <= Joins(Exec(r).log, k) + 2
    decreases |more|
  {
    if more == [] {
      assert r + more == r;
    } else {
      var all, less := r + more, more[..|more| - 1];
      assert all[..|all| - 1] == r + less;
      QuietJoins(r, less, k);
      StepJoins(Exec(r + less), more[|more| - 1], k);
    }
  }

  // ---- the code that runs over the attributes ----

  predicate DistinctKeys(ks: seq<Key>) {
    forall i, j :: 0 <= i < j < |ks| ==> ks[i] != ks[j]
  }

  lemma Apart(ks: seq<Key>, n: nat)
    requires DistinctKeys(ks) && n < |ks|
    ensures forall i :: n < i < |ks| ==> ks[i] != ks[n]
  {
  }

  /** What a run does when it is continued from some applicant. */
  function ApplyAll(a: App, r: seq<Step>): App {
    if r == [] then a else Apply(ApplyAll(a, r[..|r| - 1]), r[|r| - 1])
  }

  /** Between two applicants, what is declared changed for k at most. */
  ghost predicate SameBut(a: App, a': App, k: Key) {
    forall k' :: k' != k ==> Declared(a', k') == Declared(a, k')
  }

  predicate Mirrors(gid: map<Key, AState>, attrs: map<Key, Attr>) {
    gid.Keys == attrs.Keys && forall k :: k in gid ==> gid[k] == attrs[k].state
  }

  lemma MirrorPut(gid: map<Key, AState>, attrs: map<Key, Attr>, k: Key, a: Attr)
    requires Mirrors(gid, attrs)
    ensures Mirrors(gid[k := a.state], attrs[k := a])
  {
  }

  lemma MirrorDrop(gid: map<Key, AState>, attrs: map<Key, Attr>, k: Key)
    requires Mirrors(gid, attrs)
    ensures Mirrors(gid - {k}, attrs - {k})
  {
  }

  /** struct garp_applicant: gid is the attribute tree.  The lives and the log are ghost. */
  class Applicant {
    var gid: map<Key, AState>
    ghost var app: App

    /** Every leave in the log has its join before it, and none is repeated. */
    ghost predicate Valid()
      reads this
    {
      Mirrors(gid, app.attrs) && Lives(app) && Polite(app.log)
    }

    constructor ()
      ensures Valid() && app == Exec([])
    {
      gid := map[];
      app := App(map[], 0, []);
    }

    /** garp_attr_event on an attribute of the tree; ok tells whether the PDU append succeeds. */
    method Fire(k: Key, e: Event, ok: bool)
      requires Valid() && k in gid
      modifies this
      ensures Valid() && app == AttrEvent(old(app), k, e, ok)
      ensures Declared(app, k) == After(e, old(Declared(app, k))) && SameBut(old(app), app, k)
      ensures e != TransmitPdu ==> app.log == old(app.log)
      ensures forall k' :: k' in old(gid) && k' != k ==> k' in gid
    {
      FireKeeps(app, k, e, ok);
      assert k in app.attrs && gid[k] == app.attrs[k].state;
      hide Lives, Polite, Declared, SameBut, Table, Mirrors;
      var t := Table(gid[k], e);
      ghost var was := app.attrs;
      app := AttrEvent(app, k, e, ok);
      if t.None? {
        return;
      }
      match t.value.action
      case NoAction =>
        MirrorPut(gid, was, k, Attr(t.value.state, was[k].life));
        gid := gid[k := t.value.state];
      case SendJoinIn =>
        if ok {
          MirrorPut(gid, was, k, Attr(t.value.state, was[k].life));
          gid := gid[k := t.value.state];
        }
      case SendLeaveEmpty =>
        MirrorDrop(gid, was, k);
        gid := gid - {k};
    }

    /** garp_request_join; memory tells whether a new attribute could be allocated. */
    method RequestJoin(k: Key, memory: bool) returns (ok: bool)
      requires Valid()
      modifies this
      ensures Valid() && app == Apply(old(app), Join(k, memory))
      ensures ok == (k in old(gid) || memory)
      ensures Declared(app, k) == (ok || old(Declared(app, k)))
      ensures SameBut(old(app), app, k) && app.log == old(app.log)
    {
      hide Polite, AttrEvent;
      if k !in gid {
        if !memory {
          return false;
        }
        gid := gid[k := VO];
        app := Create(app, k);
      }
      Fire(k, ReqJoin, true);
      return true;
    }

    /** garp_request_leave. */
    method RequestLeave(k: Key)
      requires Valid()
      modifies this
      ensures Valid() && app == Apply(old(app), Leave(k))
      ensures !Declared(app, k) && SameBut(old(app), app, k) && app.log == old(app.log)
    {
      if k in gid {
        Fire(k, ReqLeave, true);
      }
    }

    /** garp_gid_event for TRANSMIT_PDU: order is the in-order walk of the tree, oks says which appends succeed. */
    method TransmitAll(order: seq<Key>, oks: seq<bool>)
      requires Valid() && DistinctKeys(order) && |oks| == |order|
      requires forall k :: k in gid <==> k in order
      modifies this
      ensures Valid()
      ensures app == ApplyAll(old(app), seq(|order|, i requires 0 <= i < |order| => Transmit(order[i], oks[i])))
      ensures forall k :: Declared(app, k) == old(Declared(app, k))
    {
      hide Lives, Polite, Declared, AttrEvent, DistinctKeys;
      ghost var steps := seq(|order|, i requires 0 <= i < |order| => Transmit(order[i], oks[i]));
      var n := 0;
      while n < |order|
        invariant 0 <= n <= |order| && Valid() && app == ApplyAll(old(app), steps[..n])
        invariant forall i :: n <= i < |order| ==> order[i] in gid
        invariant forall k :: Declared(app, k) == old(Declared(app, k))
      {
        assert steps[..n + 1][..n] == steps[..n];
        Apart(order, n);
        Fire(order[n], TransmitPdu, oks[n]);
        n := n + 1;
      }
      assert steps[..n] == steps;
    }
  }

  lemma {:induction false} FireKeeps(a: App, k: Key, e: Event, ok: bool)
    requires Lives(a) && Polite(a.log) && k in a.attrs
    ensures var a' := AttrEvent(a, k, e, ok);
            && Lives(a') && Polite(a'.log) && SameBut(a, a', k)
            && Declared(a', k) == After(e, Declared(a, k)) && (e != TransmitPdu ==> a'.log == a.log)
  {
    EventPolite(a, k, e, ok);
    hide AttrEvent, Lives, Polite, Declared;
    forall k'
      ensures Declared(AttrEvent(a, k, e, ok), k') == if k' == k then After(e, Declared(a, k)) else Declared(a, k')
    {
      EventDeclared(a, k, e, ok, k');
    }
    EventDeclared(a, k, e, ok, k);
  }
}

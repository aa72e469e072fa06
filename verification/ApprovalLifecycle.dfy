/**
 The human decision on one approval request, under concurrent requests and expiry.

 Every request loads its own copy of the row, checks it, and writes back in a later
 transaction: a decision with a conditional write, an expiry with an unconditional one.
*/
module ApprovalLifecycle {
  import opened Common
  import H = HitlResume

  type Decision = H.Decision
  type UserId = string
  type Payload = map<string, string>

  datatype ApprovalStatus = Waiting | Granted | Refused | Edited | Lapsed

  /** The columns a decision or an expiry writes. */
  datatype Row = Row(
    status: ApprovalStatus, approvedBy: Option<UserId>, decision: Option<Decision>,
    reason: Option<string>, payload: Option<Payload>, decidedAt: Option<int>)

  datatype ComplianceEntry = ComplianceEntry(user: UserId, decision: Decision)

  datatype Config = Config(requestedBy: UserId, expiresAt: int)

  datatype Outcome =
    Recorded(decision: Decision) | Forbidden | ExpiredError | NotActionable | NotValid | Valid | ServerError

  datatype Pc =
    | Deciding(entity: Row)   // the loaded copy, with the decision assigned to it
    | Expiring                // loaded past its expiry
    | Done(outcome: Outcome)

  type Session = nat

  datatype State = State(row: Row, compliance: seq<ComplianceEntry>, sessions: map<Session, Pc>, now: int)

  datatype Request = Request(user: UserId, decision: Decision, reason: Option<string>, payload: Option<Payload>)

  datatype Event =
    | Tick(seconds: nat)
    | Load(s: Session, request: Request)
    | Validate(s: Session, user: Option<UserId>)
    | Save(s: Session)
    | Expire(s: Session)
    | Abort(s: Session)   // the write raised or the request stopped: nothing is committed

  const UNDECIDED := Row(Waiting, None, None, None, None, None)

  predicate Initial(a: State) { a.row == UNDECIDED && a.compliance == [] && a.sessions == map[] }

  function StatusOf(decision: Decision): ApprovalStatus {
    match decision
    case Approve => Granted
    case Reject => Refused
    case Edit => Edited
  }

  /** What approve(), reject() and edit() assign to the entity they loaded. */
  function Decided(entity: Row, request: Request, now: int): Row {
    Row(StatusOf(request.decision), Some(request.user), Some(request.decision), request.reason,
        if request.decision == H.Edit then request.payload else entity.payload, Some(now))
  }

  function LoadPc(cfg: Config, a: State, request: Request): Pc {
    if request.user != cfg.requestedBy then Done(Forbidden)
    else if a.now >= cfg.expiresAt then Expiring
    else if a.row.status != Waiting then Done(NotActionable)
    else Deciding(Decided(a.row, request, a.now))
  }

  function ValidatePc(cfg: Config, a: State, user: Option<UserId>): Pc {
    if user.Some? && user.value != cfg.requestedBy then Done(Forbidden)
    else if a.now >= cfg.expiresAt then Expiring
    else Done(if a.row.status == Granted then Valid else NotValid)
  }

  predicate Enabled(a: State, e: Event) {
    match e
    case Tick(_) => true
    case Load(s, _) => s !in a.sessions
    case Validate(s, _) => s !in a.sessions
    case Save(s) =>
      && s in a.sessions && a.sessions[s].Deciding?
      && a.sessions[s].entity.decision.Some? && a.sessions[s].entity.approvedBy.Some?
    case Expire(s) => s in a.sessions && a.sessions[s].Expiring?
    case Abort(s) => s in a.sessions && !a.sessions[s].Done?
  }

  function Move(a: State, s: Session, pc: Pc): State { a.(sessions := a.sessions[s := pc]) }

  /** The conditional write with its compliance row, or nothing at all. */
  function StepSave(a: State, s: Session): State
    requires Enabled(a, Save(s))
  {
    var entity := a.sessions[s].entity;
    if a.row.status == Waiting then
      Move(a, s, Done(Recorded(entity.decision.value))).(
        row := entity,
        compliance := a.compliance + [ComplianceEntry(entity.approvedBy.value, entity.decision.value)])
    else Move(a, s, Done(NotActionable))
  }

  function Step(cfg: Config, a: State, e: Event): State
    requires Enabled(a, e)
  {
    match e
    case Tick(seconds) => a.(now := a.now + seconds)
    case Load(s, request) => Move(a, s, LoadPc(cfg, a, request))
    case Validate(s, user) => Move(a, s, ValidatePc(cfg, a, user))
    case Save(s) => StepSave(a, s)
    case Expire(s) => Move(a, s, Done(ExpiredError)).(row := a.row.(status := Lapsed))
    case Abort(s) => Move(a, s, Done(ServerError))
  }

  predicate Runs(cfg: Config, a: State, es: seq<Event>, b: State)
    decreases |es|
  {
    if es == [] then b == a
    else Enabled(a, es[0]) && Runs(cfg, Step(cfg, a, es[0]), es[1..], b)
  }

  /** Take one more event at the end of a run. */
  lemma {:induction false} Then(cfg: Config, a: State, es: seq<Event>, b: State, e: Event) returns (es': seq<Event>)
    requires Runs(cfg, a, es, b) && Enabled(b, e)
    ensures es' == es + [e] && Runs(cfg, a, es', Step(cfg, b, e))
    decreases |es|
  {
    es' := es + [e];
    if es == [] {
      assert es'[1..] == [];
    } else {
      var rest := Then(cfg, Step(cfg, a, es[0]), es[1..], b, e);
      assert es'[1..] == rest;
    }
  }

  // ---------------------------------------------------------------------
  // One durable decision
  // ---------------------------------------------------------------------

  /** A complete decision by the requester, as one write puts it in the row. */
  ghost predicate Complete(cfg: Config, row: Row) {
    && row.decision.Some? && row.approvedBy == Some(cfg.requestedBy)
    && (row.payload.Some? ==> row.decision == Some(H.Edit))
  }

  ghost predicate SessionInv(cfg: Config, a: State, pc: Pc) {
    && (pc.Deciding? ==> Complete(cfg, pc.entity) && pc.entity.status == StatusOf(pc.entity.decision.value))
    && (pc.Done? && pc.outcome.Recorded? ==> a.row.decision == Some(pc.outcome.decision))
    && (pc == Done(Valid) ==> a.row.decision == Some(H.Approve))
  }

  ghost predicate Recording(pc: Pc) { pc.Done? && pc.outcome.Recorded? }

  ghost predicate DecisionInv(cfg: Config, a: State) {
    && (forall s | s in a.sessions :: SessionInv(cfg, a, a.sessions[s]))
    && (if a.row.decision.None?
        then (a.row == UNDECIDED || a.row == UNDECIDED.(status := Lapsed))
             && a.compliance == [] && |Where(a.sessions, Recording)| == 0
        else Complete(cfg, a.row)
             && (a.row.status == StatusOf(a.row.decision.value) || a.row.status == Lapsed)
             && a.compliance == [ComplianceEntry(cfg.requestedBy, a.row.decision.value)]
             && |Where(a.sessions, Recording)| == 1)
  }

  /** Everything about the row but its status, which an expiry may still overwrite. */
  function Durable(row: Row): Row { row.(status := Waiting) }

  lemma SessionInvStep(cfg: Config, a: State, e: Event)
    requires DecisionInv(cfg, a) && Enabled(a, e) && !e.Tick?
    ensures var b := Step(cfg, a, e); forall s | s in b.sessions :: SessionInv(cfg, b, b.sessions[s])
  {
    var b := Step(cfg, a, e);
    forall s | s in b.sessions ensures SessionInv(cfg, b, b.sessions[s]) {
      if s in a.sessions {
        assert SessionInv(cfg, a, a.sessions[s]);
      }
    }
  }

  /** Only a conditional write that finds the row WAITING reports a recorded decision. */
  lemma RecordingStep(cfg: Config, a: State, e: Event)
    requires Enabled(a, e)
    ensures |Where(Step(cfg, a, e).sessions, Recording)| ==
            |Where(a.sessions, Recording)| + if e.Save? && a.row.status == Waiting then 1 else 0
  {
    if !e.Tick? {
      var b := Step(cfg, a, e);
      assert b.sessions == a.sessions[e.s := b.sessions[e.s]];
      WhereUpdate(a.sessions, e.s, b.sessions[e.s], Recording);
    }
  }

  lemma DecisionInvStep(cfg: Config, a: State, e: Event)
    requires DecisionInv(cfg, a) && Enabled(a, e)
    ensures DecisionInv(cfg, Step(cfg, a, e))
    ensures a.row.decision.Some? ==>
      Durable(Step(cfg, a, e).row) == Durable(a.row) && Step(cfg, a, e).compliance == a.compliance
  {
    RecordingStep(cfg, a, e);
    if !e.Tick? {
      SessionInvStep(cfg, a, e);
      assert e.s in a.sessions ==> SessionInv(cfg, a, a.sessions[e.s]);
    }
  }

  lemma {:induction false} DecisionInvRuns(cfg: Config, a: State, es: seq<Event>, b: State)
    requires DecisionInv(cfg, a) && Runs(cfg, a, es, b)
    ensures DecisionInv(cfg, b)
    ensures a.row.decision.Some? ==> Durable(b.row) == Durable(a.row) && b.compliance == a.compliance
    decreases |es|
  {
    if es == [] {
    } else {
      DecisionInvStep(cfg, a, es[0]);
      DecisionInvRuns(cfg, Step(cfg, a, es[0]), es[1..], b);
    }
  }

  lemma InitialHolds(cfg: Config, a: State)
    requires Initial(a)
    ensures DecisionInv(cfg, a)
  {
    assert Where(a.sessions, Recording) == {};
  }

  /**
   Whatever requests and expiries interleave: at most one request is told its decision was
   recorded, exactly when the row holds that decision, made by the requester, with exactly one
   compliance entry for it.
  */
  lemma OneDurableDecision(cfg: Config, a: State, es: seq<Event>, b: State)
    requires Initial(a) && Runs(cfg, a, es, b)
    ensures |Where(b.sessions, Recording)| == |b.compliance| == if b.row.decision.Some? then 1 else 0
    ensures b.row.decision.Some? ==>
            && b.row.approvedBy == Some(cfg.requestedBy)
            && b.compliance == [ComplianceEntry(cfg.requestedBy, b.row.decision.value)]
            && (b.row.status == StatusOf(b.row.decision.value) || b.row.status == Lapsed)
            && (b.row.payload.Some? ==> b.row.decision == Some(H.Edit))
    ensures forall s | s in b.sessions && Recording(b.sessions[s]) ::
              b.row.decision == Some(b.sessions[s].outcome.decision)
  {
    InitialHolds(cfg, a);
    DecisionInvRuns(cfg, a, es, b);
    forall s | s in b.sessions && Recording(b.sessions[s])
      ensures b.row.decision == Some(b.sessions[s].outcome.decision)
    {
      assert SessionInv(cfg, b, b.sessions[s]);
    }
  }

  /** A recorded decision is final in every column but the status, which only an expiry changes. */
  lemma DecisionIsFinal(cfg: Config, a: State, es: seq<Event>, b: State, more: seq<Event>, c: State)
    requires Initial(a) && Runs(cfg, a, es, b) && Runs(cfg, b, more, c)
    requires b.row.decision.Some?
    ensures c.row == b.row || c.row == b.row.(status := Lapsed)
    ensures c.compliance == b.compliance
  {
    InitialHolds(cfg, a);
    DecisionInvRuns(cfg, a, es, b);
    DecisionInvRuns(cfg, b, more, c);
    assert c.row == Durable(c.row).(status := c.row.status);
    if c.row.status != Lapsed && b.row.status == Lapsed {
      LapsedStays(cfg, b, more, c);
    }
  }

  lemma {:induction false} LapsedStays(cfg: Config, a: State, es: seq<Event>, b: State)
    requires Runs(cfg, a, es, b) && a.row.status == Lapsed
    ensures b.row.status == Lapsed
    decreases |es|
  {
    if es == [] {
    } else {
      LapsedStays(cfg, Step(cfg, a, es[0]), es[1..], b);
    }
  }

  // ---------------------------------------------------------------------
  // What a decision means afterwards
  // ---------------------------------------------------------------------

  /** Whoever is told that the approval is valid can rely on a durable APPROVE. */
  lemma ValidMeansApproved(cfg: Config, a: State, es: seq<Event>, b: State, s: Session)
    requires Initial(a) && Runs(cfg, a, es, b) && s in b.sessions && b.sessions[s] == Done(Valid)
    ensures b.row.decision == Some(H.Approve)
  {
    InitialHolds(cfg, a);
    DecisionInvRuns(cfg, a, es, b);
    assert SessionInv(cfg, b, b.sessions[s]);
  }

  /**
   The approval validates for its requester exactly when an APPROVE is recorded that no expiry overwrote, before
   the deadline. A REJECT and an EDIT never validate.
  */
  lemma ValidatesIffApproved(cfg: Config, a: State, es: seq<Event>, b: State, s: Session, user: Option<UserId>)
    requires Initial(a) && Runs(cfg, a, es, b) && s !in b.sessions
    ensures Step(cfg, b, Validate(s, user)).sessions[s] == Done(Valid) <==>
            && b.row.decision == Some(H.Approve) && b.row.status != Lapsed
            && b.now < cfg.expiresAt && (user == None || user == Some(cfg.requestedBy))
  {
    InitialHolds(cfg, a);
    DecisionInvRuns(cfg, a, es, b);
  }

  /** The status is overwritten by an expiry only at or after the deadline. */
  lemma LapsedIsLate(cfg: Config, a: State, es: seq<Event>, b: State)
    requires Initial(a) && Runs(cfg, a, es, b) && b.row.status == Lapsed
    ensures cfg.expiresAt <= b.now
  {
    LateRuns(cfg, a, es, b);
  }

  /** Nobody is expiring the approval, and it has not lapsed, before the deadline. */
  ghost predicate LateInv(cfg: Config, a: State) {
    a.now < cfg.expiresAt ==>
      a.row.status != Lapsed &&
      forall s | s in a.sessions && !a.sessions[s].Done? ::
        a.sessions[s].Deciding? && a.sessions[s].entity.status != Lapsed
  }

  lemma {:induction false} LateRuns(cfg: Config, a: State, es: seq<Event>, b: State)
    requires LateInv(cfg, a) && Runs(cfg, a, es, b)
    ensures LateInv(cfg, b)
    decreases |es|
  {
    if es == [] {
    } else {
      LateRuns(cfg, Step(cfg, a, es[0]), es[1..], b);
    }
  }

  /** The row says what was asked for, by whom and why, and was decided before the deadline. */
  ghost predicate Says(cfg: Config, row: Row, request: Request) {
    && row.approvedBy == Some(request.user) && row.decision == Some(request.decision) && row.reason == request.reason
    && row.payload == (if request.decision == H.Edit then request.payload else None)
    && row.decidedAt.Some? && row.decidedAt.value < cfg.expiresAt
  }

  ghost predicate SaysRequest(cfg: Config, es: seq<Event>, s: Session, row: Row) {
    exists request :: Load(s, request) in es && Says(cfg, row, request)
  }

  /** Every decision under way or recorded is what its session asked for when it loaded the approval. */
  ghost predicate AskedInv(cfg: Config, es: seq<Event>, a: State) {
    forall s | s in a.sessions ::
      && (a.sessions[s].Deciding? ==> SaysRequest(cfg, es, s, a.sessions[s].entity))
      && (Recording(a.sessions[s]) ==> SaysRequest(cfg, es, s, a.row))
  }

  lemma StillAsked(cfg: Config, es: seq<Event>, e: Event, s: Session, row: Row, row': Row)
    requires SaysRequest(cfg, es, s, row) && Durable(row') == Durable(row)
    ensures SaysRequest(cfg, es + [e], s, row')
  {
    var request :| Load(s, request) in es && Says(cfg, row, request);
    assert Load(s, request) in es + [e] && Says(cfg, row', request);
  }

  lemma NewlyAsked(cfg: Config, es: seq<Event>, a: State, s: Session, request: Request)
    requires a.row.payload.None? && LoadPc(cfg, a, request).Deciding?
    ensures SaysRequest(cfg, es + [Load(s, request)], s, LoadPc(cfg, a, request).entity)
  {
    assert Load(s, request) in es + [Load(s, request)] && Says(cfg, LoadPc(cfg, a, request).entity, request);
  }

  lemma NobodyRecorded(a: State, s: Session)
    requires |Where(a.sessions, Recording)| == 0 && s in a.sessions
    ensures !Recording(a.sessions[s])
  {
    assert s !in Where(a.sessions, Recording);
  }

  lemma AskedStep(cfg: Config, es: seq<Event>, a: State, e: Event)
    requires DecisionInv(cfg, a) && AskedInv(cfg, es, a) && Enabled(a, e)
    ensures AskedInv(cfg, es + [e], Step(cfg, a, e))
  {
    var b := Step(cfg, a, e);
    DecisionInvStep(cfg, a, e);
    forall s | s in b.sessions
      ensures b.sessions[s].Deciding? ==> SaysRequest(cfg, es + [e], s, b.sessions[s].entity)
      ensures Recording(b.sessions[s]) ==> SaysRequest(cfg, es + [e], s, b.row)
    {
      if s in a.sessions && a.sessions[s].Deciding? {
        StillAsked(cfg, es, e, s, a.sessions[s].entity, a.sessions[s].entity);
      }
      if s in a.sessions && Recording(a.sessions[s]) {
        if a.row.decision.None? {
          NobodyRecorded(a, s);
        }
        StillAsked(cfg, es, e, s, a.row, b.row);
      }
      if e.Load? && e.s == s && b.sessions[s].Deciding? {
        NewlyAsked(cfg, es, a, s, e.request);
      }
    }
  }

  lemma {:induction false} AskedRuns(cfg: Config, before: seq<Event>, a: State, es: seq<Event>, b: State)
    requires DecisionInv(cfg, a) && AskedInv(cfg, before, a) && Runs(cfg, a, es, b)
    ensures AskedInv(cfg, before + es, b)
    decreases |es|
  {
    if es == [] {
      assert before + es == before;
    } else {
      DecisionInvStep(cfg, a, es[0]);
      AskedStep(cfg, before, a, es[0]);
      AskedRuns(cfg, before + [es[0]], Step(cfg, a, es[0]), es[1..], b);
      assert before + [es[0]] + es[1..] == before + es;
    }
  }

  /** A recorded decision is what one session asked for: its reason, its payload for an EDIT and no other, in time. */
  lemma DecisionIsTheRequest(cfg: Config, a: State, es: seq<Event>, b: State) returns (s: Session, request: Request)
    requires Initial(a) && Runs(cfg, a, es, b) && b.row.decision.Some?
    ensures Load(s, request) in es && s in b.sessions && b.sessions[s] == Done(Recorded(request.decision))
    ensures b.row.approvedBy == Some(request.user) && b.row.decision == Some(request.decision)
    ensures b.row.reason == request.reason
    ensures b.row.payload == if request.decision == H.Edit then request.payload else None
    ensures b.row.decidedAt.Some? && b.row.decidedAt.value < cfg.expiresAt
  {
    OneDurableDecision(cfg, a, es, b);
    InitialHolds(cfg, a);
    AskedRuns(cfg, [], a, es, b);
    assert [] + es == es;
    assert Where(b.sessions, Recording) != {};
    s :| s in Where(b.sessions, Recording);
    request :| Load(s, request) in es && Says(cfg, b.row, request);
  }

  // ---------------------------------------------------------------------
  // The decision and the send together
  // ---------------------------------------------------------------------

  /** The approval row and the action row of one gated call, on one clock. */
  datatype Joint = Joint(approval: State, action: H.State)

  datatype JointEvent = Approval(a: Event) | Action(h: H.Event) | Clock(seconds: nat)

  datatype JointConfig =
    JointConfig(approval: Config, staleSeconds: nat, hasPlan: bool, hasOrigin: bool, restates: bool)

  /** The resume side runs on the decision the approval row holds. */
  function ActionConfig(cfg: JointConfig, decision: Decision): H.Config {
    H.Config(decision, cfg.staleSeconds, cfg.hasPlan, cfg.hasOrigin, cfg.restates)
  }

  predicate JointEnabled(cfg: JointConfig, j: Joint, e: JointEvent) {
    match e
    case Clock(_) => true
    case Approval(a) => !a.Tick? && Enabled(j.approval, a)
    case Action(h) =>
      !h.Tick? && j.approval.row.decision.Some? &&
      H.Enabled(ActionConfig(cfg, j.approval.row.decision.value), j.action, h)
  }

  function JointStep(cfg: JointConfig, j: Joint, e: JointEvent): Joint
    requires JointEnabled(cfg, j, e)
  {
    match e
    case Clock(seconds) =>
      Joint(j.approval.(now := j.approval.now + seconds), j.action.(now := j.action.now + seconds))
    case Approval(a) => j.(approval := Step(cfg.approval, j.approval, a))
    case Action(h) => j.(action := H.Step(ActionConfig(cfg, j.approval.row.decision.value), j.action, h))
  }

  predicate JointRuns(cfg: JointConfig, j: Joint, es: seq<JointEvent>, k: Joint)
    decreases |es|
  {
    if es == [] then k == j
    else JointEnabled(cfg, j, es[0]) && JointRuns(cfg, JointStep(cfg, j, es[0]), es[1..], k)
  }

  /** Before a decision nothing runs; after it, the run so far is one under that decision. */
  ghost predicate JointInv(cfg: JointConfig, j: Joint, started: H.State) {
    && DecisionInv(cfg.approval, j.approval)
    && H.Initial(started)
    && (if j.approval.row.decision.None? then j.action == started
        else exists es :: H.Runs(ActionConfig(cfg, j.approval.row.decision.value), started, es, j.action))
  }

  lemma JointInvStep(cfg: JointConfig, j: Joint, e: JointEvent, started: H.State) returns (started': H.State)
    requires JointInv(cfg, j, started) && JointEnabled(cfg, j, e)
    ensures JointInv(cfg, JointStep(cfg, j, e), started')
  {
    started' := started;
    var k := JointStep(cfg, j, e);
    match e {
      case Clock(seconds) =>
        DecisionInvStep(cfg.approval, j.approval, Tick(seconds));
        if j.approval.row.decision.None? {
          started' := k.action;
        } else {
          ActionMoves(ActionConfig(cfg, j.approval.row.decision.value), started, j.action, H.Tick(seconds));
        }
      case Approval(a) =>
        DecisionInvStep(cfg.approval, j.approval, a);
        if j.approval.row.decision.None? && k.approval.row.decision.Some? {
          assert H.Runs(ActionConfig(cfg, k.approval.row.decision.value), started, [], k.action);
        }
      case Action(h) =>
        ActionMoves(ActionConfig(cfg, j.approval.row.decision.value), started, j.action, h);
    }
  }

  lemma ActionMoves(cfg: H.Config, started: H.State, s: H.State, e: H.Event)
    requires exists es :: H.Runs(cfg, started, es, s)
    requires H.Enabled(cfg, s, e)
    ensures exists es :: H.Runs(cfg, started, es, H.Step(cfg, s, e))
  {
    var es :| H.Runs(cfg, started, es, s);
    H.RunsAppend(cfg, started, es, s, e);
  }

  lemma {:induction false} JointInvRuns(cfg: JointConfig, j: Joint, es: seq<JointEvent>, k: Joint, started: H.State)
      returns (started': H.State)
    requires JointInv(cfg, j, started) && JointRuns(cfg, j, es, k)
    ensures JointInv(cfg, k, started')
    decreases |es|
  {
    started' := started;
    if es == [] {
    } else {
      started' := JointInvStep(cfg, j, es[0], started);
      started' := JointInvRuns(cfg, JointStep(cfg, j, es[0]), es[1..], k, started');
    }
  }

  /**
   The gated tool runs only on a durable APPROVE or EDIT of the requester, and then at most once
   more than the forces, outdated claims and caught failures: no interleaving of decisions, expiries, resumes,
   retries and crashes gets past either.
  */
  lemma ToolRunsOnlyWhenApproved(cfg: JointConfig, j: Joint, es: seq<JointEvent>, k: Joint)
    requires Initial(j.approval) && H.Initial(j.action) && JointRuns(cfg, j, es, k)
    ensures k.action.sends > 0 ==>
            && (k.approval.row.decision == Some(H.Approve) || k.approval.row.decision == Some(H.Edit))
            && k.approval.row.approvedBy == Some(cfg.approval.requestedBy)
            && k.approval.compliance ==
               [ComplianceEntry(cfg.approval.requestedBy, k.approval.row.decision.value)]
    ensures k.action.sends <= 1 + k.action.forced + k.action.outdated + k.action.caught
  {
    InitialHolds(cfg.approval, j.approval);
    var started := JointInvRuns(cfg, j, es, k, j.action);
    if k.approval.row.decision.Some? {
      var d := k.approval.row.decision.value;
      var trace :| H.Runs(ActionConfig(cfg, d), started, trace, k.action);
      H.SendBound(ActionConfig(cfg, d), started, trace, k.action);
    }
  }
}

/**
 The human-approval send protocol as a transition system.

 One agent action has one durable row. Any number of workers run
 resume_after_decision() or retry() on it; every committed database transaction
 is one atomic event, and a worker may stop between any two of them.
*/
module HitlResume {
  import opened Common

  datatype Decision = Approve | Reject | Edit

  datatype ActionStatus =
    Draft | PendingApproval | Approved | Rejected | Executing | Completed | Failed | Expired

  datatype ToolResult = ToolResult(success: bool, content: string)

  /** The durable columns the protocol reads and writes. */
  datatype Row = Row(status: ActionStatus, stored: Option<ToolResult>, updatedAt: int)

  /** What one call of resume_after_decision() or retry() ends with. */
  datatype Outcome =
    ResumeCompleted | ResumeFailed | InProgress | NotAllowed | NeedsConfirmation

  /**
   The stored result a worker's session remembers. retry() loads the action before the claim, and neither the
   claim (a bulk update of other columns) nor its commit nor the second get() refreshes the loaded object: a
   retry goes on with the result it loaded. A decision loads the action only after its claim.
  */
  datatype Memory = Unloaded | Loaded(result: Option<ToolResult>)

  /** Where a worker stands between two of its transactions. */
  datatype Pc =
    | Claiming(takeOver: bool, forced: bool, memory: Memory)
    | Claimed(memory: Memory)
    | Fresh                                // no stored result was read: the call must run
    | Ran(result: ToolResult, ran: bool)   // a result in hand that is not committed yet
    | Ready(used: Option<ToolResult>)      // about to resume the graph
    | Answered(used: Option<ToolResult>)   // the graph answered; nothing committed yet
    | Failing                              // an exception was caught and rolled back
    | Ended(outcome: Outcome)
    | Crashed

  type Worker = nat

  /**
   The committed decision, and what never changes about the action. restates: whether storing a result writes
   the status column too; the code assigns EXECUTING, which the claim left in the loaded object already.
  */
  datatype Config = Config(decision: Decision, staleSeconds: nat, hasPlan: bool, hasOrigin: bool, restates: bool)

  datatype State = State(
    row: Row,
    pcs: map<Worker, Pc>,
    now: int,
    sends: nat,      // run_approved_tool() calls
    answers: nat,    // committed answer events
    takeovers: nat,  // stale EXECUTING claims taken over
    forced: nat,     // those the user forced while no result was stored
    outdated: nat,   // claims won by a retry that remembers no result although one is stored
    caught: nat)     // exceptions caught after the tool started, before its result was committed

  datatype Event =
    | Tick(seconds: nat)
    | Decide(w: Worker)
    | Retry(w: Worker, force: bool)
    | Claim(w: Worker)
    | ClaimRaises(w: Worker)
    | Read(w: Worker)
    | ReadGone(w: Worker)
    | Deny(w: Worker)
    | RunTool(w: Worker, result: ToolResult)
    | RunToolRaises(w: Worker)
    | Store(w: Worker)
    | ResumeGraph(w: Worker)
    | Finish(w: Worker)
    | Raise(w: Worker)
    | RecordFailure(w: Worker)
    | RecordFailureRaises(w: Worker)
    | Crash(w: Worker)

  const REFUSED := ToolResult(false, "You are no longer permitted to perform this action, so it was not carried out.")

  /** The decisions that carry the prepared call out, as proposed or as edited. */
  predicate Approving(cfg: Config) { cfg.decision == Approve || cfg.decision == Edit }

  predicate Claimable(status: ActionStatus) { status == PendingApproval || status == Failed }

  predicate Stale(cfg: Config, s: State) { s.row.updatedAt < s.now - cfg.staleSeconds }

  /** The WHERE clause of the conditional claim. */
  predicate CanClaim(cfg: Config, s: State, takeOver: bool) {
    Claimable(s.row.status) || (takeOver && s.row.status == Executing && Stale(cfg, s))
  }

  /** A worker that won the claim and has not stopped yet. */
  predicate Owns(pc: Pc) {
    pc.Claimed? || pc.Fresh? || pc.Ran? || pc.Ready? || pc.Answered? || pc.Failing?
  }

  predicate Enabled(cfg: Config, s: State, e: Event) {
    match e
    case Tick(_) => true
    case Decide(w) => w !in s.pcs
    case Retry(w, _) => w !in s.pcs
    case Claim(w) => w in s.pcs && s.pcs[w].Claiming?
    case ClaimRaises(w) => w in s.pcs && s.pcs[w].Claiming?
    case Read(w) => w in s.pcs && s.pcs[w].Claimed?
    case ReadGone(w) => w in s.pcs && s.pcs[w].Claimed?
    case Deny(w) => w in s.pcs && s.pcs[w].Fresh?
    case RunTool(w, _) => w in s.pcs && s.pcs[w].Fresh?
    case RunToolRaises(w) => w in s.pcs && s.pcs[w].Fresh?
    case Store(w) => w in s.pcs && s.pcs[w].Ran?
    case ResumeGraph(w) => w in s.pcs && s.pcs[w].Ready?
    case Finish(w) => w in s.pcs && s.pcs[w].Answered?
    case Raise(w) => w in s.pcs && Owns(s.pcs[w]) && !s.pcs[w].Failing?
    case RecordFailure(w) => w in s.pcs && s.pcs[w].Failing?
    case RecordFailureRaises(w) => w in s.pcs && s.pcs[w].Failing?
    case Crash(w) => w in s.pcs && (Owns(s.pcs[w]) || s.pcs[w].Claiming?)
  }

  /** retry(): refuse, ask for confirmation, or go on to the claim. */
  function RetryPc(cfg: Config, s: State, force: bool): Pc {
    if !Claimable(s.row.status) && s.row.status != Executing then Ended(NotAllowed)
    else
      var takeOver := s.row.status == Executing && Stale(cfg, s);
      var mayHaveSent := Approving(cfg) && s.row.stored.None?;
      if takeOver && mayHaveSent && !force then Ended(NeedsConfirmation)
      else Claiming(takeOver, takeOver && mayHaveSent, Loaded(s.row.stored))
  }

  /** The stored result a claiming worker sees: the one its session remembers, or else the row's. */
  function Seen(row: Row, memory: Memory): Option<ToolResult> {
    match memory
    case Unloaded => row.stored
    case Loaded(result) => result
  }

  /** What a claiming worker does with the action it sees. */
  function ReadPc(cfg: Config, seen: Option<ToolResult>): Pc {
    if !cfg.hasPlan then Ended(ResumeFailed)
    else if !cfg.hasOrigin then Failing
    else if !Approving(cfg) then Ready(None)
    else if seen.Some? then Ready(seen)
    else Fresh
  }

  function Move(s: State, w: Worker, pc: Pc): State { s.(pcs := s.pcs[w := pc]) }

  /** A result was stored after this worker loaded the action without one. */
  predicate Outdated(row: Row, memory: Memory) { memory == Loaded(None) && row.stored.Some? }

  function StepClaim(cfg: Config, s: State, w: Worker): State
    requires w in s.pcs && s.pcs[w].Claiming?
  {
    var pc := s.pcs[w];
    if CanClaim(cfg, s, pc.takeOver) then
      var taken := s.row.status == Executing;
      Move(s, w, Claimed(pc.memory)).(
        row := s.row.(status := Executing, updatedAt := s.now),
        takeovers := s.takeovers + (if taken then 1 else 0),
        forced := s.forced + (if taken && pc.forced && s.row.stored.None? then 1 else 0),
        outdated := s.outdated + (if Outdated(s.row, pc.memory) then 1 else 0))
    else Move(s, w, Ended(if pc.memory.Loaded? then NotAllowed else InProgress))
  }

  function Step(cfg: Config, s: State, e: Event): State
    requires Enabled(cfg, s, e)
  {
    match e
    case Tick(seconds) => s.(now := s.now + seconds)
    case Decide(w) => Move(s, w, Claiming(false, false, Unloaded))
    case Retry(w, force) => Move(s, w, RetryPc(cfg, s, force))
    case Claim(w) => StepClaim(cfg, s, w)
    case ClaimRaises(w) => Move(s, w, Ended(ResumeFailed))
    case Read(w) => Move(s, w, ReadPc(cfg, Seen(s.row, s.pcs[w].memory)))
    case ReadGone(w) => Move(s, w, Ended(ResumeFailed))
    case Deny(w) => Move(s, w, Ran(REFUSED, false))
    case RunTool(w, result) => Move(s, w, Ran(result, true)).(sends := s.sends + 1)
    case RunToolRaises(w) => Move(s, w, Failing).(sends := s.sends + 1, caught := s.caught + 1)
    case Store(w) =>
      Move(s, w, Ready(Some(s.pcs[w].result))).(
        row := Row(if cfg.restates then Executing else s.row.status, Some(s.pcs[w].result), s.now))
    case ResumeGraph(w) => Move(s, w, Answered(s.pcs[w].used))
    case Finish(w) =>
      Move(s, w, Ended(ResumeCompleted)).(
        row := Row(if Approving(cfg) then Completed else Rejected, s.pcs[w].used, s.now),
        answers := s.answers + 1)
    case Raise(w) =>
      Move(s, w, Failing).(caught := s.caught + (if s.pcs[w].Ran? && s.pcs[w].ran then 1 else 0))
    case RecordFailure(w) =>
      Move(s, w, Ended(ResumeFailed)).(row := s.row.(status := Failed, updatedAt := s.now))
    case RecordFailureRaises(w) => Move(s, w, Ended(ResumeFailed))
    case Crash(w) => Move(s, w, Crashed)
  }

  /** t is where the events es lead from s. */
  predicate Runs(cfg: Config, s: State, es: seq<Event>, t: State)
    decreases |es|
  {
    if es == [] then t == s
    else Enabled(cfg, s, es[0]) && Runs(cfg, Step(cfg, s, es[0]), es[1..], t)
  }

  /** An action waiting for its decision to be resumed, before any worker starts. */
  predicate Initial(s: State) {
    && s.row.status == PendingApproval && s.row.stored == None && s.row.updatedAt <= s.now
    && s.pcs == map[]
    && s.sends == s.answers == s.takeovers == s.forced == s.outdated == s.caught == 0
  }

  lemma {:induction false} RunsAppend(cfg: Config, s: State, es: seq<Event>, t: State, e: Event)
    requires Runs(cfg, s, es, t) && Enabled(cfg, t, e)
    ensures Runs(cfg, s, es + [e], Step(cfg, t, e))
    decreases |es|
  {
    if es == [] {
      assert (es + [e])[1..] == [];
    } else {
      RunsAppend(cfg, Step(cfg, s, es[0]), es[1..], t, e);
      assert (es + [e])[1..] == es[1..] + [e];
    }
  }

  // ---------------------------------------------------------------------
  // The send bound
  // ---------------------------------------------------------------------

  /** Will call the tool whatever the row says by then. */
  predicate WillSend(pc: Pc) { pc.Fresh? || pc == Claimed(Loaded(None)) }

  /** While no result is stored, may still send or hand the action back for another claim. */
  predicate MaySend(pc: Pc) { pc == Claimed(Unloaded) || pc.Failing? || (pc.Ran? && !pc.ran) }

  /** The permits to send that are outstanding. */
  ghost function Permits(s: State): nat {
    Count(s, WillSend) +
    if s.row.stored.Some? then 0 else Count(s, MaySend) + One(Claimable(s.row.status))
  }

  /** What a worker knows: past the tool call, or taking over unconfirmed, a result is stored. */
  ghost predicate PcBacked(s: State, pc: Pc) {
    && (pc.Ready? || pc.Answered? ==> pc.used.Some? && s.row.stored.Some?)
    && ((pc.Claiming? || pc.Claimed?) && pc.memory.Loaded? && pc.memory.result.Some? ==> s.row.stored.Some?)
    && (pc.Claiming? && pc.takeOver && !pc.forced ==> s.row.stored.Some?)
    && (pc.Claiming? && pc.takeOver ==> pc.memory.Loaded?)
  }

  ghost predicate SendInv(s: State) {
    && (forall w | w in s.pcs :: PcBacked(s, s.pcs[w]))
    && s.sends + Permits(s) <= 1 + s.forced + s.outdated + s.caught
  }

  ghost function Count(s: State, p: Pc -> bool): nat { |Where(s.pcs, p)| }

  function One(b: bool): nat { if b then 1 else 0 }

  /** Moving one worker changes a count of workers by that worker only. */
  lemma CountMove(s: State, t: State, w: Worker, p: Pc -> bool)
    requires w in t.pcs && t.pcs == s.pcs[w := t.pcs[w]]
    ensures Count(t, p) == Count(s, p) - One(w in s.pcs && p(s.pcs[w])) + One(p(t.pcs[w]))
  {
    WhereUpdate(s.pcs, w, t.pcs[w], p);
  }

  /** Every event but a tick moves exactly one worker. */
  lemma StepMoves(cfg: Config, s: State, e: Event)
    requires Enabled(cfg, s, e) && !e.Tick?
    ensures var t := Step(cfg, s, e); e.w in t.pcs && t.pcs == s.pcs[e.w := t.pcs[e.w]]
  {}

  lemma BackedStep(cfg: Config, s: State, e: Event)
    requires Approving(cfg) && SendInv(s) && Enabled(cfg, s, e)
    ensures var t := Step(cfg, s, e); forall w | w in t.pcs :: PcBacked(t, t.pcs[w])
  {
    if !e.Tick? {
      assert e.w in s.pcs ==> PcBacked(s, s.pcs[e.w]);
    }
  }

  /** Each event moves a permit, spends it on a send, or mints it: a force, an outdated claim, a caught failure. */
  lemma SendInvStep(cfg: Config, s: State, e: Event)
    requires Approving(cfg) && SendInv(s) && Enabled(cfg, s, e)
    ensures SendInv(Step(cfg, s, e))
  {
    BackedStep(cfg, s, e);
    if !e.Tick? {
      PermitsMove(cfg, s, e);
      assert e.w in s.pcs ==> PcBacked(s, s.pcs[e.w]);
    }
  }

  /** Only the moving worker's permits change hands. */
  lemma PermitsMove(cfg: Config, s: State, e: Event)
    requires Enabled(cfg, s, e) && !e.Tick?
    ensures var t := Step(cfg, s, e);
      && e.w in t.pcs
      && Count(t, WillSend) ==
         Count(s, WillSend) - One(e.w in s.pcs && WillSend(s.pcs[e.w])) + One(WillSend(t.pcs[e.w]))
      && Count(t, MaySend) ==
         Count(s, MaySend) - One(e.w in s.pcs && MaySend(s.pcs[e.w])) + One(MaySend(t.pcs[e.w]))
  {
    StepMoves(cfg, s, e);
    CountMove(s, Step(cfg, s, e), e.w, WillSend);
    CountMove(s, Step(cfg, s, e), e.w, MaySend);
  }

  lemma {:induction false} SendInvRuns(cfg: Config, s: State, es: seq<Event>, t: State)
    requires Approving(cfg) && SendInv(s) && Runs(cfg, s, es, t)
    ensures SendInv(t)
    decreases |es|
  {
    if es == [] {
    } else {
      SendInvStep(cfg, s, es[0]);
      SendInvRuns(cfg, Step(cfg, s, es[0]), es[1..], t);
    }
  }

  /** However the workers interleave, crash or run late, forces, outdated claims and caught failures bound the sends. */
  lemma SendBound(cfg: Config, s: State, es: seq<Event>, t: State)
    requires Initial(s) && Runs(cfg, s, es, t)
    ensures t.sends <= 1 + t.forced + t.outdated + t.caught
    ensures cfg.decision == Reject ==> t.sends == 0
  {
    if Approving(cfg) {
      assert Where(s.pcs, WillSend) == {} && Where(s.pcs, MaySend) == {};
      SendInvRuns(cfg, s, es, t);
    } else {
      RejectionRuns(cfg, s, es, t);
    }
  }

  /** A rejected action has no worker at or past the tool call. */
  ghost predicate RejectionInv(s: State) {
    s.sends == 0 && forall w | w in s.pcs :: !s.pcs[w].Fresh? && !s.pcs[w].Ran?
  }

  lemma {:induction false} RejectionRuns(cfg: Config, s: State, es: seq<Event>, t: State)
    requires !Approving(cfg) && RejectionInv(s) && Runs(cfg, s, es, t)
    ensures RejectionInv(t)
    decreases |es|
  {
    if es == [] {
    } else {
      RejectionRuns(cfg, Step(cfg, s, es[0]), es[1..], t);
    }
  }

  /** A retry that loaded no result is still before its claim. */
  ghost predicate RetryWaits(s: State) {
    exists w :: w in s.pcs && s.pcs[w].Claiming? && s.pcs[w].memory == Loaded(None)
  }

  /**
   An event that cannot let a second send through: no confirmed takeover of an unstored send, no exception
   between a send and its commit, and no result stored while a retry that loaded none waits for its claim.
   Failures before the tool call or after the commit, plain retries, crashes and late workers are all calm.
  */
  ghost predicate Calm(cfg: Config, s: State, e: Event)
    requires Enabled(cfg, s, e)
  {
    match e
    case Retry(w, force) => var pc := RetryPc(cfg, s, force); !(pc.Claiming? && pc.forced)
    case RunToolRaises(w) => false
    case Raise(w) => !(s.pcs[w].Ran? && s.pcs[w].ran)
    case Store(w) => !RetryWaits(s)
    case _ => true
  }

  ghost predicate CalmRun(cfg: Config, s: State, es: seq<Event>)
    decreases |es|
  {
    es == [] || (Enabled(cfg, s, es[0]) && Calm(cfg, s, es[0]) && CalmRun(cfg, Step(cfg, s, es[0]), es[1..]))
  }

  /** No one is about to force, and a waiting retry that remembers no result is right. */
  ghost predicate CalmState(s: State) {
    && (forall w | w in s.pcs && s.pcs[w].Claiming? :: !s.pcs[w].forced)
    && (RetryWaits(s) ==> s.row.stored.None?)
    && (s.row.stored.None? ==> forall w | w in s.pcs :: PcBacked(s, s.pcs[w]))
  }

  lemma CalmStep(cfg: Config, s: State, e: Event)
    requires Approving(cfg) && SendInv(s) && CalmState(s) && Enabled(cfg, s, e) && Calm(cfg, s, e)
    ensures var t := Step(cfg, s, e);
      CalmState(t) && t.forced == s.forced && t.outdated == s.outdated && t.caught == s.caught
  {
    var t := Step(cfg, s, e);
    BackedStep(cfg, s, e);
    if e.Claim? && s.pcs[e.w].memory == Loaded(None) {
      assert RetryWaits(s);
    }
    if w :| w in t.pcs && t.pcs[w].Claiming? && t.pcs[w].memory == Loaded(None) {
      if w in s.pcs && s.pcs[w] == t.pcs[w] {
        assert RetryWaits(s);
      }
    }
  }

  lemma {:induction false} CalmRuns(cfg: Config, s: State, es: seq<Event>, t: State)
    requires Approving(cfg) && SendInv(s) && CalmState(s) && Runs(cfg, s, es, t) && CalmRun(cfg, s, es)
    ensures t.forced == s.forced && t.outdated == s.outdated && t.caught == s.caught
    decreases |es|
  {
    if es == [] {
    } else {
      CalmStep(cfg, s, es[0]);
      SendInvStep(cfg, s, es[0]);
      CalmRuns(cfg, Step(cfg, s, es[0]), es[1..], t);
    }
  }

  lemma InitialSendInv(cfg: Config, s: State)
    requires Initial(s)
    ensures SendInv(s) && CalmState(s)
  {
    assert Where(s.pcs, WillSend) == {} && Where(s.pcs, MaySend) == {};
  }

  /** At most one send in every calm run, whatever fails, crashes, stalls and is retried in it. */
  lemma AtMostOneSend(cfg: Config, s: State, es: seq<Event>, t: State)
    requires Initial(s) && Runs(cfg, s, es, t) && CalmRun(cfg, s, es)
    ensures t.sends <= 1
  {
    SendBound(cfg, s, es, t);
    if Approving(cfg) {
      InitialSendInv(cfg, s);
      CalmRuns(cfg, s, es, t);
    }
  }

  /** No result is stored while a retry that loaded none waits: the window of an outdated claim stays shut. */
  ghost predicate LoadsHold(cfg: Config, s: State, es: seq<Event>)
    decreases |es|
  {
    es == [] ||
    (Enabled(cfg, s, es[0]) && (es[0].Store? ==> !RetryWaits(s)) && LoadsHold(cfg, Step(cfg, s, es[0]), es[1..]))
  }

  lemma {:induction false} NoneOutdated(cfg: Config, s: State, es: seq<Event>, t: State)
    requires Approving(cfg) && SendInv(s) && Runs(cfg, s, es, t) && LoadsHold(cfg, s, es)
    requires RetryWaits(s) ==> s.row.stored.None?
    ensures t.outdated == s.outdated
    decreases |es|
  {
    if es == [] {
    } else {
      LoadsStep(cfg, s, es[0]);
      SendInvStep(cfg, s, es[0]);
      NoneOutdated(cfg, Step(cfg, s, es[0]), es[1..], t);
    }
  }

  lemma LoadsStep(cfg: Config, s: State, e: Event)
    requires Approving(cfg) && SendInv(s) && Enabled(cfg, s, e)
    requires (RetryWaits(s) ==> s.row.stored.None?) && (e.Store? ==> !RetryWaits(s))
    ensures var t := Step(cfg, s, e); t.outdated == s.outdated && (RetryWaits(t) ==> t.row.stored.None?)
  {
    var t := Step(cfg, s, e);
    if e.Claim? && s.pcs[e.w].memory == Loaded(None) {
      assert RetryWaits(s);
    }
    if e.Finish? {
      assert PcBacked(s, s.pcs[e.w]);
    }
    if w :| w in t.pcs && t.pcs[w].Claiming? && t.pcs[w].memory == Loaded(None) {
      if w in s.pcs && s.pcs[w] == t.pcs[w] {
        assert RetryWaits(s);
      }
    }
  }

  /** Then the bound needs only forces and caught failures. */
  lemma SendBoundWhenLoadsHold(cfg: Config, s: State, es: seq<Event>, t: State)
    requires Initial(s) && Runs(cfg, s, es, t) && LoadsHold(cfg, s, es)
    ensures t.sends <= 1 + t.forced + t.caught
  {
    SendBound(cfg, s, es, t);
    if Approving(cfg) {
      InitialSendInv(cfg, s);
      NoneOutdated(cfg, s, es, t);
    }
  }

  /** From every state of the run on, however it goes on with such loads, no claim is outdated. */
  ghost predicate StaysInformed(cfg: Config, s: State, es: seq<Event>)
    decreases |es|
  {
    && (forall more, u | Runs(cfg, s, more, u) && LoadsHold(cfg, s, more) :: u.outdated == 0)
    && (es == [] || (Enabled(cfg, s, es[0]) && StaysInformed(cfg, Step(cfg, s, es[0]), es[1..])))
  }

  /** A result stored behind a waiting retry: the graph raises, FAILED is recorded, the retry's claim is outdated. */
  lemma OutdatedClaimFollows(cfg: Config, s: State, w: Worker, r: Worker) returns (es: seq<Event>, t: State)
    requires w in s.pcs && s.pcs[w].Ready? && s.row.stored.Some?
    requires r in s.pcs && s.pcs[r].Claiming? && s.pcs[r].memory == Loaded(None)
    ensures es == [Raise(w), RecordFailure(w), Claim(r)] && Runs(cfg, s, es, t) && LoadsHold(cfg, s, es)
    ensures t.outdated == s.outdated + 1 && (t.sends, t.forced, t.takeovers) == (s.sends, s.forced, s.takeovers)
    ensures r in t.pcs && t.pcs[r] == Claimed(Loaded(None))
  {
    es := [Raise(w), RecordFailure(w), Claim(r)];
    var a := Step(cfg, s, es[0]);
    var b := Step(cfg, a, es[1]);
    t := Step(cfg, b, es[2]);
    assert es[1..] == [RecordFailure(w), Claim(r)] && es[1..][1..] == [Claim(r)] && es[1..][1..][1..] == [];
    assert Runs(cfg, b, [Claim(r)], t) && Runs(cfg, a, es[1..], t);
    assert LoadsHold(cfg, t, []) && LoadsHold(cfg, b, [Claim(r)]) && LoadsHold(cfg, a, es[1..]);
  }

  /** And then it sends once more. */
  lemma StoreBehindRetrySends(cfg: Config, s: State, e: Event) returns (es: seq<Event>, t: State)
    requires cfg.decision != Reject && cfg.hasPlan && cfg.hasOrigin && Enabled(cfg, s, e) && e.Store? && RetryWaits(s)
    ensures Runs(cfg, Step(cfg, s, e), es, t)
    ensures t.outdated == s.outdated + 1 && t.sends == s.sends + 1 && (t.forced, t.takeovers) == (s.forced, s.takeovers)
  {
    var s' := Step(cfg, s, e);
    var r :| r in s.pcs && s.pcs[r].Claiming? && s.pcs[r].memory == Loaded(None);
    es, t := OutdatedClaimFollows(cfg, s', e.w, r);
    es, t := Then(cfg, s', es, t, Read(r));
    es, t := Then(cfg, s', es, t, RunTool(r, ToolResult(true, "sent")));
  }

  lemma {:induction false} LoadsStayInformed(cfg: Config, s: State, es: seq<Event>, t: State)
    requires Approving(cfg) && SendInv(s) && s.outdated == 0 && (RetryWaits(s) ==> s.row.stored.None?)
    requires Runs(cfg, s, es, t) && LoadsHold(cfg, s, es)
    ensures StaysInformed(cfg, s, es)
    decreases |es|
  {
    forall more, u | Runs(cfg, s, more, u) && LoadsHold(cfg, s, more) ensures u.outdated == 0 {
      NoneOutdated(cfg, s, more, u);
    }
    if es == [] {
    } else {
      LoadsStep(cfg, s, es[0]);
      SendInvStep(cfg, s, es[0]);
      LoadsStayInformed(cfg, Step(cfg, s, es[0]), es[1..], t);
    }
  }

  lemma {:induction false} InformedOnlyIfLoadsHold(cfg: Config, s: State, es: seq<Event>, t: State)
    requires Runs(cfg, s, es, t) && StaysInformed(cfg, s, es)
    ensures LoadsHold(cfg, s, es)
    decreases |es|
  {
    if es == [] {
    } else {
      var s' := Step(cfg, s, es[0]);
      if es[0].Store? && RetryWaits(s) {
        var r :| r in s.pcs && s.pcs[r].Claiming? && s.pcs[r].memory == Loaded(None);
        var more, u := OutdatedClaimFollows(cfg, s', es[0].w, r);
        assert false;
      }
      InformedOnlyIfLoadsHold(cfg, s', es[1..], t);
    }
  }

  /** No claim is ever outdated, however a run goes on, exactly when no result was stored behind a waiting retry. */
  lemma NeverOutdatedIffLoadsHold(cfg: Config, s: State, es: seq<Event>, t: State)
    requires cfg.decision != Reject && Initial(s) && Runs(cfg, s, es, t)
    ensures StaysInformed(cfg, s, es) <==> LoadsHold(cfg, s, es)
  {
    if LoadsHold(cfg, s, es) {
      InitialSendInv(cfg, s);
      LoadsStayInformed(cfg, s, es, t);
    } else if StaysInformed(cfg, s, es) {
      InformedOnlyIfLoadsHold(cfg, s, es, t);
    }
  }

  // ---------------------------------------------------------------------
  // The bound is reached
  // ---------------------------------------------------------------------

  /** Take one more event at the end of a run. */
  lemma Then(cfg: Config, s0: State, es: seq<Event>, s: State, e: Event) returns (es': seq<Event>, s': State)
    requires Runs(cfg, s0, es, s) && Enabled(cfg, s, e)
    ensures es' == es + [e] && s' == Step(cfg, s, e) && Runs(cfg, s0, es', s')
  {
    RunsAppend(cfg, s0, es, s, e);
    es', s' := es + [e], Step(cfg, s, e);
  }

  /** A worker wins the claim and goes on with the action it sees. */
  lemma ClaimAndRead(cfg: Config, s0: State, es: seq<Event>, s: State, w: Worker)
      returns (es': seq<Event>, t: State)
    requires Runs(cfg, s0, es, s) && w in s.pcs && s.pcs[w].Claiming? && CanClaim(cfg, s, s.pcs[w].takeOver)
    ensures Runs(cfg, s0, es', t)
    ensures t.pcs == s.pcs[w := ReadPc(cfg, Seen(s.row, s.pcs[w].memory))]
    ensures t.row == Row(Executing, s.row.stored, s.now)
    ensures t == StepClaim(cfg, s, w).(pcs := t.pcs)
  {
    es', t := Then(cfg, s0, es, s, Claim(w));
    es', t := Then(cfg, s0, es', t, Read(w));
  }

  /** Every worker below n is used up, and none from n on has started. */
  ghost predicate NextWorker(s: State, n: Worker) { forall w | w in s.pcs :: w < n }

  /** The first n workers are retries that loaded no result and wait for their claim. */
  ghost predicate Waiting(s: State, n: Worker) {
    forall w | 0 <= w < n :: w in s.pcs && s.pcs[w] == Claiming(false, false, Loaded(None))
  }

  /** n plain retries load an action that nobody has run yet. */
  lemma {:induction false} Load(cfg: Config, s0: State, n: Worker) returns (es: seq<Event>, t: State)
    requires Initial(s0)
    ensures Runs(cfg, s0, es, t) && Waiting(t, n) && NextWorker(t, n) && t == s0.(pcs := t.pcs)
  {
    if n == 0 {
      es, t := [], s0;
    } else {
      es, t := Load(cfg, s0, n - 1);
      es, t := Then(cfg, s0, es, t, Retry(n - 1, false));
    }
  }

  /** A worker stands before its send, and no result is stored. */
  ghost predicate AboutToSend(s: State, n: Worker) {
    && s.row.status == Executing && s.row.stored == None && s.row.updatedAt <= s.now
    && n in s.pcs && s.pcs[n] == Fresh && NextWorker(s, n + 1)
  }

  /** A retry, forced if it must be, gets to the send of an action without a stored result. */
  lemma RetryToSend(cfg: Config, s0: State, es: seq<Event>, s: State, n: Worker, k: Worker)
      returns (es': seq<Event>, t: State)
    requires Approving(cfg) && cfg.hasPlan && cfg.hasOrigin && Runs(cfg, s0, es, s)
    requires s.row.stored == None && (s.row.status == Failed || (s.row.status == Executing && Stale(cfg, s)))
    requires NextWorker(s, n) && k <= n && Waiting(s, k)
    ensures Runs(cfg, s0, es', t) && AboutToSend(t, n) && Waiting(t, k)
    ensures t.forced == s.forced + One(s.row.status == Executing)
    ensures (t.sends, t.outdated, t.caught) == (s.sends, s.outdated, s.caught)
  {
    es', t := Then(cfg, s0, es, s, Retry(n, s.row.status == Executing));
    es', t := ClaimAndRead(cfg, s0, es', t, n);
  }

  /** The worker dies after its send, and a forced takeover stands before another. */
  lemma ForceOnce(cfg: Config, s0: State, es: seq<Event>, s: State, n: Worker, k: Worker)
      returns (es': seq<Event>, t: State)
    requires Approving(cfg) && cfg.hasPlan && cfg.hasOrigin && Runs(cfg, s0, es, s)
    requires AboutToSend(s, n) && k <= n && Waiting(s, k)
    ensures Runs(cfg, s0, es', t) && AboutToSend(t, n + 1) && Waiting(t, k)
    ensures t.sends == s.sends + 1 && t.forced == s.forced + 1 && (t.outdated, t.caught) == (s.outdated, s.caught)
  {
    es', t := Then(cfg, s0, es, s, RunTool(n, ToolResult(true, "sent")));
    es', t := Then(cfg, s0, es', t, Crash(n));
    es', t := Then(cfg, s0, es', t, Tick(cfg.staleSeconds + 1));
    es', t := RetryToSend(cfg, s0, es', t, n + 1, k);
  }

  lemma {:induction false} ForcedSends(cfg: Config, s0: State, es: seq<Event>, s: State, n: Worker, k: Worker, f: nat)
      returns (es': seq<Event>, t: State)
    requires Approving(cfg) && cfg.hasPlan && cfg.hasOrigin && Runs(cfg, s0, es, s)
    requires AboutToSend(s, n) && k <= n && Waiting(s, k)
    ensures Runs(cfg, s0, es', t) && AboutToSend(t, n + f) && Waiting(t, k)
    ensures t.sends == s.sends + f && t.forced == s.forced + f && (t.outdated, t.caught) == (s.outdated, s.caught)
  {
    if f == 0 {
      es', t := es, s;
    } else {
      es', t := ForcedSends(cfg, s0, es, s, n, k, f - 1);
      es', t := ForceOnce(cfg, s0, es', t, n + f - 1, k);
    }
  }

  /** A tool call that raises leaves the action FAILED, and a plain retry is about to send again. */
  lemma FailAndRetry(cfg: Config, s0: State, es: seq<Event>, s: State, n: Worker, k: Worker)
      returns (es': seq<Event>, t: State)
    requires Approving(cfg) && cfg.hasPlan && cfg.hasOrigin && Runs(cfg, s0, es, s)
    requires AboutToSend(s, n) && k <= n && Waiting(s, k)
    ensures Runs(cfg, s0, es', t) && AboutToSend(t, n + 1) && Waiting(t, k)
    ensures t.sends == s.sends + 1 && t.caught == s.caught + 1 && (t.forced, t.outdated) == (s.forced, s.outdated)
  {
    es', t := Then(cfg, s0, es, s, RunToolRaises(n));
    es', t := Then(cfg, s0, es', t, RecordFailure(n));
    es', t := RetryToSend(cfg, s0, es', t, n + 1, k);
  }

  lemma {:induction false} CaughtSends(cfg: Config, s0: State, es: seq<Event>, s: State, n: Worker, k: Worker, c: nat)
      returns (es': seq<Event>, t: State)
    requires Approving(cfg) && cfg.hasPlan && cfg.hasOrigin && Runs(cfg, s0, es, s)
    requires AboutToSend(s, n) && k <= n && Waiting(s, k)
    ensures Runs(cfg, s0, es', t) && AboutToSend(t, n + c) && Waiting(t, k)
    ensures t.sends == s.sends + c && t.caught == s.caught + c && (t.forced, t.outdated) == (s.forced, s.outdated)
  {
    if c == 0 {
      es', t := es, s;
    } else {
      es', t := CaughtSends(cfg, s0, es, s, n, k, c - 1);
      es', t := FailAndRetry(cfg, s0, es', t, n + c - 1, k);
    }
  }

  /** The send goes out and its result is stored; the graph raises and FAILED is recorded beside the result. */
  lemma SendStoreFail(cfg: Config, s0: State, es: seq<Event>, s: State, n: Worker) returns (es': seq<Event>, t: State)
    requires Runs(cfg, s0, es, s) && n in s.pcs && s.pcs[n] == Fresh
    ensures Runs(cfg, s0, es', t)
    ensures t.row.status == Failed && t.row.stored.Some? && t.pcs == s.pcs[n := Ended(ResumeFailed)]
    ensures t.sends == s.sends + 1 && (t.forced, t.outdated, t.caught) == (s.forced, s.outdated, s.caught)
    ensures t.takeovers == s.takeovers
  {
    es', t := Then(cfg, s0, es, s, RunTool(n, ToolResult(true, "sent")));
    es', t := Then(cfg, s0, es', t, Store(n));
    es', t := Then(cfg, s0, es', t, Raise(n));
    es', t := Then(cfg, s0, es', t, RecordFailure(n));
  }

  /** Each waiting retry claims the failed action in turn and sends once more, a result being stored all along. */
  lemma {:induction false} OutdatedSends(cfg: Config, s0: State, es: seq<Event>, s: State, k: Worker)
      returns (es': seq<Event>, t: State)
    requires Approving(cfg) && cfg.hasPlan && cfg.hasOrigin && Runs(cfg, s0, es, s)
    requires s.row.status == Failed && s.row.stored.Some? && Waiting(s, k)
    ensures Runs(cfg, s0, es', t)
    ensures t.sends == s.sends + k && t.outdated == s.outdated + k && (t.forced, t.caught) == (s.forced, s.caught)
    ensures t.takeovers == s.takeovers
    decreases k
  {
    if k == 0 {
      es', t := es, s;
    } else {
      es', t := ClaimAndRead(cfg, s0, es, s, k - 1);
      es', t := SendStoreFail(cfg, s0, es', t, k - 1);
      es', t := OutdatedSends(cfg, s0, es', t, k - 1);
    }
  }

  /** k retries have loaded the action when the decision's own resume gets to its send. */
  lemma Begin(cfg: Config, s: State, k: Worker) returns (es: seq<Event>, t: State)
    requires Approving(cfg) && cfg.hasPlan && cfg.hasOrigin && Initial(s)
    ensures Runs(cfg, s, es, t) && AboutToSend(t, k) && Waiting(t, k)
    ensures t.sends == t.forced == t.outdated == t.caught == 0
  {
    es, t := Load(cfg, s, k);
    es, t := Then(cfg, s, es, t, Decide(k));
    es, t := ClaimAndRead(cfg, s, es, t, k);
  }

  /** The send bound is exact: every mix of forces, outdated claims and caught failures has a run that meets it. */
  lemma SendBoundReached(cfg: Config, s: State, f: nat, k: nat, c: nat) returns (es: seq<Event>, t: State)
    requires cfg.decision != Reject && cfg.hasPlan && cfg.hasOrigin && Initial(s)
    ensures Runs(cfg, s, es, t)
    ensures t.forced == f && t.outdated == k && t.caught == c && t.sends == 1 + f + k + c
  {
    es, t := Begin(cfg, s, k);
    es, t := CaughtSends(cfg, s, es, t, k, k, c);
    es, t := ForcedSends(cfg, s, es, t, k + c, k, f);
    es, t := SendStoreFail(cfg, s, es, t, k + c + f);
    es, t := OutdatedSends(cfg, s, es, t, k);
  }

  /**
   Two overlapping retries send twice with no force, no takeover and no exception near a send: the first loads
   the action, the second runs, stores and fails in the graph, and the first claims the failed action without
   ever seeing the stored result.
  */
  lemma OverlappingRetriesSendTwice(cfg: Config, s: State) returns (es: seq<Event>, t: State)
    requires cfg.decision != Reject && cfg.hasPlan && cfg.hasOrigin && Initial(s)
    ensures Runs(cfg, s, es, t)
    ensures t.sends == 2 && t.forced == t.takeovers == t.caught == 0 && t.outdated == 1
  {
    es, t := Load(cfg, s, 2);
    es, t := ClaimAndRead(cfg, s, es, t, 1);
    es, t := SendStoreFail(cfg, s, es, t, 1);
    es, t := OutdatedSends(cfg, s, es, t, 1);
  }

  // ---------------------------------------------------------------------
  // Ownership and answers
  // ---------------------------------------------------------------------

  ghost predicate AnswerInv(s: State) {
    s.answers + Count(s, Owns) + One(Claimable(s.row.status)) <= 1 + s.takeovers
  }

  lemma AnswerInvStep(cfg: Config, s: State, e: Event)
    requires AnswerInv(s) && Enabled(cfg, s, e)
    ensures AnswerInv(Step(cfg, s, e))
  {
    if !e.Tick? {
      StepMoves(cfg, s, e);
      CountMove(s, Step(cfg, s, e), e.w, Owns);
    }
  }

  lemma {:induction false} AnswerInvRuns(cfg: Config, s: State, es: seq<Event>, t: State)
    requires AnswerInv(s) && Runs(cfg, s, es, t)
    ensures AnswerInv(t)
    decreases |es|
  {
    if es == [] {
    } else {
      AnswerInvStep(cfg, s, es[0]);
      AnswerInvRuns(cfg, Step(cfg, s, es[0]), es[1..], t);
    }
  }

  /** Answers committed and workers still owning the action: one, and one more per takeover. */
  lemma AnswerBound(cfg: Config, s: State, es: seq<Event>, t: State)
    requires Initial(s) && Runs(cfg, s, es, t)
    ensures t.answers + |Where(t.pcs, Owns)| <= 1 + t.takeovers
  {
    assert Where(s.pcs, Owns) == {};
    AnswerInvRuns(cfg, s, es, t);
  }

  ghost predicate Owned(s: State) { exists w :: w in s.pcs && Owns(s.pcs[w]) }

  ghost predicate Exclusive(s: State) {
    forall v, w | v in s.pcs && w in s.pcs && Owns(s.pcs[v]) && Owns(s.pcs[w]) :: v == w
  }

  /** This event takes a stale claim over from a worker that is still running. */
  ghost predicate TakesOverLive(cfg: Config, s: State, e: Event) {
    && e.Claim? && e.w in s.pcs && s.pcs[e.w].Claiming?
    && s.row.status == Executing && CanClaim(cfg, s, s.pcs[e.w].takeOver)
    && Owned(s)
  }

  /** No live worker is ever taken over. */
  ghost predicate CleanRun(cfg: Config, s: State, es: seq<Event>)
    decreases |es|
  {
    es == [] ||
    (Enabled(cfg, s, es[0]) && !TakesOverLive(cfg, s, es[0]) && CleanRun(cfg, Step(cfg, s, es[0]), es[1..]))
  }

  /** At most one worker owns the action in every state of the run. */
  ghost predicate ExclusiveRun(cfg: Config, s: State, es: seq<Event>)
    decreases |es|
  {
    Exclusive(s) &&
    (es == [] || (Enabled(cfg, s, es[0]) && ExclusiveRun(cfg, Step(cfg, s, es[0]), es[1..])))
  }

  /** In every state of the run, a live owner is within staleSeconds of the row's last update. */
  ghost predicate PromptRun(cfg: Config, s: State, es: seq<Event>)
    decreases |es|
  {
    (Owned(s) ==> s.now <= s.row.updatedAt + cfg.staleSeconds) &&
    (es == [] || (Enabled(cfg, s, es[0]) && PromptRun(cfg, Step(cfg, s, es[0]), es[1..])))
  }

  predicate Final(status: ActionStatus) { status == Completed || status == Rejected }

  /** Tool calls are for approvals, and an approved graph resumes with a result. */
  ghost predicate ViewInv(cfg: Config, pc: Pc) {
    && (pc.Fresh? || pc.Ran? ==> Approving(cfg))
    && (pc.Ready? || pc.Answered? ==> (pc.used.Some? <==> Approving(cfg)))
    && ((pc.Claiming? || pc.Claimed?) && pc.memory.Loaded? && pc.memory.result.Some? ==> Approving(cfg))
  }

  /** While no claim was outdated, a worker's view of the stored result is the row's. */
  ghost predicate KnownInv(s: State, pc: Pc) {
    && (pc.Claiming? && pc.memory.Loaded? && pc.memory.result.Some? ==> s.row.stored == pc.memory.result)
    && (pc.Claimed? ==> Seen(s.row, pc.memory) == s.row.stored)
    && (pc.Fresh? || pc.Ran? ==> s.row.stored == None)
    && (pc.Ready? || pc.Answered? ==> pc.used == s.row.stored)
  }

  ghost predicate OwnInv(cfg: Config, s: State) {
    && Exclusive(s)
    && (Owned(s) ==> s.row.status == Executing)
    && (forall w | w in s.pcs :: ViewInv(cfg, s.pcs[w]))
    && (s.outdated == 0 ==> forall w | w in s.pcs :: KnownInv(s, s.pcs[w]))
    && s.answers == One(Final(s.row.status))
    && (s.row.status == Completed ==> Approving(cfg))
    && (s.row.status == Rejected ==> !Approving(cfg))
    && (s.row.stored.Some? ==> Approving(cfg))
  }

  lemma ExclusiveStep(cfg: Config, s: State, e: Event)
    requires Exclusive(s) && (Owned(s) ==> s.row.status == Executing)
    requires Enabled(cfg, s, e)
    ensures var t := Step(cfg, s, e);
      if TakesOverLive(cfg, s, e) then !Exclusive(t)
      else Exclusive(t) && (Owned(t) ==> t.row.status == Executing)
  {
    var t := Step(cfg, s, e);
    if TakesOverLive(cfg, s, e) {
      var v :| v in s.pcs && Owns(s.pcs[v]);
      assert v != e.w && v in t.pcs && Owns(t.pcs[v]) && Owns(t.pcs[e.w]);
    } else if !e.Tick? {
      StepMoves(cfg, s, e);
    } else {
      assert t.pcs == s.pcs;
    }
  }

  lemma OwnInvStep(cfg: Config, s: State, e: Event)
    requires OwnInv(cfg, s) && Enabled(cfg, s, e) && !TakesOverLive(cfg, s, e)
    ensures OwnInv(cfg, Step(cfg, s, e))
    ensures Final(s.row.status) ==> Step(cfg, s, e).row == s.row
    ensures s.row.stored.Some? && Step(cfg, s, e).outdated == 0 ==> Step(cfg, s, e).row.stored == s.row.stored
  {
    ExclusiveStep(cfg, s, e);
    if !e.Tick? {
      StepMoves(cfg, s, e);
      if e.w in s.pcs {
        assert ViewInv(cfg, s.pcs[e.w]) && (s.outdated == 0 ==> KnownInv(s, s.pcs[e.w]));
      }
      if e.w in s.pcs && Owns(s.pcs[e.w]) {
        assert Owned(s);
      }
      ViewStep(cfg, s, e);
      if Step(cfg, s, e).outdated == 0 {
        KnownStep(cfg, s, e);
      }
    }
  }

  lemma KnownStep(cfg: Config, s: State, e: Event)
    requires OwnInv(cfg, s) && Enabled(cfg, s, e) && !TakesOverLive(cfg, s, e) && !e.Tick?
    requires Step(cfg, s, e).outdated == 0
    ensures var t := Step(cfg, s, e); forall w | w in t.pcs :: KnownInv(t, t.pcs[w])
  {
    var t := Step(cfg, s, e);
    forall w | w in t.pcs ensures KnownInv(t, t.pcs[w]) {
      if w in s.pcs {
        assert KnownInv(s, s.pcs[w]);
      }
      if e.w in s.pcs {
        assert KnownInv(s, s.pcs[e.w]) && ViewInv(cfg, s.pcs[e.w]);
      }
      if w != e.w && Owns(t.pcs[w]) && e.w in s.pcs && Owns(s.pcs[e.w]) {
        assert false;
      }
    }
  }

  lemma ViewStep(cfg: Config, s: State, e: Event)
    requires OwnInv(cfg, s) && Enabled(cfg, s, e) && !TakesOverLive(cfg, s, e) && !e.Tick?
    ensures var t := Step(cfg, s, e); forall w | w in t.pcs :: ViewInv(cfg, t.pcs[w])
  {
    var t := Step(cfg, s, e);
    forall w | w in t.pcs ensures ViewInv(cfg, t.pcs[w]) {
      if w != e.w {
        assert ViewInv(cfg, s.pcs[w]);
      } else if w in s.pcs {
        assert ViewInv(cfg, s.pcs[w]);
      }
    }
  }

  lemma {:induction false} OwnInvRuns(cfg: Config, s: State, es: seq<Event>, t: State)
    requires OwnInv(cfg, s) && Runs(cfg, s, es, t) && CleanRun(cfg, s, es)
    ensures OwnInv(cfg, t) && ExclusiveRun(cfg, s, es)
    ensures Final(s.row.status) ==> t.row == s.row
    ensures s.outdated <= t.outdated
    ensures s.row.stored.Some? && t.outdated == 0 ==> t.row.stored == s.row.stored
    decreases |es|
  {
    if es == [] {
    } else {
      OwnInvStep(cfg, s, es[0]);
      OwnInvRuns(cfg, Step(cfg, s, es[0]), es[1..], t);
    }
  }

  lemma {:induction false} ExclusiveOnlyIfClean(cfg: Config, s: State, es: seq<Event>)
    requires Owned(s) ==> s.row.status == Executing
    requires ExclusiveRun(cfg, s, es)
    ensures CleanRun(cfg, s, es)
    decreases |es|
  {
    if es == [] {
    } else {
      ExclusiveStep(cfg, s, es[0]);
      assert Exclusive(Step(cfg, s, es[0]));
      ExclusiveOnlyIfClean(cfg, Step(cfg, s, es[0]), es[1..]);
    }
  }

  /** One owner in every state of a run, exactly when the run never takes over a live worker. */
  lemma ExclusiveIffClean(cfg: Config, s: State, es: seq<Event>, t: State)
    requires Initial(s) && Runs(cfg, s, es, t)
    ensures ExclusiveRun(cfg, s, es) <==> CleanRun(cfg, s, es)
  {
    if ExclusiveRun(cfg, s, es) {
      ExclusiveOnlyIfClean(cfg, s, es);
    }
    if CleanRun(cfg, s, es) {
      OwnInvRuns(cfg, s, es, t);
    }
  }

  /** Workers that keep within HITL_RESUME_STALE_SECONDS are never taken over alive. */
  lemma {:induction false} PromptIsClean(cfg: Config, s: State, es: seq<Event>, t: State)
    requires Runs(cfg, s, es, t) && PromptRun(cfg, s, es)
    requires Owned(s) ==> s.row.status == Executing
    requires Exclusive(s)
    ensures CleanRun(cfg, s, es)
    decreases |es|
  {
    if es == [] {
    } else {
      ExclusiveStep(cfg, s, es[0]);
      PromptIsClean(cfg, Step(cfg, s, es[0]), es[1..], t);
    }
  }

  /** One answer is committed when the action has finished, and none before. */
  predicate OneAnswer(s: State) { s.answers == if Final(s.row.status) then 1 else 0 }

  /** While no live worker is taken over: one owner throughout, and one answer exactly when the action finished. */
  lemma SingleAnswer(cfg: Config, s: State, es: seq<Event>, t: State)
    requires Initial(s) && Runs(cfg, s, es, t) && CleanRun(cfg, s, es)
    ensures ExclusiveRun(cfg, s, es) && OneAnswer(t)
    ensures t.row.status == Completed ==> (cfg.decision == Approve || cfg.decision == Edit) && t.row.stored.Some?
    ensures t.row.status == Rejected ==> cfg.decision == Reject && t.sends == 0
  {
    OwnInvRuns(cfg, s, es, t);
    SendBound(cfg, s, es, t);
    StoredWhenCompleted(cfg, s, es, t);
  }

  lemma {:induction false} StoredWhenCompleted(cfg: Config, s: State, es: seq<Event>, t: State)
    requires OwnInv(cfg, s) && Runs(cfg, s, es, t) && CleanRun(cfg, s, es)
    requires s.row.status == Completed ==> s.row.stored.Some?
    ensures t.row.status == Completed ==> t.row.stored.Some?
    decreases |es|
  {
    if es == [] {
    } else {
      var e := es[0];
      OwnInvStep(cfg, s, e);
      if e.Finish? {
        assert ViewInv(cfg, s.pcs[e.w]);
      }
      StoredWhenCompleted(cfg, Step(cfg, s, e), es[1..], t);
    }
  }

  /**
   While no live worker is taken over a finished row never changes again, and a stored result is never replaced
   unless some claim was outdated.
  */
  lemma FinishedForGood(cfg: Config, s: State, es: seq<Event>, t: State, more: seq<Event>, u: State)
    requires Initial(s) && Runs(cfg, s, es, t) && CleanRun(cfg, s, es)
    requires Runs(cfg, t, more, u) && CleanRun(cfg, t, more)
    ensures Final(t.row.status) ==> u.row == t.row && u.answers == t.answers
    ensures t.row.stored.Some? && u.outdated == 0 ==> u.row.stored == t.row.stored
  {
    OwnInvRuns(cfg, s, es, t);
    OwnInvRuns(cfg, t, more, u);
  }

  /** Prompt workers are enough for both. */
  lemma PromptAnswersHold(cfg: Config, s: State, es: seq<Event>, t: State, more: seq<Event>, u: State)
    requires Initial(s) && Runs(cfg, s, es, t) && PromptRun(cfg, s, es)
    requires Runs(cfg, t, more, u) && PromptRun(cfg, t, more)
    ensures OneAnswer(t) && OneAnswer(u)
    ensures Final(t.row.status) ==> u.row == t.row && u.answers == t.answers
  {
    PromptIsClean(cfg, s, es, t);
    OwnInvRuns(cfg, s, es, t);
    PromptIsClean(cfg, t, more, u);
    OwnInvRuns(cfg, t, more, u);
  }

  // ---------------------------------------------------------------------
  // Exactly when the answer stays single
  // ---------------------------------------------------------------------

  /** From every state of the run on, however it goes on without taking over a live worker, the answer is single. */
  ghost predicate StaysSingle(cfg: Config, s: State, es: seq<Event>)
    decreases |es|
  {
    && (forall more, u | Runs(cfg, s, more, u) && CleanRun(cfg, s, more) :: OneAnswer(u))
    && (es == [] || (Enabled(cfg, s, es[0]) && StaysSingle(cfg, Step(cfg, s, es[0]), es[1..])))
  }

  /** An event that claims nothing, at the end of a clean run. */
  lemma CleanThen(cfg: Config, s0: State, es: seq<Event>, s: State, e: Event) returns (es': seq<Event>, s': State)
    requires Runs(cfg, s0, es, s) && CleanRun(cfg, s0, es) && Enabled(cfg, s, e) && !TakesOverLive(cfg, s, e)
    ensures es' == es + [e] && s' == Step(cfg, s, e) && Runs(cfg, s0, es', s') && CleanRun(cfg, s0, es')
  {
    es', s' := Then(cfg, s0, es, s, e);
    CleanAppend(cfg, s0, es, s, e);
  }

  lemma {:induction false} CleanAppend(cfg: Config, s: State, es: seq<Event>, t: State, e: Event)
    requires Runs(cfg, s, es, t) && CleanRun(cfg, s, es) && Enabled(cfg, t, e) && !TakesOverLive(cfg, t, e)
    ensures CleanRun(cfg, s, es + [e])
    decreases |es|
  {
    if es == [] {
      assert (es + [e])[1..] == [];
    } else {
      CleanAppend(cfg, Step(cfg, s, es[0]), es[1..], t, e);
      assert (es + [e])[1..] == es[1..] + [e];
    }
  }

  /** A worker that has just won the claim goes on to its answer, undisturbed. */
  lemma ClaimedFinishes(cfg: Config, s: State, w: Worker) returns (es: seq<Event>, t: State)
    requires cfg.hasPlan && cfg.hasOrigin && w in s.pcs && s.pcs[w].Claimed?
    ensures Runs(cfg, s, es, t) && CleanRun(cfg, s, es)
    ensures t.pcs == s.pcs[w := Ended(ResumeCompleted)] && Final(t.row.status) && t.answers == s.answers + 1
  {
    es, t := CleanThen(cfg, s, [], s, Read(w));
    if t.pcs[w].Fresh? {
      es, t := CleanThen(cfg, s, es, t, RunTool(w, ToolResult(true, "sent")));
      es, t := CleanThen(cfg, s, es, t, Store(w));
    }
    es, t := CleanThen(cfg, s, es, t, ResumeGraph(w));
    es, t := CleanThen(cfg, s, es, t, Finish(w));
  }

  /** The worker taken over fails in its turn, and an answered action is FAILED. */
  lemma OwnerFails(cfg: Config, s0: State, es: seq<Event>, s: State, v: Worker) returns (es': seq<Event>, t: State)
    requires Runs(cfg, s0, es, s) && CleanRun(cfg, s0, es) && v in s.pcs && Owns(s.pcs[v])
    ensures Runs(cfg, s0, es', t) && CleanRun(cfg, s0, es') && t.row.status == Failed && t.answers == s.answers
  {
    es', t := es, s;
    if !s.pcs[v].Failing? {
      es', t := CleanThen(cfg, s0, es', t, Raise(v));
    }
    es', t := CleanThen(cfg, s0, es', t, RecordFailure(v));
  }

  /** Once a live worker is taken over, the new owner can answer and the old one undo it. */
  lemma TakeoverCanUndo(cfg: Config, s: State, e: Event) returns (es: seq<Event>, t: State)
    requires cfg.hasPlan && cfg.hasOrigin && Enabled(cfg, s, e) && TakesOverLive(cfg, s, e)
    ensures var s' := Step(cfg, s, e); Runs(cfg, s', es, t) && CleanRun(cfg, s', es) && !OneAnswer(t)
    ensures t.row.status == Failed && t.answers == s.answers + 1
  {
    var s' := Step(cfg, s, e);
    var v :| v in s.pcs && Owns(s.pcs[v]);
    es, t := ClaimedFinishes(cfg, s', e.w);
    es, t := OwnerFails(cfg, s', es, t, v);
  }

  /** Without a plan or an originating event no worker gets as far as an answer. */
  ghost predicate Unanswered(s: State) {
    && s.answers == 0 && !Final(s.row.status)
    && forall w | w in s.pcs :: !s.pcs[w].Fresh? && !s.pcs[w].Ran? && !s.pcs[w].Ready? && !s.pcs[w].Answered?
  }

  lemma {:induction false} UnansweredRuns(cfg: Config, s: State, es: seq<Event>, t: State)
    requires (!cfg.hasPlan || !cfg.hasOrigin) && Unanswered(s) && Runs(cfg, s, es, t)
    ensures Unanswered(t)
    decreases |es|
  {
    if es == [] {
    } else {
      UnansweredRuns(cfg, Step(cfg, s, es[0]), es[1..], t);
    }
  }

  lemma {:induction false} UnansweredStaysSingle(cfg: Config, s: State, es: seq<Event>, t: State)
    requires (!cfg.hasPlan || !cfg.hasOrigin) && Unanswered(s) && Runs(cfg, s, es, t)
    ensures StaysSingle(cfg, s, es)
    decreases |es|
  {
    forall more, u | Runs(cfg, s, more, u) && CleanRun(cfg, s, more) ensures OneAnswer(u) {
      UnansweredRuns(cfg, s, more, u);
    }
    if es == [] {
    } else {
      UnansweredRuns(cfg, s, es[..1], Step(cfg, s, es[0]));
      UnansweredStaysSingle(cfg, Step(cfg, s, es[0]), es[1..], t);
    }
  }

  lemma {:induction false} CleanStaysSingle(cfg: Config, s: State, es: seq<Event>, t: State)
    requires OwnInv(cfg, s) && Runs(cfg, s, es, t) && CleanRun(cfg, s, es)
    ensures StaysSingle(cfg, s, es)
    decreases |es|
  {
    forall more, u | Runs(cfg, s, more, u) && CleanRun(cfg, s, more) ensures OneAnswer(u) {
      OwnInvRuns(cfg, s, more, u);
    }
    if es == [] {
    } else {
      OwnInvStep(cfg, s, es[0]);
      CleanStaysSingle(cfg, Step(cfg, s, es[0]), es[1..], t);
    }
  }

  lemma {:induction false} SingleOnlyIfClean(cfg: Config, s: State, es: seq<Event>, t: State)
    requires cfg.hasPlan && cfg.hasOrigin && Runs(cfg, s, es, t) && StaysSingle(cfg, s, es)
    ensures CleanRun(cfg, s, es)
    decreases |es|
  {
    if es == [] {
    } else {
      if TakesOverLive(cfg, s, es[0]) {
        var more, u := TakeoverCanUndo(cfg, s, es[0]);
        assert false;
      }
      SingleOnlyIfClean(cfg, Step(cfg, s, es[0]), es[1..], t);
    }
  }

  /**
   The answer stays single, however a run goes on from any of its states, exactly when no live worker was taken
   over in it; without a plan or an originating event nothing is ever answered.
  */
  lemma SingleAnswerIffClean(cfg: Config, s: State, es: seq<Event>, t: State)
    requires Initial(s) && Runs(cfg, s, es, t)
    ensures StaysSingle(cfg, s, es) <==> CleanRun(cfg, s, es) || !cfg.hasPlan || !cfg.hasOrigin
  {
    if !cfg.hasPlan || !cfg.hasOrigin {
      UnansweredStaysSingle(cfg, s, es, t);
    } else if CleanRun(cfg, s, es) {
      CleanStaysSingle(cfg, s, es, t);
    } else if StaysSingle(cfg, s, es) {
      SingleOnlyIfClean(cfg, s, es, t);
    }
  }

  ghost predicate SampleConfig(cfg: Config) {
    Approving(cfg) && cfg.staleSeconds == 600 && cfg.hasPlan && cfg.hasOrigin
  }

  /** An approved send that is stored and answered by the graph, its worker not yet finished. */
  lemma AnsweredButUnfinished(cfg: Config, s: State) returns (es: seq<Event>, t: State)
    requires SampleConfig(cfg) && Initial(s)
    ensures Runs(cfg, s, es, t)
    ensures t.pcs == map[0 := Answered(t.row.stored)] && t.now == s.now
    ensures t.row.status == Executing && t.row.stored.Some? && t.row.updatedAt == t.now
    ensures t.sends == 1 && t.answers == t.takeovers == t.forced == 0
  {
    es, t := Then(cfg, s, [], s, Decide(0));
    es, t := ClaimAndRead(cfg, s, es, t, 0);
    assert t.pcs == map[0 := Fresh];
    es, t := Then(cfg, s, es, t, RunTool(0, ToolResult(true, "sent")));
    es, t := Then(cfg, s, es, t, Store(0));
    assert t.pcs == map[0 := Ready(t.row.stored)];
    es, t := Then(cfg, s, es, t, ResumeGraph(0));
  }

  /** Its claim goes stale, and a plain retry needs no confirmation to go on to the claim. */
  lemma StaleButStored(cfg: Config, s: State) returns (es: seq<Event>, t: State)
    requires SampleConfig(cfg) && Initial(s)
    ensures Runs(cfg, s, es, t)
    ensures t.pcs == map[0 := Answered(t.row.stored), 1 := Claiming(true, false, Loaded(t.row.stored))]
    ensures t.row.status == Executing && t.row.stored.Some? && Stale(cfg, t)
    ensures t.sends == 1 && t.answers == t.takeovers == t.forced == 0
  {
    es, t := AnsweredButUnfinished(cfg, s);
    es, t := Then(cfg, s, es, t, Tick(601));
    es, t := Then(cfg, s, es, t, Retry(1, false));
  }

  /** The retry takes the claim over, reuses the stored result and finishes. */
  lemma TakenOverAndFinished(cfg: Config, s: State) returns (es: seq<Event>, t: State)
    requires SampleConfig(cfg) && Initial(s)
    ensures Runs(cfg, s, es, t)
    ensures t.pcs == map[0 := Answered(t.row.stored), 1 := Ended(ResumeCompleted)]
    ensures t.row.status == Completed
    ensures t.sends == t.answers == t.takeovers == 1 && t.forced == 0
  {
    es, t := StaleButStored(cfg, s);
    es, t := ClaimAndRead(cfg, s, es, t, 1);
    es, t := Then(cfg, s, es, t, ResumeGraph(1));
    es, t := Then(cfg, s, es, t, Finish(1));
  }

  /**
   A takeover of a live worker at work: a slow worker whose stored send was taken over
   commits a second answer, with no force and one send, and a slow worker that fails instead
   turns the finished action FAILED again.
   */
  lemma SlowWorkerBreaksSingleAnswer(s: State, restates: bool)
      returns (cfg: Config, twice: seq<Event>, t: State, undone: seq<Event>, u: State)
    requires Initial(s)
    ensures Runs(cfg, s, twice, t) && Runs(cfg, s, undone, u)
    ensures t.answers == 2 && t.forced == 0 && t.sends == 1 && t.takeovers == 1
    ensures u.row.status == Failed && u.answers == 1
  {
    cfg := Config(Approve, 600, true, true, restates);
    undone, u := TakenOverAndFinished(cfg, s);
    twice, t := Then(cfg, s, undone, u, Finish(0));
    undone, u := Then(cfg, s, undone, u, Raise(0));
    undone, u := Then(cfg, s, undone, u, RecordFailure(0));
  }
}

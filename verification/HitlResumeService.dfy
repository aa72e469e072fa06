/**
 resume_after_decision() and retry() as they are written: one worker's calls over a row it
 updates in place. Each call is proved to be a run of the transition system in HitlResume
 in which no other worker moves; runs there interleave the same events of any number of workers.
*/
module HitlResumeService {
  import opened Common
  import opened HitlResume

  datatype Authorization = Allowed | Denied | AuthorizationRaises

  datatype ToolCall = Returns(result: ToolResult) | ToolRaises

  /** What the world answers during one call: which I/O steps raise, and what the others return. */
  datatype Environment = Environment(
    claimRaises: bool, gone: bool, readRaises: bool, authorization: Authorization, tool: ToolCall,
    storeRaises: bool, graphRaises: bool, finishRaises: bool, recordRaises: bool)

  /** How the first half of the try block ends: an early return, an exception, or a result to resume with. */
  datatype Reading = Stopped | Caught | ToResume(used: Option<ToolResult>)

  /** Nothing but this worker moved. */
  ghost predicate OnlyBy(w: Worker, es: seq<Event>) { forall e | e in es :: !e.Tick? && e.w == w }

  ghost function PcOf(reading: Reading): Pc {
    match reading
    case Stopped => Ended(ResumeFailed)
    case Caught => Failing
    case ToResume(used) => Ready(used)
  }

  /** A fresh tool call ends with a committed result. */
  predicate ToolStores(env: Environment) {
    !env.storeRaises && (env.authorization.Denied? || (env.authorization.Allowed? && env.tool.Returns?))
  }

  /** The tool is called: an approved action without a stored result, read without trouble, still permitted. */
  predicate CallsTool(cfg: Config, env: Environment, stored: Option<ToolResult>) {
    && !env.gone && !env.readRaises && cfg.hasPlan && cfg.hasOrigin
    && Approving(cfg) && stored.None? && env.authorization.Allowed?
  }

  /** The graph can be resumed. */
  predicate Resumable(cfg: Config, env: Environment, stored: Option<ToolResult>) {
    && !env.gone && !env.readRaises && cfg.hasPlan && cfg.hasOrigin
    && (Approving(cfg) && stored.None? ==> ToolStores(env))
  }

  /** What the graph is resumed with: nothing, the stored result, or the fresh one. */
  function ResumedWith(cfg: Config, env: Environment, stored: Option<ToolResult>): Option<ToolResult>
    requires Resumable(cfg, env, stored)
  {
    if !Approving(cfg) then None
    else if stored.Some? then stored
    else Some(if env.authorization.Denied? then REFUSED else env.tool.result)
  }

  /** Nothing raises on the way to the committed answer. */
  predicate Finishes(cfg: Config, env: Environment, stored: Option<ToolResult>) {
    Resumable(cfg, env, stored) && !env.graphRaises && !env.finishRaises
  }

  /** Nothing raises, and an allowed tool call answers. */
  predicate Untroubled(env: Environment) {
    && !env.claimRaises && !env.gone && !env.readRaises && !env.storeRaises && !env.graphRaises && !env.finishRaises
    && !env.authorization.AuthorizationRaises? && (env.authorization.Allowed? ==> env.tool.Returns?)
  }

  /** What a completed call has done: seen is the stored result its session saw. */
  predicate Carried(cfg: Config, env: Environment, seen: Option<ToolResult>, before: nat, s: State) {
    match cfg.decision
    case Reject => s.row.status == Rejected && s.sends == before
    case _ =>
      && s.row.status == Completed
      && match seen
         case Some(r) => s.row.stored == Some(r) && s.sends == before
         case None =>
           if env.authorization.Allowed?
           then env.tool.Returns? && s.row.stored == Some(env.tool.result) && s.sends == before + 1
           else s.row.stored.Some? && !s.row.stored.value.success && s.sends == before
  }

  class ActionTable {
    // The durable row.
    var status: ActionStatus
    var stored: Option<ToolResult>
    var updatedAt: int
    // The outside world's view of the action.
    var now: int
    var sends: nat
    var answers: nat
    // What the proof tracks.
    ghost var pcs: map<Worker, Pc>
    ghost var takeovers: nat
    ghost var forced: nat
    ghost var outdated: nat
    ghost var caught: nat

    ghost function Snapshot(): State
      reads this
    {
      State(Row(status, stored, updatedAt), pcs, now, sends, answers, takeovers, forced, outdated, caught)
    }

    /** The stored result this session sees. */
    function View(memory: Memory): Option<ToolResult>
      reads this
    {
      Seen(Row(status, stored, updatedAt), memory)
    }

    constructor (at: int)
      ensures Initial(Snapshot()) && now == at
    {
      status, stored, updatedAt, now := PendingApproval, None, at, at;
      sends, answers := 0, 0;
      pcs, takeovers, forced, outdated, caught := map[], 0, 0, 0, 0;
    }

    /** The conditional UPDATE: true when this call moved the action to EXECUTING. */
    method ClaimRow(cfg: Config, ghost w: Worker, takeOver: bool) returns (claimed: bool)
      requires w in pcs && pcs[w].Claiming? && pcs[w].takeOver == takeOver
      modifies this
      ensures claimed == CanClaim(cfg, old(Snapshot()), takeOver)
      ensures Snapshot() == Step(cfg, old(Snapshot()), Claim(w))
    {
      ghost var mine := pcs[w];
      claimed :=
        status == PendingApproval || status == Failed ||
        (takeOver && status == Executing && updatedAt < now - cfg.staleSeconds);
      if claimed {
        takeovers := takeovers + One(status == Executing);
        forced := forced + One(status == Executing && mine.forced && stored.None?);
        outdated := outdated + One(Outdated(Row(status, stored, updatedAt), mine.memory));
        status, updatedAt := Executing, now;
        pcs := pcs[w := Claimed(mine.memory)];
      } else {
        pcs := pcs[w := Ended(if mine.memory.Loaded? then NotAllowed else InProgress)];
      }
    }

    /** Commits the tool's result before anything else can fail. */
    method StoreResult(cfg: Config, ghost w: Worker, result: ToolResult)
      requires w in pcs && pcs[w].Ran? && pcs[w].result == result
      modifies this
      ensures Snapshot() == Step(cfg, old(Snapshot()), Store(w))
    {
      stored, updatedAt := Some(result), now;
      if cfg.restates {
        status := Executing;
      }
      pcs := pcs[w := Ready(Some(result))];
    }

    /** The answer event and the finished action, in one transaction. */
    method CommitAnswer(cfg: Config, ghost w: Worker, used: Option<ToolResult>)
      requires w in pcs && pcs[w] == Answered(used)
      modifies this
      ensures Snapshot() == Step(cfg, old(Snapshot()), Finish(w))
    {
      answers := answers + 1;
      status := if Approving(cfg) then Completed else Rejected;
      stored, updatedAt := used, now;
      pcs := pcs[w := Ended(ResumeCompleted)];
    }

    /** _record_failure(): best effort, and unconditional when it works. */
    method CommitFailure(cfg: Config, ghost w: Worker, raises: bool)
      requires w in pcs && pcs[w].Failing?
      modifies this
      ensures Snapshot() ==
              Step(cfg, old(Snapshot()), if raises then RecordFailureRaises(w) else RecordFailure(w))
    {
      if !raises {
        status, updatedAt := Failed, now;
      }
      pcs := pcs[w := Ended(ResumeFailed)];
    }

    /** The fresh call of _approved_tool_result(): re-check permission, then run or refuse. */
    method AuthorizeAndRun(cfg: Config, w: Worker, env: Environment)
        returns (result: Option<ToolResult>, ghost e: Event)
      requires w in pcs && pcs[w].Fresh?
      modifies this
      ensures Enabled(cfg, old(Snapshot()), e) && Snapshot() == Step(cfg, old(Snapshot()), e) && OnlyBy(w, [e])
      ensures w in pcs &&
              pcs[w] == if result.Some? then Ran(result.value, env.authorization.Allowed?) else Failing
      ensures sends == old(sends) + One(env.authorization.Allowed?) && answers == old(answers)
      ensures result.Some? <==> env.authorization.Denied? || (env.authorization.Allowed? && env.tool.Returns?)
      ensures result.Some? ==> result.value == if env.authorization.Denied? then REFUSED else env.tool.result
    {
      match env.authorization {
        case AuthorizationRaises =>
          e := Raise(w);
          result, pcs := None, pcs[w := Failing];
        case Denied =>
          e := Deny(w);
          result, pcs := Some(REFUSED), pcs[w := Ran(REFUSED, false)];
        case Allowed =>
          sends := sends + 1;
          match env.tool {
            case ToolRaises =>
              e := RunToolRaises(w);
              result, caught, pcs := None, caught + 1, pcs[w := Failing];
            case Returns(r) =>
              e := RunTool(w, r);
              result, pcs := Some(r), pcs[w := Ran(r, true)];
          }
      }
    }

    /** _approved_tool_result() without a stored result: run, then commit the result at once. */
    method FreshToolResult(cfg: Config, w: Worker, env: Environment)
        returns (result: Option<ToolResult>, ghost es: seq<Event>)
      requires w in pcs && pcs[w].Fresh?
      modifies this
      ensures Runs(cfg, old(Snapshot()), es, Snapshot())
      ensures OnlyBy(w, es)
      ensures w in pcs && pcs[w] == if result.Some? then Ready(result) else Failing
      ensures sends == old(sends) + One(env.authorization.Allowed?) && answers == old(answers)
      ensures result.Some? <==> ToolStores(env)
      ensures result.Some? ==> stored == result && status == if cfg.restates then Executing else old(status)
      ensures result.Some? ==> result.value == if env.authorization.Denied? then REFUSED else env.tool.result
    {
      ghost var s0 := Snapshot();
      ghost var e, s;
      result, e := AuthorizeAndRun(cfg, w, env);
      es, s := Then(cfg, s0, [], s0, e);
      if result.None? {
        return;
      }
      if env.storeRaises {
        es, s := Then(cfg, s0, es, s, Raise(w));
        caught := caught + One(pcs[w].ran);
        pcs := pcs[w := Failing];
        return None, es;
      }
      es, s := Then(cfg, s0, es, s, Store(w));
      StoreResult(cfg, w, result.value);
    }

    /**
     The part of the try block from reading the action to having a result to resume with. memory: what get()
     finds in the session instead of the row.
    */
    method ReadAndRun(cfg: Config, w: Worker, memory: Memory, env: Environment)
        returns (reading: Reading, ghost es: seq<Event>)
      requires w in pcs && pcs[w] == Claimed(memory)
      modifies this
      ensures Runs(cfg, old(Snapshot()), es, Snapshot())
      ensures OnlyBy(w, es)
      ensures w in pcs && pcs[w] == PcOf(reading)
      ensures reading.Stopped? <==> env.gone || (!env.readRaises && !cfg.hasPlan)
      ensures reading.Stopped? ==> status == old(status)
      ensures reading.ToResume? <==> Resumable(cfg, env, old(View(memory)))
      ensures reading.ToResume? ==> reading.used == ResumedWith(cfg, env, old(View(memory)))
      ensures answers == old(answers) && sends == old(sends) + One(CallsTool(cfg, env, old(View(memory))))
    {
      ghost var s0 := Snapshot();
      ghost var s;
      if env.gone || (!env.readRaises && !cfg.hasPlan) {
        es, s := Then(cfg, s0, [], s0, if env.gone then ReadGone(w) else Read(w));
        pcs := pcs[w := Ended(ResumeFailed)];
        return Stopped, es;
      }
      if env.readRaises || !cfg.hasOrigin {
        es, s := Then(cfg, s0, [], s0, if env.readRaises then Raise(w) else Read(w));
        pcs := pcs[w := Failing];
        return Caught, es;
      }
      es, s := Then(cfg, s0, [], s0, Read(w));
      var seen := View(memory);
      pcs := pcs[w := ReadPc(cfg, seen)];
      if !Approving(cfg) {
        return ToResume(None), es;
      }
      if seen.Some? {
        return ToResume(seen), es;
      }
      ghost var more;
      var result;
      result, more := FreshToolResult(cfg, w, env);
      RunsConcat(cfg, s0, es, s, more, Snapshot());
      es := es + more;
      reading := if result.Some? then ToResume(result) else Caught;
    }

    /** The claim and its commit: won, or the outcome the call ends with. */
    method TryClaim(cfg: Config, w: Worker, takeOver: bool, memory: Memory, raises: bool)
        returns (claimed: bool, outcome: Outcome, ghost es: seq<Event>)
      requires w in pcs && pcs[w].Claiming? && pcs[w].takeOver == takeOver && pcs[w].memory == memory
      modifies this
      ensures Runs(cfg, old(Snapshot()), es, Snapshot()) && OnlyBy(w, es)
      ensures claimed <==> !raises && CanClaim(cfg, old(Snapshot()), takeOver)
      ensures outcome == if raises then ResumeFailed else InProgress
      ensures stored == old(stored) && sends == old(sends) && answers == old(answers)
      ensures status == if claimed then Executing else old(status)
      ensures w in pcs && pcs[w] ==
              if claimed then Claimed(memory)
              else Ended(if outcome == InProgress && memory.Loaded? then NotAllowed else outcome)
    {
      ghost var s0 := Snapshot();
      ghost var s;
      outcome := if raises then ResumeFailed else InProgress;
      if raises {
        es, s := Then(cfg, s0, [], s0, ClaimRaises(w));
        claimed, pcs := false, pcs[w := Ended(ResumeFailed)];
      } else {
        es, s := Then(cfg, s0, [], s0, Claim(w));
        claimed := ClaimRow(cfg, w, takeOver);
      }
    }

    /** resume_after_decision(), from the claim on. It never raises. */
    method ResumeAfterDecision(cfg: Config, w: Worker, takeOver: bool, memory: Memory, env: Environment)
        returns (outcome: Outcome, ghost es: seq<Event>)
      requires w in pcs && pcs[w].Claiming? && pcs[w].takeOver == takeOver && pcs[w].memory == memory
      modifies this
      ensures Runs(cfg, old(Snapshot()), es, Snapshot())
      ensures OnlyBy(w, es)
      ensures w in pcs && pcs[w] ==
              Ended(if outcome == InProgress && memory.Loaded? then NotAllowed else outcome)
      ensures outcome == InProgress ==>
              status == old(status) && stored == old(stored) && sends == old(sends) && answers == old(answers)
      ensures outcome ==
              if env.claimRaises then ResumeFailed
              else if !CanClaim(cfg, old(Snapshot()), takeOver) then InProgress
              else if Finishes(cfg, env, old(View(memory))) then ResumeCompleted else ResumeFailed
      ensures outcome == ResumeCompleted ==>
              Carried(cfg, env, if memory.Loaded? then memory.result else old(stored), old(sends), Snapshot())
      ensures answers == old(answers) + One(outcome == ResumeCompleted)
      ensures sends == old(sends) + One(
                !env.claimRaises && CanClaim(cfg, old(Snapshot()), takeOver) && CallsTool(cfg, env, old(View(memory))))
      ensures Untroubled(env) && cfg.hasPlan && cfg.hasOrigin ==>
              (old(status) == PendingApproval || old(status) == Failed ==> outcome == ResumeCompleted)
      // Where the early ends leave the action.
      ensures outcome == ResumeFailed && !env.claimRaises && !env.readRaises && (env.gone || !cfg.hasPlan) ==>
              status == Executing
      ensures outcome == ResumeFailed && !env.claimRaises && !env.gone && !env.recordRaises && cfg.hasPlan ==>
              status == Failed
    {
      ghost var s0 := Snapshot();
      ghost var more;
      var claimed;
      claimed, outcome, es := TryClaim(cfg, w, takeOver, memory, env.claimRaises);
      if !claimed {
        return;
      }
      ghost var s := Snapshot();
      outcome, more := RunClaimed(cfg, w, memory, env);
      RunsConcat(cfg, s0, es, s, more, Snapshot());
      es := es + more;
    }

    /** The try block of a worker that won the claim, with its handler. */
    method RunClaimed(cfg: Config, w: Worker, memory: Memory, env: Environment)
        returns (outcome: Outcome, ghost es: seq<Event>)
      requires w in pcs && pcs[w] == Claimed(memory)
      modifies this
      ensures Runs(cfg, old(Snapshot()), es, Snapshot()) && OnlyBy(w, es)
      ensures w in pcs && pcs[w] == Ended(outcome)
      ensures outcome == if Finishes(cfg, env, old(View(memory))) then ResumeCompleted else ResumeFailed
      ensures sends == old(sends) + One(CallsTool(cfg, env, old(View(memory))))
      ensures outcome == ResumeCompleted ==>
              Carried(cfg, env, if memory.Loaded? then memory.result else old(stored), old(sends), Snapshot())
      ensures answers == old(answers) + One(outcome == ResumeCompleted)
      ensures env.gone || (!env.readRaises && !cfg.hasPlan) ==> status == old(status)
      ensures outcome == ResumeFailed && !env.gone && !env.recordRaises && cfg.hasPlan ==> status == Failed
    {
      ghost var s0, s, more := Snapshot(), Snapshot(), [];
      var reading;
      reading, es := ReadAndRun(cfg, w, memory, env);
      if reading.Stopped? {
        return ResumeFailed, es;
      }
      s := Snapshot();
      outcome, more := ResumeAndCommit(cfg, w, reading, env);
      RunsConcat(cfg, s0, es, s, more, Snapshot());
      es := es + more;
    }

    /** Resuming the graph and committing the answer, or recording the failure. */
    method ResumeAndCommit(cfg: Config, w: Worker, reading: Reading, env: Environment)
        returns (outcome: Outcome, ghost es: seq<Event>)
      requires !reading.Stopped? && w in pcs && pcs[w] == PcOf(reading)
      modifies this
      ensures Runs(cfg, old(Snapshot()), es, Snapshot())
      ensures OnlyBy(w, es)
      ensures w in pcs && pcs[w] == Ended(outcome)
      ensures outcome == ResumeCompleted <==>
              reading.ToResume? && !env.graphRaises && !env.finishRaises
      ensures if outcome == ResumeCompleted
              then answers == old(answers) + 1 && status == (if Approving(cfg) then Completed else Rejected)
                   && stored == reading.used && sends == old(sends)
              else outcome == ResumeFailed && answers == old(answers) && stored == old(stored) && sends == old(sends)
      ensures outcome == ResumeFailed && !env.recordRaises ==> status == Failed
    {
      ghost var s0 := Snapshot();
      ghost var s := s0;
      es := [];
      if reading.ToResume? {
        var answered;
        answered, es := Answer(cfg, w, reading.used, env);
        if answered {
          return ResumeCompleted, es;
        }
        s := Snapshot();
      }
      es, s := Then(cfg, s0, es, s, if env.recordRaises then RecordFailureRaises(w) else RecordFailure(w));
      CommitFailure(cfg, w, env.recordRaises);
      outcome := ResumeFailed;
    }

    /** The graph and the commit of its answer: false when one of them raises. */
    method Answer(cfg: Config, w: Worker, used: Option<ToolResult>, env: Environment)
        returns (answered: bool, ghost es: seq<Event>)
      requires w in pcs && pcs[w] == Ready(used)
      modifies this
      ensures Runs(cfg, old(Snapshot()), es, Snapshot()) && OnlyBy(w, es)
      ensures answered <==> !env.graphRaises && !env.finishRaises
      ensures w in pcs && pcs[w] == if answered then Ended(ResumeCompleted) else Failing
      ensures sends == old(sends)
      ensures if answered
              then answers == old(answers) + 1 && status == (if Approving(cfg) then Completed else Rejected)
                   && stored == used
              else answers == old(answers) && stored == old(stored)
    {
      ghost var s0 := Snapshot();
      ghost var s;
      if env.graphRaises {
        es, s := Then(cfg, s0, [], s0, Raise(w));
        pcs := pcs[w := Failing];
        return false, es;
      }
      es, s := Then(cfg, s0, [], s0, ResumeGraph(w));
      pcs := pcs[w := Answered(used)];
      if env.finishRaises {
        es, s := Then(cfg, s0, es, s, Raise(w));
        pcs := pcs[w := Failing];
        return false, es;
      }
      es, s := Then(cfg, s0, es, s, Finish(w));
      CommitAnswer(cfg, w, used);
      answered := true;
    }

    /** retry(): refuses, asks for confirmation, or resumes; losing the claim is a refusal too. */
    method RetryResume(cfg: Config, w: Worker, force: bool, env: Environment)
        returns (outcome: Outcome, ghost es: seq<Event>)
      requires w !in pcs
      modifies this
      ensures Runs(cfg, old(Snapshot()), es, Snapshot())
      ensures w in pcs && pcs[w] == Ended(outcome)
      ensures outcome == NeedsConfirmation <==>
              && !force && cfg.decision != Reject && old(stored).None?
              && old(status) == Executing && old(now) > old(updatedAt) + cfg.staleSeconds
      ensures outcome == NeedsConfirmation || outcome == NotAllowed ==>
              status == old(status) && stored == old(stored) && sends == old(sends) && answers == old(answers)
      ensures outcome != InProgress
      ensures !env.claimRaises ==>
              (outcome == NotAllowed <==>
                 && old(status) != PendingApproval && old(status) != Failed
                 && !(old(status) == Executing && old(now) > old(updatedAt) + cfg.staleSeconds))
      ensures outcome == ResumeCompleted ==> answers == old(answers) + 1 && Finishes(cfg, env, old(stored))
      ensures outcome != ResumeCompleted ==> answers == old(answers)
      ensures Claimable(old(status)) && !env.claimRaises ==>
              outcome == if Finishes(cfg, env, old(stored)) then ResumeCompleted else ResumeFailed
    {
      ghost var s0 := Snapshot();
      ghost var s;
      es, s := Then(cfg, s0, [], s0, Retry(w, force));
      if status != PendingApproval && status != Failed && status != Executing {
        pcs := pcs[w := Ended(NotAllowed)];
        return NotAllowed, es;
      }
      var takeOver := status == Executing && updatedAt < now - cfg.staleSeconds;
      var mayHaveSent := Approving(cfg) && stored.None?;
      if takeOver && mayHaveSent && !force {
        pcs := pcs[w := Ended(NeedsConfirmation)];
        return NeedsConfirmation, es;
      }
      var memory := Loaded(stored);
      pcs := pcs[w := Claiming(takeOver, takeOver && mayHaveSent, memory)];
      assert Snapshot() == s;
      ghost var more;
      outcome, more := ResumeAfterDecision(cfg, w, takeOver, memory, env);
      if outcome == InProgress {
        outcome := NotAllowed;
      }
      RunsConcat(cfg, s0, es, s, more, Snapshot());
      es := es + more;
    }
  }

  lemma {:induction false} RunsConcat(cfg: Config, s: State, es: seq<Event>, t: State, more: seq<Event>, u: State)
    requires Runs(cfg, s, es, t) && Runs(cfg, t, more, u)
    ensures Runs(cfg, s, es + more, u)
    decreases |es|
  {
    if es == [] {
      assert es + more == more;
    } else {
      RunsConcat(cfg, Step(cfg, s, es[0]), es[1..], t, more, u);
      assert (es + more)[1..] == es[1..] + more;
    }
  }
}

/** The bounded regenerate loop of the orchestrator, and its streaming twin. */
module Regenerate {
  import opened Common
  import opened StreamSlices

  datatype Verdict = Clear | Flagged | Redacted | Blocked

  /** A guardrail review: the text it lets through, and what the response says about it. */
  datatype Review = Review(verdict: Verdict, content: string, detail: string)

  datatype Draft = Draft(content: string, citations: seq<string>, sources: seq<string>, metadata: string)

  /** What one execution of the plan came to, up to its guardrail review. */
  datatype Attempt =
    | Raised(error: string)
    | Unanswered(waiting: bool, action: Option<string>, approval: Option<string>)
    | Reviewed(draft: Draft, review: Review, action: Option<string>, approval: Option<string>)

  datatype Plan = Planned | TooLarge(steps: nat, maxSteps: nat) | Refused(error: string)

  datatype Response = Response(content: string, citations: seq<string>, sources: seq<string>, metadata: Option<string>,
                               action: Option<string>, approval: Option<string>, guardrail: Option<string>)

  datatype Chunk = Chunk(content: string, final: Option<Response>)

  datatype Failure = QuotaRefused | Failure(error: string)

  const BLOCKED_MESSAGE := "I'm not able to provide a response to this request. If you believe " +
                           "this is a mistake, please rephrase your question or contact support."
  const PENDING_MESSAGE := "This needs your approval before I can continue. Review the pending " +
                           "request to approve, edit or reject it."
  const FAILED_MESSAGE := "I wasn't able to complete this request -- something went wrong while " +
                          "gathering the information needed to answer. Please try again."

  // ---------------------------------------------------------------------
  // Thread ids
  // ---------------------------------------------------------------------

  function Digit(d: nat): char
    requires d < 10
  {
    ['0', '1', '2', '3', '4', '5', '6', '7', '8', '9'][d]
  }

  function Decimal(n: nat): (s: string)
    ensures s != ""
  {
    if n < 10 then [Digit(n)] else Decimal(n / 10) + [Digit(n % 10)]
  }

  lemma {:induction false} DecimalInjective(m: nat, n: nat)
    requires Decimal(m) == Decimal(n)
    ensures m == n
  {
    var s := Decimal(m);
    assert s[|s| - 1] == Digit(m % 10) == Digit(n % 10);
    assert m % 10 == n % 10;
    if m >= 10 && n >= 10 {
      assert Decimal(m / 10) == s[..|s| - 1] == Decimal(n / 10);
      DecimalInjective(m / 10, n / 10);
    } else {
      assert |s| == 1;
    }
  }

  const RETRY := ":guardrail-retry-"

  /** The first attempt runs on the request's own thread, every other on a new one. */
  function Thread(base: string, attempt: nat): string {
    if attempt == 1 then base else base + RETRY + Decimal(attempt)
  }

  lemma ThreadsDiffer(base: string, i: nat, j: nat)
    requires i != j
    ensures Thread(base, i) != Thread(base, j)
  {
    var p := |base + RETRY|;
    if i == 1 || j == 1 {
      assert |Thread(base, i)| != |Thread(base, j)|;
    } else if Thread(base, i) == Thread(base, j) {
      assert Thread(base, i)[p..] == Decimal(i) && Thread(base, j)[p..] == Decimal(j);
      DecimalInjective(i, j);
    }
  }

  /** The threads of attempts 1 to n. */
  function Threads(base: string, n: nat): (threads: seq<string>)
    ensures |threads| == n
  {
    if n == 0 then [] else Threads(base, n - 1) + [Thread(base, n)]
  }

  lemma {:induction false} ThreadAt(base: string, n: nat, i: nat)
    requires i < n
    ensures Threads(base, n)[i] == Thread(base, i + 1)
  {
    if i < n - 1 {
      ThreadAt(base, n - 1, i);
    }
  }

  lemma ThreadsAreDistinct(base: string, n: nat, i: nat, j: nat)
    requires i < j < n
    ensures Threads(base, n)[i] != Threads(base, n)[j]
  {
    ThreadAt(base, n, i);
    ThreadAt(base, n, j);
    ThreadsDiffer(base, i + 1, j + 1);
  }

  // ---------------------------------------------------------------------
  // Which attempt decides
  // ---------------------------------------------------------------------

  /** The action an execution left waiting for a human. */
  function Pending(a: Attempt): Option<string> { if a.Raised? then None else a.action }

  /** A blocked answer with nothing pending is thrown away. */
  predicate Discarded(a: Attempt) { a.Reviewed? && a.review.verdict == Blocked && a.action.None? }

  /** The first attempt that is not thrown away, or the last one allowed. */
  function Deciding(run: string -> Attempt, base: string, attempt: nat, maxAttempts: nat): (n: nat)
    requires attempt <= maxAttempts
    ensures attempt <= n <= maxAttempts
    ensures n < maxAttempts ==> !Discarded(run(Thread(base, n)))
    ensures forall i | attempt <= i < n :: Discarded(run(Thread(base, i)))
    decreases maxAttempts - attempt
  {
    if attempt == maxAttempts || !Discarded(run(Thread(base, attempt))) then attempt
    else Deciding(run, base, attempt + 1, maxAttempts)
  }

  function Build(a: Attempt): Result<Response, Failure> {
    match a
    case Raised(error) => Err(Failure(error))
    case Unanswered(waiting, action, approval) =>
      Ok(Response(if waiting || approval.Some? then PENDING_MESSAGE else FAILED_MESSAGE,
                  [], [], None, action, approval, None))
    case Reviewed(draft, review, action, approval) =>
      if review.verdict == Blocked then
        Ok(Response(BLOCKED_MESSAGE, [], [], None, action, approval, Some(review.detail)))
      else
        Ok(Response(review.content, draft.citations, draft.sources, Some(draft.metadata), action, approval,
                    Some(review.detail)))
  }

  function TooLargeResponse(steps: nat, maxSteps: nat): Response {
    Response("This request would need " + Decimal(steps) + " steps, but I can run at most " + Decimal(maxSteps) +
             " in one turn. Please split it into smaller questions.", [], [], None, None, None, None)
  }

  /** What one turn comes to, however its answer is delivered. */
  function Turn(plan: Plan, run: string -> Attempt, base: string, maxAttempts: nat): Result<Response, Failure>
    requires maxAttempts >= 1
  {
    match plan
    case Refused(error) => Err(Failure(error))
    case TooLarge(steps, maxSteps) => Ok(TooLargeResponse(steps, maxSteps))
    case Planned => Build(run(Thread(base, Deciding(run, base, 1, maxAttempts))))
  }

  function Executed(plan: Plan, run: string -> Attempt, base: string, maxAttempts: nat): seq<string>
    requires maxAttempts >= 1
  {
    if plan.Planned? then Threads(base, Deciding(run, base, 1, maxAttempts)) else []
  }

  /** At most maxAttempts executions, all on different threads. */
  lemma BoundedAndDistinct(plan: Plan, run: string -> Attempt, base: string, maxAttempts: nat)
    requires maxAttempts >= 1
    ensures var threads := Executed(plan, run, base, maxAttempts);
      && |threads| <= maxAttempts
      && (forall i, j | 0 <= i < j < |threads| :: threads[i] != threads[j])
      && (threads != [] ==> threads[0] == base)
  {
    var threads := Executed(plan, run, base, maxAttempts);
    forall i, j | 0 <= i < j < |threads| ensures threads[i] != threads[j] {
      ThreadsAreDistinct(base, |threads|, i, j);
    }
    if threads != [] {
      ThreadAt(base, |threads|, 0);
    }
  }

  /** Every execution but the last was blocked with no action pending, so no action is ever discarded. */
  lemma OnlyBlockedAreDiscarded(plan: Plan, run: string -> Attempt, base: string, maxAttempts: nat, i: nat)
    requires maxAttempts >= 1 && i < |Executed(plan, run, base, maxAttempts)|
    ensures var threads := Executed(plan, run, base, maxAttempts);
      && (i < |threads| - 1 ==>
            run(threads[i]).Reviewed? && run(threads[i]).review.verdict == Blocked && run(threads[i]).action.None?)
      && (i == |threads| - 1 && |threads| < maxAttempts ==>
            !(run(threads[i]).Reviewed? && run(threads[i]).review.verdict == Blocked && run(threads[i]).action.None?))
      && (Pending(run(threads[i])).Some? ==>
            i == |threads| - 1 && Turn(plan, run, base, maxAttempts).value.action == Pending(run(threads[i])))
  {
    ThreadAt(base, Deciding(run, base, 1, maxAttempts), i);
  }

  /** The execution that decides the turn: the last one. */
  function Last(plan: Plan, run: string -> Attempt, base: string, maxAttempts: nat): Attempt
    requires maxAttempts >= 1 && plan.Planned?
  {
    var threads := Executed(plan, run, base, maxAttempts);
    run(threads[|threads| - 1])
  }

  /**
   What a turn says, from its last execution alone. Without an answer: that an approval is needed, exactly when the
   execution waits or holds one, and otherwise that it failed. With one: the refusal exactly when its review blocked
   it, and otherwise the reviewed text with the citations, sources and metadata of the draft, which nothing else has.
  */
  lemma TurnSays(plan: Plan, run: string -> Attempt, base: string, maxAttempts: nat)
    requires maxAttempts >= 1 && plan.Planned?
    ensures var last, turn := Last(plan, run, base, maxAttempts), Turn(plan, run, base, maxAttempts);
      && (turn.Err? <==> last.Raised?)
      && (last.Raised? ==> turn == Err(Failure(last.error)))
      && (last.Unanswered? && (last.waiting || last.approval.Some?) ==>
            turn.value.content == "This needs your approval before I can continue. Review the pending " +
                                  "request to approve, edit or reject it.")
      && (last.Unanswered? && !last.waiting && last.approval.None? ==>
            turn.value.content == "I wasn't able to complete this request -- something went wrong while " +
                                  "gathering the information needed to answer. Please try again.")
      && (last.Reviewed? && last.review.verdict == Blocked ==>
            turn.value.content == "I'm not able to provide a response to this request. If you believe " +
                                  "this is a mistake, please rephrase your question or contact support.")
      && (last.Reviewed? && last.review.verdict != Blocked ==>
            && turn.value.content == last.review.content
            && turn.value.citations == last.draft.citations && turn.value.sources == last.draft.sources
            && turn.value.metadata == Some(last.draft.metadata))
    ensures var last, turn := Last(plan, run, base, maxAttempts), Turn(plan, run, base, maxAttempts);
      turn.Ok? ==>
        && turn.value.action == last.action && turn.value.approval == last.approval
        && (turn.value.guardrail.Some? <==> last.Reviewed?)
        && (last.Reviewed? ==> turn.value.guardrail == Some(last.review.detail))
        && (!(last.Reviewed? && last.review.verdict != Blocked) ==>
              turn.value.citations == [] && turn.value.sources == [] && turn.value.metadata == None)
  {
    var n := Deciding(run, base, 1, maxAttempts);
    ThreadAt(base, n, n - 1);
  }

  /** A turn that was not run says so: the planner's error, or how many steps were too many for how few. */
  lemma UnplannedTurnSays(plan: Plan, run: string -> Attempt, base: string, maxAttempts: nat)
    requires maxAttempts >= 1 && !plan.Planned?
    ensures Executed(plan, run, base, maxAttempts) == []
    ensures plan.Refused? ==> Turn(plan, run, base, maxAttempts) == Err(Failure(plan.error))
    ensures plan.TooLarge? ==>
      && Turn(plan, run, base, maxAttempts).Ok?
      && var r := Turn(plan, run, base, maxAttempts).value;
         && r.content == "This request would need " + Decimal(plan.steps) + " steps, but I can run at most " +
                         Decimal(plan.maxSteps) + " in one turn. Please split it into smaller questions."
         && r.citations == r.sources == [] && r.metadata == r.action == r.approval == r.guardrail == None
  {}

  // ---------------------------------------------------------------------
  // The orchestrator
  // ---------------------------------------------------------------------

  /** The plan executor; it remembers the threads it ran. */
  class Executor {
    const run: string -> Attempt
    ghost var threads: seq<string>

    constructor (run: string -> Attempt)
      ensures this.run == run && threads == []
    {
      this.run := run;
      threads := [];
    }

    method Execute(thread: string) returns (a: Attempt)
      modifies this
      ensures a == run(thread) && threads == old(threads) + [thread]
    {
      threads := threads + [thread];
      a := run(thread);
    }
  }

  class Orchestrator {
    const executor: Executor
    const maxRegenerateAttempts: nat

    constructor (executor: Executor, maxRegenerateAttempts: nat)
      ensures this.executor == executor && this.maxRegenerateAttempts == maxRegenerateAttempts
    {
      this.executor, this.maxRegenerateAttempts := executor, maxRegenerateAttempts;
    }

    /** _handle(): execute until an attempt is not thrown away, then build its response. */
    method Answer(plan: Plan, base: string) returns (r: Result<Response, Failure>)
      modifies executor
      ensures r == Turn(plan, executor.run, base, maxRegenerateAttempts + 1)
      ensures executor.threads ==
              old(executor.threads) + Executed(plan, executor.run, base, maxRegenerateAttempts + 1)
    {
      match plan
      case Refused(error) => r := Err(Failure(error));
      case TooLarge(steps, maxSteps) => r := Ok(TooLargeResponse(steps, maxSteps));
      case Planned =>
        var maxAttempts := maxRegenerateAttempts + 1;
        var attempt := 1;
        var last;
        while true
          invariant 1 <= attempt <= maxAttempts
          invariant executor.threads == old(executor.threads) + Threads(base, attempt - 1)
          invariant Deciding(executor.run, base, 1, maxAttempts) == Deciding(executor.run, base, attempt, maxAttempts)
          decreases maxAttempts - attempt
        {
          last := executor.Execute(if attempt == 1 then base else base + RETRY + Decimal(attempt));
          Regroup(old(executor.threads), Threads(base, attempt - 1), [Thread(base, attempt)]);
          if last.Raised? {
            return Err(Failure(last.error));
          }
          if last.Unanswered? {
            return Ok(Response(if last.waiting || last.approval.Some? then PENDING_MESSAGE else FAILED_MESSAGE,
                               [], [], None, last.action, last.approval, None));
          }
          if last.review.verdict != Blocked {
            break;
          }
          if last.action.Some? {
            break;
          }
          if attempt == maxAttempts {
            break;
          }
          attempt := attempt + 1;
        }
        if last.review.verdict == Blocked {
          return Ok(Response(BLOCKED_MESSAGE, [], [], None, last.action, last.approval, Some(last.review.detail)));
        }
        r := Ok(Response(last.review.content, last.draft.citations, last.draft.sources, Some(last.draft.metadata),
                         last.action, last.approval, Some(last.review.detail)));
    }

    /** _stream(): the same loop, and nothing is sent before it has ended. */
    method AnswerInChunks(plan: Plan, base: string) returns (r: Result<(), Failure>, chunks: seq<Chunk>)
      modifies executor
      ensures executor.threads ==
              old(executor.threads) + Executed(plan, executor.run, base, maxRegenerateAttempts + 1)
      ensures Delivers(r, chunks, Turn(plan, executor.run, base, maxRegenerateAttempts + 1))
    {
      match plan
      case Refused(error) => r, chunks := Err(Failure(error)), [];
      case TooLarge(steps, maxSteps) => r, chunks := Ok(()), Whole(TooLargeResponse(steps, maxSteps));
      case Planned =>
        var maxAttempts := maxRegenerateAttempts + 1;
        var attempt := 1;
        var last;
        while true
          invariant 1 <= attempt <= maxAttempts
          invariant executor.threads == old(executor.threads) + Threads(base, attempt - 1)
          invariant Deciding(executor.run, base, 1, maxAttempts) == Deciding(executor.run, base, attempt, maxAttempts)
          decreases maxAttempts - attempt
        {
          last := executor.Execute(if attempt == 1 then base else base + RETRY + Decimal(attempt));
          Regroup(old(executor.threads), Threads(base, attempt - 1), [Thread(base, attempt)]);
          if last.Raised? {
            return Err(Failure(last.error)), [];
          }
          if last.Unanswered? {
            return Ok(()), Whole(Response(if last.waiting || last.approval.Some? then PENDING_MESSAGE
                                          else FAILED_MESSAGE,
                                          [], [], None, last.action, last.approval, None));
          }
          if last.review.verdict != Blocked {
            break;
          }
          if last.action.Some? {
            break;
          }
          if attempt == maxAttempts {
            break;
          }
          attempt := attempt + 1;
        }
        if last.review.verdict == Blocked {
          return Ok(()), Whole(Response(BLOCKED_MESSAGE, [], [], None, last.action, last.approval,
                                        Some(last.review.detail)));
        }
        r := Ok(());
        chunks := InSlices(Response(last.review.content, last.draft.citations, last.draft.sources,
                                    Some(last.draft.metadata), last.action, last.approval, Some(last.review.detail)));
    }

    /** handle(): a refused LLM call ends the request whatever came after it. */
    method Handle(plan: Plan, base: string, refused: seq<string> -> bool) returns (r: Result<Response, Failure>)
      modifies executor
      ensures r == Settled(plan, executor.run, base, maxRegenerateAttempts + 1, refused)
      ensures executor.threads ==
              old(executor.threads) + Executed(plan, executor.run, base, maxRegenerateAttempts + 1)
    {
      r := Answer(plan, base);
      if refused(Executed(plan, executor.run, base, maxRegenerateAttempts + 1)) {
        r := Err(QuotaRefused);
      }
    }

    /** stream(): the check runs before every chunk, and no LLM call follows the first. */
    method Stream(plan: Plan, base: string, refused: seq<string> -> bool)
        returns (r: Result<(), Failure>, sent: seq<Chunk>)
      modifies executor
      ensures Delivers(r, sent, Settled(plan, executor.run, base, maxRegenerateAttempts + 1, refused))
      ensures executor.threads ==
              old(executor.threads) + Executed(plan, executor.run, base, maxRegenerateAttempts + 1)
    {
      var chunks;
      r, chunks := AnswerInChunks(plan, base);
      sent := [];
      ghost var threads := executor.threads;
      var refusal := refused(Executed(plan, executor.run, base, maxRegenerateAttempts + 1));
      for i := 0 to |chunks|
        invariant sent == chunks[..i] && (i > 0 ==> !refusal) && executor.threads == threads
      {
        if refusal {
          return Err(QuotaRefused), sent;
        }
        TakeNext(chunks, i);
        sent := sent + [chunks[i]];
      }
      assert chunks[..|chunks|] == chunks;
      if r.Err? && refusal {
        r := Err(QuotaRefused);
      }
    }
  }

  /** A response sent as one final chunk. */
  function Whole(response: Response): (chunks: seq<Chunk>)
    ensures Delivers(Ok(()), chunks, Ok(response))
  {
    ContentsNext([], Chunk(response.content, Some(response)));
    assert [] + [Chunk(response.content, Some(response))] == [Chunk(response.content, Some(response))];
    [Chunk(response.content, Some(response))]
  }

  /** A response sent as slices of its text, then an empty final chunk. */
  method InSlices(response: Response) returns (chunks: seq<Chunk>)
    ensures Delivers(Ok(()), chunks, Ok(response))
  {
    var slices := Slices(response.content);
    chunks := [];
    for i := 0 to |slices|
      invariant |chunks| == i && Contents(chunks) == Join(slices[..i])
      invariant forall j | 0 <= j < i :: chunks[j].final.None?
    {
      ContentsNext(chunks, Chunk(slices[i], None));
      TakeNext(slices, i);
      chunks := chunks + [Chunk(slices[i], None)];
    }
    assert slices[..|slices|] == slices;
    ContentsNext(chunks, Chunk("", Some(response)));
    chunks := chunks + [Chunk("", Some(response))];
  }

  /** refused: whether the meter holds a refusal after these executions. */
  function Settled(plan: Plan, run: string -> Attempt, base: string, maxAttempts: nat, refused: seq<string> -> bool)
    : Result<Response, Failure>
    requires maxAttempts >= 1
  {
    if refused(Executed(plan, run, base, maxAttempts)) then Err(QuotaRefused) else Turn(plan, run, base, maxAttempts)
  }

  // ---------------------------------------------------------------------
  // Streaming delivers the same turn
  // ---------------------------------------------------------------------

  function Contents(chunks: seq<Chunk>): string {
    if chunks == [] then "" else Contents(chunks[..|chunks| - 1]) + chunks[|chunks| - 1].content
  }

  lemma ContentsNext(chunks: seq<Chunk>, c: Chunk)
    ensures Contents(chunks + [c]) == Contents(chunks) + c.content
  {
    assert (chunks + [c])[..|chunks|] == chunks;
  }

  /** The chunks spell out the response's content and end, only there, with the response; a failure sends nothing. */
  ghost predicate Delivers(r: Result<(), Failure>, chunks: seq<Chunk>, turn: Result<Response, Failure>) {
    match turn
    case Err(failure) => r == Err(failure) && chunks == []
    case Ok(response) =>
      && r.Ok? && chunks != [] && Contents(chunks) == response.content
      && chunks[|chunks| - 1].final == Some(response)
      && forall i | 0 <= i < |chunks| - 1 :: chunks[i].final.None?
  }
}

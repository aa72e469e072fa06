/** UsageMeter, RequestTokenBudget and the context they are carried in, updated in place. */
module UsageMeters {
  import opened Common
  import U = TokenUsage

  class RequestTokenBudget {
    const quota: nat
    var used: nat
    var refused: Option<U.Refusal>

    function AsBudget(): U.Budget
      reads this
    {
      U.Budget(quota, used, refused)
    }

    constructor (quota: nat)
      ensures AsBudget() == U.Budget(quota, 0, None)
    {
      this.quota, used, refused := quota, 0, None;
    }
  }

  /** The error a refused check raises: the first refusal, with the tokens this scope has used. */
  datatype QuotaError = QuotaError(refusal: U.Refusal, promptTokens: nat, completionTokens: nat)

  class UsageMeter {
    const budget: RequestTokenBudget?
    var promptTokens: nat
    var completionTokens: nat
    var totalTokens: nat
    var calls: nat
    var fallbackCalls: nat
    var providers: set<string>
    var models: set<string>
    var refused: Option<U.Refusal>

    function Counts(): U.Counts
      reads this
    {
      U.Counts(promptTokens, completionTokens, totalTokens, calls)
    }

    function AsMeter(): U.Meter
      reads this
    {
      U.Meter(Counts(), refused)
    }

    constructor (budget: RequestTokenBudget?)
      ensures this.budget == budget && AsMeter() == U.Meter(U.ZERO, None)
      ensures providers == models == {} && fallbackCalls == 0
    {
      this.budget := budget;
      promptTokens, completionTokens, totalTokens, calls, fallbackCalls := 0, 0, 0, 0, 0;
      providers, models, refused := {}, {}, None;
    }

    /** One call's usage. */
    method Add(provider: string, model: string, prompt: nat, completion: nat, total: nat)
      modifies this
      ensures Counts() == U.Plus(old(Counts()), U.Counts(prompt, completion, total, 1))
      ensures providers == old(providers) + {provider} && models == old(models) + {model}
      ensures refused == old(refused) && fallbackCalls == old(fallbackCalls)
    {
      promptTokens := promptTokens + prompt;
      completionTokens := completionTokens + completion;
      totalTokens := totalTokens + total;
      calls := calls + 1;
      providers := providers + {provider};
      models := models + {model};
    }

    /** Another meter's counts, added to this one. */
    method Merge(other: UsageMeter)
      requires other != this
      modifies this
      ensures Counts() == U.Plus(old(Counts()), other.Counts())
      ensures providers == old(providers) + other.providers && models == old(models) + other.models
      ensures fallbackCalls == old(fallbackCalls) + other.fallbackCalls && refused == old(refused)
    {
      promptTokens := promptTokens + other.promptTokens;
      completionTokens := completionTokens + other.completionTokens;
      totalTokens := totalTokens + other.totalTokens;
      calls := calls + other.calls;
      providers := providers + other.providers;
      models := models + other.models;
      fallbackCalls := fallbackCalls + other.fallbackCalls;
    }

    /** The refusal, with the tokens used so far; None where quota_error() raises RuntimeError. */
    function ErrorNow(): Option<QuotaError>
      reads this
    {
      match refused
      case None => None
      case Some(r) => Some(QuotaError(r, promptTokens, completionTokens))
    }

    /** check(): None to go ahead, or the error to raise. estimates sizes each prompt text. */
    method Check(estimates: seq<nat>) returns (error: Option<QuotaError>)
      modifies this`refused, budget
      ensures budget == null ==> error == None && refused == old(refused)
      ensures budget != null ==>
        var verdict := U.Verdict(old(budget.AsBudget()), old(AsMeter()), Sum(estimates));
        && refused == verdict && error == ErrorNow() && (error.None? <==> verdict.None?)
        && budget.AsBudget() == U.BudgetAfter(old(budget.AsBudget()), old(AsMeter()), Sum(estimates))
      ensures budget != null && old(refused).None? && old(budget.refused).None? ==>
        var used := old(budget.used) + totalTokens;
        if used + Sum(estimates) <= budget.quota then error.None? && budget.refused.None?
        else refused == budget.refused == Some(U.Refusal(budget.quota, used, Sum(estimates)))
      ensures error.Some? ==>
        && Some(error.value.refusal) == refused
        && error.value.promptTokens == promptTokens && error.value.completionTokens == completionTokens
    {
      if budget == null {
        return None;
      }
      if refused.None? && budget.refused.Some? {
        refused := budget.refused;
      }
      if refused.Some? {
        return ErrorNow();
      }
      var requested := SumOf(estimates);
      var used := budget.used + totalTokens;
      if used + requested > budget.quota {
        refused := Some(U.Refusal(budget.quota, used, requested));
        budget.refused := refused;
        return ErrorNow();
      }
      error := None;
    }
  }

  function Sum(xs: seq<nat>): nat {
    if xs == [] then 0 else Sum(xs[..|xs| - 1]) + xs[|xs| - 1]
  }

  method SumOf(xs: seq<nat>) returns (total: nat)
    ensures total == Sum(xs)
  {
    total := 0;
    for i := 0 to |xs|
      invariant total == Sum(xs[..i])
    {
      assert xs[..i + 1][..i] == xs[..i];
      total := total + xs[i];
    }
    assert xs[..|xs|] == xs;
  }

  // ---------------------------------------------------------------------
  // One request
  // ---------------------------------------------------------------------

  /**
   What the tasks of one request share: the budget of its request_token_quota() block and the tally of its
   usage_tally() block, either of which may be missing. state is the request in TokenUsage, which numbers its
   scopes and calls; every operation below is one of its steps.
  */
  class Request {
    const budget: RequestTokenBudget?
    const tally: UsageMeter?
    ghost var scopes: map<U.Scope, UsageMeter>  // every scope opened so far
    ghost var state: U.State

    /** The meters, the budget and the tally hold what state says. */
    ghost predicate Valid()
      reads this, scopes.Values, tally, budget
    {
      && U.Numbered(state) && scopes.Keys == U.Known(state) && state.open.Keys !! state.left.Keys
      && (forall s | s in scopes :: Shown(s))
      && (forall s, r | s in scopes && r in scopes && scopes[s] == scopes[r] :: s == r)
      && U.CallsKnown(state)
      && (if budget == null then state.budget.None? else state.budget == Some(budget.AsBudget()))
      && (tally != null ==> tally.Counts() == state.tally)
    }

    ghost predicate Shown(s: U.Scope)
      requires s in scopes && s in U.Known(state)
      reads this, scopes[s]
    {
      scopes[s].AsMeter() == U.MeterOf(state, s) && scopes[s].budget == budget && scopes[s] != tally
    }

    constructor (budget: RequestTokenBudget?, tally: UsageMeter?)
      requires budget != null ==> budget.used == 0 && budget.refused.None?
      requires tally != null ==> tally.Counts() == U.ZERO
      ensures Valid() && U.Initial(state) && this.budget == budget && this.tally == tally
    {
      this.budget, this.tally := budget, tally;
      scopes := map[];
      state := U.State(if budget == null then None else Some(budget.AsBudget()), map[], map[], 0, map[],
                       U.ZERO, U.ZERO, U.ZERO);
    }

    /** The scopes' meters, the budget and the tally have moved as the event says. */
    twostate lemma Follows(e: U.Event)
      requires old(Valid()) && U.Enabled(old(state), e) && !e.Open? && state == U.Step(old(state), e)
      requires scopes == old(scopes)
      requires forall s | s in scopes :: scopes[s].AsMeter() == U.MeterAfter(old(state), e, s)
      requires budget != null ==> state.budget == Some(budget.AsBudget())
      requires tally != null ==> tally.Counts() == state.tally
      ensures Valid()
    {
      U.NumberedStep(old(state), e);
      U.KnownStep(old(state), e);
      U.CallsKnownStep(old(state), e);
      forall s | s in scopes ensures Shown(s) {
        assert old(Shown(s));
        U.MetersStep(old(state), e, s);
      }
    }

    /** A scope has closed, and its counts have gone where they belong. */
    twostate lemma Closed(s: U.Scope)
      requires old(Valid()) && s in old(state).open && state == U.Step(old(state), U.Close(s)) && scopes == old(scopes)
      requires forall r | r in scopes :: scopes[r].AsMeter() == old(scopes[r].AsMeter())
      requires budget != null ==>
        budget.AsBudget() == old(budget.AsBudget()).(used := old(budget.used) + old(scopes[s].totalTokens))
      requires tally != null ==> tally.Counts() == U.Plus(old(tally.Counts()), old(scopes[s].Counts()))
      ensures Valid()
    {
      assert old(Shown(s));
      forall r | r in scopes ensures scopes[r].AsMeter() == U.MeterAfter(old(state), U.Close(s), r) {
        assert old(Shown(r));
      }
      Follows(U.Close(s));
    }

    /** What a closing scope leaves behind: its total in the budget, its counts in the tally. */
    method Settle(scope: UsageMeter)
      requires scope != tally
      modifies budget, tally
      ensures budget != null ==>
        budget.AsBudget() == old(budget.AsBudget()).(used := old(budget.used) + old(scope.totalTokens))
      ensures tally != null ==> tally.Counts() == U.Plus(old(tally.Counts()), old(scope.Counts()))
    {
      if budget != null {
        budget.used := budget.used + scope.totalTokens;
      }
      if tally != null {
        tally.Merge(scope);
      }
    }

    /** An admitted call raises: it will not be recorded. */
    ghost method CallFails(call: U.Call)
      requires Valid() && call in state.inFlight
      modifies `state
      ensures Valid() && state == U.Step(old(state), U.Fail(call))
    {
      state := U.Step(state, U.Fail(call));
    }
  }

  /** One task's context: the meter of the scope it runs in. */
  class UsageContext {
    const request: Request
    var meter: UsageMeter?

    constructor (request: Request)
      ensures this.request == request && meter == null
    {
      this.request, meter := request, null;
    }

    /** usage_scope(), on entry: a new meter on the budget in effect. previous is what its exit restores. */
    method OpenScope() returns (previous: UsageMeter?, scope: UsageMeter)
      requires request.Valid()
      modifies this`meter, request
      ensures request.Valid() && request.state == U.Step(old(request.state), U.Open)
      ensures fresh(scope) && meter == scope && previous == old(meter)
      ensures request.scopes == old(request.scopes)[old(request.state.next) := scope]
    {
      previous := meter;
      scope := new UsageMeter(request.budget);
      meter := scope;
      request.scopes := request.scopes[request.state.next := scope];
      request.state := U.Step(request.state, U.Open);
    }

    /** usage_scope(), on any exit and from whatever context: the budget and the tally get its counts. */
    method CloseScope(previous: UsageMeter?, scope: UsageMeter, ghost s: U.Scope)
      requires request.Valid() && s in request.state.open && request.scopes[s] == scope
      modifies this`meter, request`state, request.budget, request.tally
      ensures request.Valid() && request.state == U.Step(old(request.state), U.Close(s))
      ensures meter == previous
    {
      meter := previous;
      assert request.Shown(s);
      request.Settle(scope);
      request.state := U.Step(request.state, U.Close(s));
      request.Closed(s);
    }

    /**
     check_request_token_quota(): a no-op outside a scope, and the check of the current scope's meter in one, even
     when that scope has closed meanwhile. A call that passes is in flight until it is recorded or fails.
    */
    method CheckQuota(estimates: seq<nat>, ghost s: U.Scope, ghost call: U.Call) returns (error: Option<QuotaError>)
      requires request.Valid() && (meter != null ==> s in request.scopes && request.scopes[s] == meter)
      requires call !in request.state.inFlight
      modifies request`state, meter, request.budget
      ensures request.Valid() && meter == old(meter)
      ensures meter == null ==> error == None && request.state == old(request.state)
      ensures meter != null ==>
        && request.state == U.Step(old(request.state), U.Check(s, call, Sum(estimates)))
        && (error.None? <==> call in request.state.inFlight)
      ensures error.Some? ==> Some(error.value.refusal) == meter.refused
    {
      if meter == null {
        return None;
      }
      assert request.Shown(s);
      error := meter.Check(estimates);
      request.state := U.Step(request.state, U.Check(s, call, Sum(estimates)));
      request.Follows(U.Check(s, call, Sum(estimates)));
    }

    /** record_llm_usage(): the current meter counts the call, even when its scope has closed meanwhile. */
    method RecordUsage(provider: string, model: string, prompt: nat, completion: nat, total: nat,
                       ghost s: U.Scope, ghost call: U.Call)
      requires request.Valid()
      requires meter != null ==>
        call in request.state.inFlight && request.state.inFlight[call] == s && request.scopes[s] == meter
      modifies request`state, meter
      ensures request.Valid() && meter == old(meter)
      ensures meter == null ==> request.state == old(request.state)
      ensures meter != null ==>
        && request.state == U.Step(old(request.state), U.Record(call, U.Counts(prompt, completion, total, 1)))
        && meter.providers == old(meter.providers) + {provider} && meter.models == old(meter.models) + {model}
    {
      if meter == null {
        return;
      }
      assert request.Shown(s);
      meter.Add(provider, model, prompt, completion, total);
      request.state := U.Step(request.state, U.Record(call, U.Counts(prompt, completion, total, 1)));
      request.Follows(U.Record(call, U.Counts(prompt, completion, total, 1)));
    }
  }
}

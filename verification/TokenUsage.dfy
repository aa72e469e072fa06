/**
 Token accounting of one request: scopes that count LLM calls, one budget they draw on, and a
 tally that collects them, as a transition system over concurrent calls.
*/
module TokenUsage {
  import opened Common

  /** What a meter adds up over calls. */
  datatype Counts = Counts(prompt: nat, completion: nat, total: nat, calls: nat)

  const ZERO := Counts(0, 0, 0, 0)

  function Plus(a: Counts, b: Counts): Counts {
    Counts(a.prompt + b.prompt, a.completion + b.completion, a.total + b.total, a.calls + b.calls)
  }

  /** RequestTokenQuotaExceededError: the quota, and what the refused call met. */
  datatype Refusal = Refusal(quota: nat, used: nat, requested: nat)

  datatype Budget = Budget(quota: nat, used: nat, refused: Option<Refusal>)

  datatype Meter = Meter(counts: Counts, refused: Option<Refusal>)

  /** The refusal a check ends with, if any: an earlier one sticks, otherwise this call's own. */
  function Verdict(budget: Budget, meter: Meter, requested: nat): Option<Refusal> {
    if meter.refused.Some? then meter.refused
    else if budget.refused.Some? then budget.refused
    else
      var used := budget.used + meter.counts.total;
      if used + requested > budget.quota then Some(Refusal(budget.quota, used, requested)) else None
  }

  /** The budget after a check: it keeps the request's first refusal. */
  function BudgetAfter(budget: Budget, meter: Meter, requested: nat): Budget {
    if meter.refused.None? && budget.refused.None?
    then budget.(refused := Verdict(budget, meter, requested)) else budget
  }

  type Scope = nat
  type Call = nat

  datatype State = State(
    budget: Option<Budget>,
    open: map<Scope, Meter>,
    left: map<Scope, Meter>,   // closed scopes, which a task that outlives its scope still uses
    next: Scope,        // the scope the next usage_scope() opens
    inFlight: map<Call, Scope>,
    tally: Counts,
    recorded: Counts,   // every call's usage
    late: Counts)       // that of calls that outlived their scope

  datatype Event =
    | Open
    | Close(s: Scope)
    | Check(s: Scope, call: Call, requested: nat)
    | Record(call: Call, usage: Counts)
    | Fail(call: Call)

  ghost predicate Initial(t: State) {
    && t.open == t.left == map[] && t.next == 0 && t.inFlight == map[]
    && t.tally == t.recorded == t.late == ZERO
    && (t.budget.Some? ==> t.budget.value.used == 0 && t.budget.value.refused.None?)
  }

  predicate Enabled(t: State, e: Event) {
    match e
    case Open => true
    case Close(s) => s in t.open
    case Check(s, call, _) => (s in t.open || s in t.left) && call !in t.inFlight
    case Record(call, usage) => call in t.inFlight && usage.calls == 1
    case Fail(call) => call in t.inFlight
  }

  function MeterOf(t: State, s: Scope): Meter
    requires s in t.open || s in t.left
  {
    if s in t.open then t.open[s] else t.left[s]
  }

  function WithMeter(t: State, s: Scope, meter: Meter): State {
    if s in t.open then t.(open := t.open[s := meter]) else t.(left := t.left[s := meter])
  }

  function StepCheck(t: State, s: Scope, call: Call, requested: nat): State
    requires s in t.open || s in t.left
  {
    match t.budget
    case None => t.(inFlight := t.inFlight[call := s])
    case Some(budget) =>
      var meter := MeterOf(t, s);
      var verdict := Verdict(budget, meter, requested);
      var checked := WithMeter(t, s, meter.(refused := verdict)).(
        budget := Some(BudgetAfter(budget, meter, requested)));
      if verdict.Some? then checked else checked.(inFlight := t.inFlight[call := s])
  }

  function StepRecord(t: State, call: Call, usage: Counts): State
    requires call in t.inFlight
  {
    var s := t.inFlight[call];
    var counted := if s in t.open || s in t.left
                   then WithMeter(t, s, MeterOf(t, s).(counts := Plus(MeterOf(t, s).counts, usage))) else t;
    counted.(
      inFlight := t.inFlight - {call}, recorded := Plus(t.recorded, usage),
      late := if s in t.open then t.late else Plus(t.late, usage))
  }

  function StepClose(t: State, s: Scope): State
    requires s in t.open
  {
    t.(open := t.open - {s}, left := t.left[s := t.open[s]], tally := Plus(t.tally, t.open[s].counts),
       budget := match t.budget
                 case None => None
                 case Some(b) => Some(b.(used := b.used + t.open[s].counts.total)))
  }

  function Step(t: State, e: Event): State
    requires Enabled(t, e)
  {
    match e
    case Open => t.(open := t.open[t.next := Meter(ZERO, None)], next := t.next + 1)
    case Close(s) => StepClose(t, s)
    case Check(s, call, requested) => StepCheck(t, s, call, requested)
    case Record(call, usage) => StepRecord(t, call, usage)
    case Fail(call) => t.(inFlight := t.inFlight - {call})
  }

  /** The scopes that have been opened, closed ones included. */
  function Known(t: State): set<Scope> { t.open.Keys + t.left.Keys }

  /** A meter changes only in its own check and with its own calls. */
  function MeterAfter(t: State, e: Event, s: Scope): Meter
    requires Enabled(t, e) && s in Known(t)
  {
    var meter := MeterOf(t, s);
    if e.Check? && e.s == s && t.budget.Some? then meter.(refused := Verdict(t.budget.value, meter, e.requested))
    else if e.Record? && t.inFlight[e.call] == s then meter.(counts := Plus(meter.counts, e.usage))
    else meter
  }

  lemma MetersStep(t: State, e: Event, s: Scope)
    requires Enabled(t, e) && s in Known(t) && (e.Open? ==> s != t.next)
    ensures s in Known(Step(t, e)) && MeterOf(Step(t, e), s) == MeterAfter(t, e, s)
  {}

  lemma KnownStep(t: State, e: Event)
    requires Enabled(t, e) && t.open.Keys !! t.left.Keys && (e.Open? ==> t.next !in Known(t))
    ensures var u := Step(t, e);
      Known(u) == Known(t) + (if e.Open? then {t.next} else {}) && u.open.Keys !! u.left.Keys
  {}

  /** Calls are made in scopes that have been opened. */
  ghost predicate CallsKnown(t: State) { forall c | c in t.inFlight :: t.inFlight[c] in Known(t) }

  lemma CallsKnownStep(t: State, e: Event)
    requires CallsKnown(t) && Enabled(t, e)
    ensures CallsKnown(Step(t, e)) && (Step(t, e).budget.Some? <==> t.budget.Some?)
  {}

  predicate Runs(t: State, es: seq<Event>, u: State)
    decreases |es|
  {
    if es == [] then u == t else Enabled(t, es[0]) && Runs(Step(t, es[0]), es[1..], u)
  }

  // ---------------------------------------------------------------------
  // The tally
  // ---------------------------------------------------------------------

  datatype Field = Prompt | Completion | Total | Calls

  function Get(c: Counts, f: Field): nat {
    match f
    case Prompt => c.prompt
    case Completion => c.completion
    case Total => c.total
    case Calls => c.calls
  }

  function Held(open: map<Scope, Meter>, s: Scope, f: Field): nat { if s in open then Get(open[s].counts, f) else 0 }

  /** What the open scopes below n hold of one field. */
  function OpenSum(open: map<Scope, Meter>, n: nat, f: Field): nat {
    if n == 0 then 0 else OpenSum(open, n - 1, f) + Held(open, n - 1, f)
  }

  /** Two maps that differ in one scope have sums that differ by that scope. */
  lemma {:induction false} OpenSumChange(a: map<Scope, Meter>, b: map<Scope, Meter>, s: Scope, n: nat, f: Field)
    requires forall r | r != s :: Held(a, r, f) == Held(b, r, f)
    ensures OpenSum(b, n, f) == OpenSum(a, n, f) + if s < n then Held(b, s, f) - Held(a, s, f) else 0
  {
    if n == 0 {
    } else {
      OpenSumChange(a, b, s, n - 1, f);
    }
  }

  /** Only scopes that were opened are open, were left or made a call. */
  ghost predicate Numbered(t: State) {
    && (forall s | s in t.open || s in t.left :: s < t.next)
    && (forall c | c in t.inFlight :: t.inFlight[c] < t.next)
  }

  function Outstanding(t: State, f: Field): nat { OpenSum(t.open, t.next, f) }

  /** Every recorded token is in the tally, in an open scope, or late. */
  ghost predicate Accounted(t: State, f: Field) {
    Numbered(t) && Get(t.recorded, f) == Get(t.tally, f) + Outstanding(t, f) + Get(t.late, f)
  }

  /** How an event changes what one scope holds while it is open. */
  lemma HeldStep(t: State, e: Event, r: Scope, f: Field)
    requires Numbered(t) && Enabled(t, e)
    ensures Held(Step(t, e).open, r, f) ==
      Held(t.open, r, f)
      + (if e.Record? && r == t.inFlight[e.call] && r in t.open then Get(e.usage, f) else 0)
      - (if e.Close? && r == e.s then Held(t.open, r, f) else 0)
  {}

  /** How an event changes what the open scopes hold. */
  lemma OutstandingStep(t: State, e: Event, f: Field)
    requires Numbered(t) && Enabled(t, e)
    ensures Outstanding(Step(t, e), f) ==
      Outstanding(t, f)
      + (if e.Record? && t.inFlight[e.call] in t.open then Get(e.usage, f) else 0)
      - (if e.Close? then Get(t.open[e.s].counts, f) else 0)
  {
    var u := Step(t, e);
    var s := if e.Record? then t.inFlight[e.call] else if e.Close? then e.s else t.next;
    HeldStep(t, e, s, f);
    forall r | r != s ensures Held(t.open, r, f) == Held(u.open, r, f) {
      HeldStep(t, e, r, f);
    }
    OpenSumChange(t.open, u.open, s, t.next, f);
  }

  lemma NumberedStep(t: State, e: Event)
    requires Numbered(t) && Enabled(t, e)
    ensures Numbered(Step(t, e))
  {}

  lemma AccountedStep(t: State, e: Event, f: Field)
    requires Accounted(t, f) && Enabled(t, e)
    ensures Accounted(Step(t, e), f)
  {
    OutstandingStep(t, e, f);
    NumberedStep(t, e);
  }

  lemma {:induction false} AccountedRuns(t: State, es: seq<Event>, u: State, f: Field)
    requires Accounted(t, f) && Runs(t, es, u)
    ensures Accounted(u, f)
    decreases |es|
  {
    if es == [] {
    } else {
      AccountedStep(t, es[0], f);
      AccountedRuns(Step(t, es[0]), es[1..], u, f);
    }
  }

  lemma {:induction false} NoneOpen(open: map<Scope, Meter>, n: nat, f: Field)
    requires forall s :: s !in open
    ensures OpenSum(open, n, f) == 0
  {
    if n == 0 {
    } else {
      NoneOpen(open, n - 1, f);
    }
  }

  lemma TallyOf(u: State, f: Field)
    requires Accounted(u, f) && forall s :: s !in u.open
    ensures Get(u.recorded, f) == Get(u.tally, f) + Get(u.late, f)
  {
    NoneOpen(u.open, u.next, f);
  }

  lemma InitialAccounted(t: State, f: Field)
    requires Initial(t)
    ensures Accounted(t, f)
  {}

  lemma RunAccounted(t: State, es: seq<Event>, u: State, f: Field)
    requires Initial(t) && Runs(t, es, u)
    ensures Accounted(u, f)
  {
    InitialAccounted(t, f);
    AccountedRuns(t, es, u, f);
  }

  /**
   Once every scope has closed, the tally holds every call that did not outlive its scope: its
   prompt, completion and total tokens, and the number of calls.
  */
  lemma TallyIsComplete(t: State, es: seq<Event>, u: State, f: Field)
    requires Initial(t) && Runs(t, es, u) && forall s :: s !in u.open
    ensures Get(u.recorded, f) == Get(u.tally, f) + Get(u.late, f)
  {
    RunAccounted(t, es, u, f);
    TallyOf(u, f);
  }

  // ---------------------------------------------------------------------
  // Refusal sticks
  // ---------------------------------------------------------------------

  /** A scope's refusal is the request's first one. */
  ghost predicate OneRefusal(t: State) {
    t.budget.Some? ==>
      forall s | s in t.open || s in t.left ::
        MeterOf(t, s).refused.Some? ==> MeterOf(t, s).refused == t.budget.value.refused
  }

  lemma OneRefusalStep(t: State, e: Event)
    requires OneRefusal(t) && Numbered(t) && Enabled(t, e)
    ensures OneRefusal(Step(t, e))
  {
    var u := Step(t, e);
    if u.budget.Some? {
      forall s | s in u.open || s in u.left
        ensures MeterOf(u, s).refused.Some? ==> MeterOf(u, s).refused == u.budget.value.refused
      {
        if s in t.open || s in t.left {
          MetersStep(t, e, s);
        }
      }
    }
  }

  /** A refusal stays, and no call is admitted after it. */
  lemma RefusalStays(t: State, e: Event)
    requires OneRefusal(t) && Enabled(t, e) && t.budget.Some? && t.budget.value.refused.Some?
    ensures var u := Step(t, e); u.budget.Some? && u.budget.value.refused == t.budget.value.refused
    ensures Step(t, e).inFlight.Keys <= t.inFlight.Keys
  {}

  lemma {:induction false} RefusalSticks(t: State, es: seq<Event>, u: State)
    requires OneRefusal(t) && Numbered(t) && Runs(t, es, u)
    requires t.budget.Some? && t.budget.value.refused.Some?
    ensures u.budget.Some? && u.budget.value.refused == t.budget.value.refused && OneRefusal(u)
    ensures u.inFlight.Keys <= t.inFlight.Keys
    decreases |es|
  {
    if es == [] {
    } else {
      OneRefusalStep(t, es[0]);
      NumberedStep(t, es[0]);
      RefusalStays(t, es[0]);
      RefusalSticks(Step(t, es[0]), es[1..], u);
    }
  }

  lemma {:induction false} OneRefusalRuns(t: State, es: seq<Event>, u: State)
    requires OneRefusal(t) && Numbered(t) && Runs(t, es, u)
    ensures OneRefusal(u) && Numbered(u)
    decreases |es|
  {
    if es == [] {
    } else {
      OneRefusalStep(t, es[0]);
      NumberedStep(t, es[0]);
      OneRefusalRuns(Step(t, es[0]), es[1..], u);
    }
  }

  /**
   After the request's first refused call, whatever scopes open, close or overlap: the refusal is
   never replaced, every later check in any scope, closed ones included, is refused with it, and no new call
   goes out.
  */
  lemma FirstRefusalIsFinal(t: State, es: seq<Event>, u: State, more: seq<Event>, v: State,
                            s: Scope, call: Call, requested: nat)
    requires Initial(t) && Runs(t, es, u) && Runs(u, more, v)
    requires u.budget.Some? && u.budget.value.refused.Some?
    requires Enabled(v, Check(s, call, requested))
    ensures v.budget.Some? && v.budget.value.refused == u.budget.value.refused
    ensures Verdict(v.budget.value, MeterOf(v, s), requested) == u.budget.value.refused
    ensures Step(v, Check(s, call, requested)).inFlight == v.inFlight
    ensures v.inFlight.Keys <= u.inFlight.Keys
  {
    OneRefusalRuns(t, es, u);
    RefusalSticks(u, more, v);
  }

  // ---------------------------------------------------------------------
  // The overshoot
  // ---------------------------------------------------------------------

  /** At most k scopes open at once, at most p calls between check and record, each of at most m tokens. */
  ghost predicate Moderate(t: State, es: seq<Event>, k: nat, p: nat, m: nat)
    decreases |es|
  {
    && |t.open| <= k && |t.inFlight| <= p
    && (es != [] ==>
          && Enabled(t, es[0]) && (es[0].Record? ==> es[0].usage.total <= m)
          && Moderate(Step(t, es[0]), es[1..], k, p, m))
  }

  /** The tokens of the request's closed and open scopes. */
  ghost function Visible(t: State): nat
    requires t.budget.Some?
  {
    t.budget.value.used + Outstanding(t, Total)
  }

  /** The calls in flight that these scopes admitted. */
  ghost function CallsOf(inFlight: map<Call, Scope>, scopes: set<Scope>): set<Call> {
    set c | c in inFlight && inFlight[c] in scopes
  }

  /** What one scope can reach alone: the quota at its last check, and the calls in flight by then. */
  ghost function Reach(t: State, p: nat, m: nat): nat
    requires t.budget.Some?
  {
    t.budget.value.quota + p * m
  }

  /** Every open scope is within its reach, the calls it has in flight included. */
  ghost predicate AllReach(t: State, p: nat, m: nat)
    requires t.budget.Some?
  {
    forall s | s in t.open :: t.open[s].counts.total + |CallsOf(t.inFlight, {s})| * m <= Reach(t, p, m)
  }

  ghost predicate Bounded(t: State, k: nat, p: nat, m: nat) {
    && t.budget.Some? && Accounted(t, Total) && t.budget.value.used == t.tally.total
    && AllReach(t, p, m)
    && Visible(t) + |CallsOf(t.inFlight, t.open.Keys)| * m <= k * Reach(t, p, m)
  }

  /** The open scopes below n. */
  ghost function Below(open: map<Scope, Meter>, n: nat): set<Scope> { set s | s in open && s < n }

  lemma {:induction false} SumBound(open: map<Scope, Meter>, n: nat, b: nat)
    requires forall s | s in open :: open[s].counts.total <= b
    ensures OpenSum(open, n, Total) <= |Below(open, n)| * b
  {
    if n == 0 {
    } else {
      SumBound(open, n - 1, b);
      if n - 1 in open {
        assert Below(open, n) == Below(open, n - 1) + {n - 1};
        Distribute(|Below(open, n - 1)|, b);
      } else {
        assert Below(open, n) == Below(open, n - 1);
      }
    }
  }

  /** One scope's own tokens, and at most b for each of the others. */
  lemma OthersBound(t: State, s: Scope, b: nat)
    requires Numbered(t) && s in t.open && forall r | r in t.open :: t.open[r].counts.total <= b
    ensures |t.open| >= 1 && Outstanding(t, Total) <= t.open[s].counts.total + (|t.open| - 1) * b
  {
    var others := t.open - {s};
    OpenSumChange(others, t.open, s, t.next, Total);
    SumBound(others, t.next, b);
    assert Below(others, t.next) == t.open.Keys - {s};
    assert |t.open.Keys - {s}| == |t.open| - 1;
  }

  lemma MapGrows<K, V>(m: map<K, V>, k: K, v: V)
    ensures |m[k := v]| == if k in m then |m| else |m| + 1
  {
    assert m[k := v].Keys == m.Keys + {k};
    if k in m {
      assert m.Keys + {k} == m.Keys;
    }
  }

  /** A check that admits a call found the closed scopes and its own within the quota. */
  ghost predicate Admits(t: State, e: Event)
    requires Enabled(t, e)
  {
    e.Check? && Step(t, e).inFlight != t.inFlight
  }

  lemma AdmittedBelowQuota(t: State, e: Event)
    requires t.budget.Some? && Enabled(t, e) && Admits(t, e) && e.s in t.open
    ensures t.budget.value.used + t.open[e.s].counts.total <= t.budget.value.quota
  {}

  lemma InFlightAfter(t: State, e: Event)
    requires Enabled(t, e)
    ensures Step(t, e).inFlight ==
      if Admits(t, e) then t.inFlight[e.call := e.s]
      else if e.Record? || e.Fail? then t.inFlight - {e.call}
      else t.inFlight
  {}

  lemma OpenAfter(t: State, e: Event)
    requires Enabled(t, e)
    ensures Step(t, e).open.Keys ==
      if e.Open? then t.open.Keys + {t.next} else if e.Close? then t.open.Keys - {e.s} else t.open.Keys
  {}

  lemma CallsGain(inFlight: map<Call, Scope>, call: Call, r: Scope, scopes: set<Scope>)
    requires call !in inFlight
    ensures |CallsOf(inFlight[call := r], scopes)| == |CallsOf(inFlight, scopes)| + if r in scopes then 1 else 0
  {
    assert CallsOf(inFlight[call := r], scopes) == CallsOf(inFlight, scopes) + if r in scopes then {call} else {};
  }

  lemma CallsLose(inFlight: map<Call, Scope>, call: Call, scopes: set<Scope>)
    requires call in inFlight
    ensures |CallsOf(inFlight - {call}, scopes)| ==
            |CallsOf(inFlight, scopes)| - if inFlight[call] in scopes then 1 else 0
  {
    assert CallsOf(inFlight - {call}, scopes) == CallsOf(inFlight, scopes) - {call};
  }

  lemma CallsClose(inFlight: map<Call, Scope>, scopes: set<Scope>, s: Scope)
    ensures |CallsOf(inFlight, scopes - {s})| <= |CallsOf(inFlight, scopes)|
  {
    var rest := CallsOf(inFlight, scopes) - CallsOf(inFlight, scopes - {s});
    assert CallsOf(inFlight, scopes) == CallsOf(inFlight, scopes - {s}) + rest;
  }

  lemma CallsOpen(inFlight: map<Call, Scope>, scopes: set<Scope>, s: Scope)
    requires forall c | c in inFlight :: inFlight[c] != s
    ensures CallsOf(inFlight, scopes + {s}) == CallsOf(inFlight, scopes)
  {}

  /** How an event changes the calls in flight of some scopes. */
  lemma CallsStep(t: State, e: Event, scopes: set<Scope>)
    requires Enabled(t, e)
    ensures |CallsOf(Step(t, e).inFlight, scopes)| ==
      |CallsOf(t.inFlight, scopes)|
      + (if Admits(t, e) && e.s in scopes then 1 else 0)
      - (if (e.Record? || e.Fail?) && t.inFlight[e.call] in scopes then 1 else 0)
  {
    InFlightAfter(t, e);
    if Admits(t, e) {
      CallsGain(t.inFlight, e.call, e.s, scopes);
    } else if e.Record? || e.Fail? {
      CallsLose(t.inFlight, e.call, scopes);
    }
  }

  /** How an event changes the calls in flight of the open scopes. */
  lemma OpenCallsStep(t: State, e: Event)
    requires Numbered(t) && Enabled(t, e)
    ensures |CallsOf(Step(t, e).inFlight, Step(t, e).open.Keys)| <=
      |CallsOf(t.inFlight, t.open.Keys)|
      + (if Admits(t, e) && e.s in t.open then 1 else 0)
      - (if (e.Record? || e.Fail?) && t.inFlight[e.call] in t.open then 1 else 0)
  {
    CallsStep(t, e, t.open.Keys);
    InFlightAfter(t, e);
    OpenAfter(t, e);
    if e.Open? {
      CallsOpen(t.inFlight, t.open.Keys, t.next);
    } else if e.Close? {
      CallsClose(t.inFlight, t.open.Keys, e.s);
    }
  }

  lemma CallsWithin(inFlight: map<Call, Scope>, scopes: set<Scope>)
    ensures |CallsOf(inFlight, scopes)| <= |inFlight|
  {
    var rest := inFlight.Keys - CallsOf(inFlight, scopes);
    assert inFlight.Keys == CallsOf(inFlight, scopes) + rest;
  }

  lemma Scale(a: nat, b: nat, m: nat)
    requires a <= b
    ensures a * m <= b * m
  {}

  lemma Distribute(a: nat, m: nat)
    ensures (a + 1) * m == a * m + m
  {}

  /** How an event changes one scope's own tokens. */
  lemma TotalStep(t: State, e: Event, s: Scope)
    requires Enabled(t, e) && s in Step(t, e).open
    ensures Step(t, e).open[s].counts.total ==
      if e.Open? && s == t.next then 0
      else Held(t.open, s, Total) + if e.Record? && t.inFlight[e.call] == s then e.usage.total else 0
    ensures s in t.open || (e.Open? && s == t.next)
  {}

  /** Each scope alone stays within its reach. */
  lemma ReachStep(t: State, e: Event, p: nat, m: nat, s: Scope)
    requires t.budget.Some? && Enabled(t, e) && (e.Record? ==> e.usage.total <= m)
    requires |Step(t, e).inFlight| <= p && s in Step(t, e).open
    requires s in t.open ==> t.open[s].counts.total + |CallsOf(t.inFlight, {s})| * m <= Reach(t, p, m)
    ensures Step(t, e).open[s].counts.total + |CallsOf(Step(t, e).inFlight, {s})| * m <= Reach(t, p, m)
  {
    var u := Step(t, e);
    CallsStep(t, e, {s});
    TotalStep(t, e, s);
    CallsWithin(u.inFlight, {s});
    if Admits(t, e) && e.s == s {
      AdmittedBelowQuota(t, e);
    }
    StaysWithin(Held(t.open, s, Total), |CallsOf(t.inFlight, {s})|, u.open[s].counts.total, |CallsOf(u.inFlight, {s})|,
                t.budget.value.quota, p, m);
  }

  /** Tokens x with n calls in flight become y with l: by a fresh start below the quota, or one call at a time. */
  lemma StaysWithin(x: nat, n: nat, y: nat, l: nat, quota: nat, p: nat, m: nat)
    requires l <= p
    requires y <= quota ||
             (x + n * m <= quota + p * m && ((n == l && y <= x) || (n == l + 1 && y <= x + m)))
    ensures y + l * m <= quota + p * m
  {
    Scale(l, p, m);
    Distribute(l, m);
  }

  /** Admitting one more call of an open scope keeps the scopes together within k times their reach. */
  lemma VisibleWhenAdmitted(t: State, s: Scope, l: nat, k: nat, p: nat, m: nat)
    requires t.budget.Some? && Numbered(t) && s in t.open && |t.open| <= k && l <= p
    requires t.budget.value.used + t.open[s].counts.total <= t.budget.value.quota
    requires forall r | r in t.open :: t.open[r].counts.total <= Reach(t, p, m)
    ensures Visible(t) + l * m <= k * Reach(t, p, m)
  {
    var b := Reach(t, p, m);
    OthersBound(t, s, b);
    Scale(l, p, m);
    Distribute(|t.open| - 1, b);
    Scale(|t.open|, k, b);
  }

  lemma EachWithinReach(t: State, k: nat, p: nat, m: nat)
    requires Bounded(t, k, p, m)
    ensures forall r | r in t.open :: t.open[r].counts.total <= Reach(t, p, m)
  {
    forall r | r in t.open ensures t.open[r].counts.total <= Reach(t, p, m) {
      Scale(0, |CallsOf(t.inFlight, {r})|, m);
    }
  }

  lemma VisibleStep(t: State, e: Event, k: nat, p: nat, m: nat)
    requires Bounded(t, k, p, m) && Enabled(t, e) && (e.Record? ==> e.usage.total <= m)
    requires |t.open| <= k && |Step(t, e).inFlight| <= p && Step(t, e).budget.Some?
    ensures Visible(Step(t, e)) + |CallsOf(Step(t, e).inFlight, Step(t, e).open.Keys)| * m <= k * Reach(t, p, m)
  {
    var u := Step(t, e);
    var before, after := |CallsOf(t.inFlight, t.open.Keys)|, |CallsOf(u.inFlight, u.open.Keys)|;
    VisibleChange(t, e);
    OpenCallsStep(t, e);
    if Admits(t, e) && e.s in t.open {
      CallsWithin(u.inFlight, u.open.Keys);
      AdmittedBelowQuota(t, e);
      EachWithinReach(t, k, p, m);
      VisibleWhenAdmitted(t, e.s, after, k, p, m);
    } else {
      PaidFor(before, after, m, if e.Record? && t.inFlight[e.call] in t.open then e.usage.total else 0);
    }
  }

  /** Recording a call adds at most what its being in flight was counted for. */
  lemma PaidFor(before: nat, after: nat, m: nat, recorded: nat)
    requires recorded <= m && (if recorded > 0 then after < before else after <= before)
    ensures recorded + after * m <= before * m
  {
    if recorded > 0 {
      Scale(after, before - 1, m);
      Distribute(before - 1, m);
    } else {
      Scale(after, before, m);
    }
  }

  /** Only a record of an open scope adds to the tokens of the scopes. */
  lemma VisibleChange(t: State, e: Event)
    requires t.budget.Some? && Numbered(t) && Enabled(t, e)
    ensures Step(t, e).budget.Some?
    ensures Visible(Step(t, e)) == Visible(t) + if e.Record? && t.inFlight[e.call] in t.open then e.usage.total else 0
  {
    OutstandingStep(t, e, Total);
  }

  lemma UsedIsTallied(t: State, e: Event)
    requires t.budget.Some? && t.budget.value.used == t.tally.total && Enabled(t, e)
    ensures Step(t, e).budget.Some? && Step(t, e).budget.value.used == Step(t, e).tally.total
    ensures Step(t, e).budget.value.quota == t.budget.value.quota
  {}

  lemma AllReachStep(t: State, e: Event, p: nat, m: nat)
    requires t.budget.Some? && AllReach(t, p, m) && Enabled(t, e) && (e.Record? ==> e.usage.total <= m)
    requires |Step(t, e).inFlight| <= p && Step(t, e).budget.Some?
    requires Step(t, e).budget.value.quota == t.budget.value.quota
    ensures AllReach(Step(t, e), p, m)
  {
    var u := Step(t, e);
    forall s | s in u.open ensures u.open[s].counts.total + |CallsOf(u.inFlight, {s})| * m <= Reach(u, p, m) {
      ReachStep(t, e, p, m, s);
    }
  }

  lemma BoundedStep(t: State, e: Event, k: nat, p: nat, m: nat)
    requires Bounded(t, k, p, m) && Enabled(t, e) && |t.open| <= k
    requires e.Record? ==> e.usage.total <= m
    requires |Step(t, e).inFlight| <= p
    ensures Bounded(Step(t, e), k, p, m) && Step(t, e).budget.value.quota == t.budget.value.quota
  {
    UsedIsTallied(t, e);
    AccountedStep(t, e, Total);
    VisibleStep(t, e, k, p, m);
    AllReachStep(t, e, p, m);
    assert Reach(Step(t, e), p, m) == Reach(t, p, m);
  }

  lemma {:induction false} BoundedRuns(t: State, es: seq<Event>, u: State, k: nat, p: nat, m: nat)
    requires Bounded(t, k, p, m) && Runs(t, es, u) && Moderate(t, es, k, p, m)
    ensures Bounded(u, k, p, m) && u.budget.value.quota == t.budget.value.quota
    decreases |es|
  {
    if es == [] {
    } else {
      BoundedStep(t, es[0], k, p, m);
      BoundedRuns(Step(t, es[0]), es[1..], u, k, p, m);
    }
  }

  lemma InitialBounded(t: State, k: nat, p: nat, m: nat)
    requires Initial(t) && t.budget.Some?
    ensures Bounded(t, k, p, m)
  {
    InitialAccounted(t, Total);
    assert CallsOf(t.inFlight, t.open.Keys) == {};
    assert Visible(t) == 0;
    Scale(0, k, Reach(t, p, m));
  }

  lemma RecordedWithin(t: State, k: nat, p: nat, m: nat, b: nat)
    requires Bounded(t, k, p, m) && Reach(t, p, m) == b
    ensures t.recorded.total <= k * b + t.late.total
  {
    Scale(0, |CallsOf(t.inFlight, t.open.Keys)|, m);
  }

  /**
   With at most k scopes open at once, at most p calls between their check and their record and at most m
   tokens a call, a request never records more than k times its quota and p * m, besides what calls that
   outlived their scope add.
  */
  lemma ScopesOvershootBound(t: State, es: seq<Event>, u: State, k: nat, p: nat, m: nat)
    requires Initial(t) && t.budget.Some? && Runs(t, es, u) && Moderate(t, es, k, p, m)
    ensures u.recorded.total <= k * (t.budget.value.quota + p * m) + u.late.total
  {
    var b := t.budget.value.quota + p * m;
    assert u.recorded.total <= k * b + u.late.total by {
      InitialBounded(t, k, p, m);
      BoundedRuns(t, es, u, k, p, m);
      RecordedWithin(u, k, p, m, b);
    }
  }

  /** One scope at a time: the quota and p * m, as documented. */
  lemma OvershootBound(t: State, es: seq<Event>, u: State, p: nat, m: nat)
    requires Initial(t) && t.budget.Some? && Runs(t, es, u) && Moderate(t, es, 1, p, m)
    ensures u.recorded.total <= t.budget.value.quota + p * m + u.late.total
  {
    ScopesOvershootBound(t, es, u, 1, p, m);
  }

  // ---------------------------------------------------------------------
  // The bound is reached
  // ---------------------------------------------------------------------

  lemma {:induction false} Append(t: State, es: seq<Event>, u: State, e: Event)
    requires Runs(t, es, u) && Enabled(u, e)
    ensures Runs(t, es + [e], Step(u, e))
    decreases |es|
  {
    if es == [] {
      assert (es + [e])[1..] == [];
    } else {
      Append(Step(t, es[0]), es[1..], u, e);
      assert (es + [e])[1..] == es[1..] + [e];
    }
  }

  lemma {:induction false} ModerateAppend(t: State, es: seq<Event>, u: State, e: Event, k: nat, p: nat, m: nat)
    requires Runs(t, es, u) && Enabled(u, e) && Moderate(t, es, k, p, m)
    requires (e.Record? ==> e.usage.total <= m) && |Step(u, e).open| <= k && |Step(u, e).inFlight| <= p
    ensures Moderate(t, es + [e], k, p, m)
    decreases |es|
  {
    if es == [] {
      assert (es + [e])[1..] == [];
    } else {
      ModerateAppend(Step(t, es[0]), es[1..], u, e, k, p, m);
      assert (es + [e])[1..] == es[1..] + [e];
    }
  }

  /** A moderate run with one call in flight at a time, all of whose scopes are still open. */
  ghost predicate Overlapped(t: State, es: seq<Event>, u: State, k: nat, m: nat) {
    && Runs(t, es, u) && Moderate(t, es, k, 1, m)
    && u.budget == t.budget && u.inFlight == map[] && u.late == ZERO && Numbered(u) && |u.open| == u.next
  }

  lemma OneMoreScope(t: State, es: seq<Event>, u: State, k: nat, m: nat) returns (es': seq<Event>, u': State)
    requires Overlapped(t, es, u, k, m) && u.next < k
    ensures Overlapped(t, es', u', k, m) && u'.next == u.next + 1 && u'.recorded == u.recorded
    ensures u.next in u'.open && u'.open[u.next] == Meter(ZERO, None)
  {
    es', u' := es + [Open], Step(u, Open);
    Append(t, es, u, Open);
    MapGrows(u.open, u.next, Meter(ZERO, None));
    ModerateAppend(t, es, u, Open, k, 1, m);
  }

  /** A scope that has not passed the quota by itself makes one more call of m tokens. */
  lemma OneMoreCall(t: State, es: seq<Event>, u: State, k: nat, m: nat, s: Scope) returns (es': seq<Event>, u': State)
    requires Overlapped(t, es, u, k, m) && u.next <= k && s in u.open && t.budget.Some?
    requires t.budget.value.used == 0 && t.budget.value.refused.None?
    requires u.open[s].refused.None? && u.open[s].counts.total <= t.budget.value.quota
    ensures Overlapped(t, es', u', k, m) && u'.next == u.next && u'.recorded.total == u.recorded.total + m
    ensures s in u'.open && u'.open[s].refused.None? && u'.open[s].counts.total == u.open[s].counts.total + m
  {
    var check, record := Check(s, 0, 0), Record(0, Counts(m, 0, m, 1));
    var v := Step(u, check);
    Append(t, es, u, check);
    assert v.inFlight == map[0 := s];
    MapGrows(u.open, s, v.open[s]);
    ModerateAppend(t, es, u, check, k, 1, m);
    es', u' := es + [check] + [record], Step(v, record);
    Append(t, es + [check], v, record);
    assert u'.inFlight == map[];
    MapGrows(v.open, s, u'.open[s]);
    ModerateAppend(t, es + [check], v, record, k, 1, m);
  }

  /** One scope calls j times, its own total never past the quota before a call. */
  lemma {:induction false} CallTimes(t: State, es: seq<Event>, u: State, k: nat, m: nat, s: Scope, j: nat)
      returns (es': seq<Event>, u': State)
    requires Overlapped(t, es, u, k, m) && u.next <= k && s in u.open && t.budget.Some?
    requires t.budget.value.used == 0 && t.budget.value.refused.None?
    requires u.open[s] == Meter(ZERO, None) && (j >= 1 ==> (j - 1) * m <= t.budget.value.quota)
    ensures Overlapped(t, es', u', k, m) && u'.next == u.next && u'.recorded.total == u.recorded.total + j * m
    ensures s in u'.open && u'.open[s].refused.None? && u'.open[s].counts.total == j * m
  {
    if j == 0 {
      es', u' := es, u;
    } else {
      if j >= 2 {
        Scale(j - 2, j - 1, m);
      }
      es', u' := CallTimes(t, es, u, k, m, s, j - 1);
      es', u' := OneMoreCall(t, es', u', k, m, s);
      Distribute(j - 1, m);
    }
  }

  /**
   A check sees the closed scopes and its own, not the others that are open: n scopes that overlap each make
   j calls of m tokens, one call in flight in the whole request at any time.
  */
  lemma {:induction false} OverlappingScopes(t: State, k: nat, n: nat, j: nat, m: nat)
      returns (es: seq<Event>, u: State)
    requires Initial(t) && t.budget.Some? && n <= k && (j >= 1 ==> (j - 1) * m <= t.budget.value.quota)
    ensures Overlapped(t, es, u, k, m) && u.next == n && u.recorded.total == n * (j * m)
  {
    if n == 0 {
      es, u := [], t;
    } else {
      es, u := OverlappingScopes(t, k, n - 1, j, m);
      es, u := OneMoreScope(t, es, u, k, m);
      es, u := CallTimes(t, es, u, k, m, n - 1, j);
      Distribute(n - 1, j * m);
    }
  }

  /** With n overlapping scopes and calls of m tokens the documented bound fails once (n - 1) * m passes the quota. */
  lemma OverlappingScopesOvershoot(t: State, n: nat, m: nat) returns (es: seq<Event>, u: State)
    requires Initial(t) && t.budget.Some? && n >= 1 && (n - 1) * m > t.budget.value.quota
    ensures Runs(t, es, u) && Moderate(t, es, n, 1, m) && u.late == ZERO
    ensures u.recorded.total > t.budget.value.quota + 1 * m
  {
    es, u := OverlappingScopes(t, n, n, 1, m);
    Distribute(n - 1, m);
  }

  /** The bound for k scopes is exact: a quota of c calls is met with equality, for every k, one call at a time. */
  lemma ScopesBoundReached(t: State, k: nat, c: nat, m: nat) returns (es: seq<Event>, u: State)
    requires Initial(t) && t.budget.Some? && t.budget.value.quota == c * m
    ensures Runs(t, es, u) && Moderate(t, es, k, 1, m) && u.late == ZERO
    ensures u.recorded.total == k * (t.budget.value.quota + 1 * m)
  {
    es, u := OverlappingScopes(t, k, k, c + 1, m);
    Distribute(c, m);
  }
}

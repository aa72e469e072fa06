/** ExecutionPlanValidator: what it accepts, and which error it raises first. */
module PlanValidator {
  import opened Common
  import opened PlanGraph
  import opened Text

  datatype StepProblem = EmptyId | NoAgent | EmptyInstruction | BadStage

  datatype DependencyProblem =
    DuplicateDependency | EmptyDependency | SelfDependency | UnknownDependency(dependency: Id)

  datatype PlanError =
    | NoSteps
    | DuplicateIds
    | BadStep(index: nat, stepProblem: StepProblem)
    | BadDependency(index: nat, dependencyProblem: DependencyProblem)
    | Cycle
    | SameAgent(earlier: nat, later: nat)
    | TooLarge(count: nat, maxSteps: nat)

  // ---------------------------------------------------------------------
  // What a plan must satisfy
  // ---------------------------------------------------------------------

  function Ids(steps: seq<Step>): (ids: seq<Id>)
    ensures |ids| == |steps| && forall i | 0 <= i < |ids| :: ids[i] == steps[i].id
  {
    seq(|steps|, i requires 0 <= i < |steps| => steps[i].id)
  }

  ghost predicate StepOk(step: Step) {
    !IsBlank(step.id) && step.agent != "" && !IsBlank(step.instruction) && step.stage >= 1
  }

  ghost predicate DependenciesOk(step: Step, g: Dependencies) {
    Distinct(step.dependsOn) && forall d | d in step.dependsOn :: !IsBlank(d) && d != step.id && d in g
  }

  /** The first n steps have good fields. */
  ghost predicate StepsOk(steps: seq<Step>, n: nat) { n <= |steps| && forall k | 0 <= k < n :: StepOk(steps[k]) }

  ghost predicate AllDependenciesOk(steps: seq<Step>, g: Dependencies, n: nat) {
    n <= |steps| && forall k | 0 <= k < n :: DependenciesOk(steps[k], g)
  }

  /** The same agent never has two steps that neither depends on the other. */
  ghost predicate AgentsOrdered(plan: Plan, g: Dependencies) {
    forall i, j | 0 <= i < j < |plan.steps| && plan.steps[i].agent == plan.steps[j].agent ::
      Ordered(g, plan.steps[i].id, plan.steps[j].id)
  }

  ghost predicate Ordered(g: Dependencies, x: Id, y: Id) { DependsOn(g, x, y) || DependsOn(g, y, x) }

  /** Everything but the agent check and the size limit. */
  ghost predicate WellFormed(plan: Plan) {
    var g := DependencyMap(plan.steps);
    && plan.steps != [] && Distinct(Ids(plan.steps))
    && StepsOk(plan.steps, |plan.steps|) && AllDependenciesOk(plan.steps, g, |plan.steps|)
    && Acyclic(g)
  }

  ghost predicate Accepted(plan: Plan, maxSteps: nat) {
    WellFormed(plan) && AgentsOrdered(plan, DependencyMap(plan.steps)) && |plan.steps| <= maxSteps
  }

  /** The error raised is the first check that fails, at the first step that fails it. */
  ghost predicate Raised(plan: Plan, error: PlanError) {
    var g := DependencyMap(plan.steps);
    match error
    case NoSteps => plan.steps == []
    case DuplicateIds => plan.steps != [] && !Distinct(Ids(plan.steps))
    case BadStep(i, p) =>
      && Distinct(Ids(plan.steps)) && i < |plan.steps| && Ails(plan.steps[i], p)
      && StepsOk(plan.steps, i) && !StepOk(plan.steps[i])
    case BadDependency(i, p) =>
      && Distinct(Ids(plan.steps)) && StepsOk(plan.steps, |plan.steps|)
      && i < |plan.steps| && AllDependenciesOk(plan.steps, g, i)
      && !DependenciesOk(plan.steps[i], g) && IsProblem(plan.steps[i], g, p)
    case Cycle =>
      && Distinct(Ids(plan.steps)) && StepsOk(plan.steps, |plan.steps|)
      && AllDependenciesOk(plan.steps, g, |plan.steps|) && !Acyclic(g)
    case SameAgent(i, j) =>
      WellFormed(plan) && Clash(plan.steps, g, i, j)
    case TooLarge(n, m) =>
      WellFormed(plan) && AgentsOrdered(plan, g) && n == |plan.steps| > m
  }

  /** What each problem says of its step: it is the first of these that applies. */
  ghost predicate Ails(step: Step, p: StepProblem) {
    match p
    case EmptyId => IsBlank(step.id)
    case NoAgent => !IsBlank(step.id) && step.agent == ""
    case EmptyInstruction => !IsBlank(step.id) && step.agent != "" && IsBlank(step.instruction)
    case BadStage => !IsBlank(step.id) && step.agent != "" && !IsBlank(step.instruction) && step.stage < 1
  }

  function ProblemOf(step: Step): (p: Option<StepProblem>)
    ensures p.None? <==> StepOk(step)
    ensures p.Some? ==> Ails(step, p.value)
  {
    if IsBlank(step.id) then Some(EmptyId)
    else if step.agent == "" then Some(NoAgent)
    else if IsBlank(step.instruction) then Some(EmptyInstruction)
    else if step.stage < 1 then Some(BadStage)
    else None
  }

  ghost predicate IsProblem(step: Step, g: Dependencies, p: DependencyProblem) {
    if p.DuplicateDependency? then !Distinct(step.dependsOn)
    else
      Distinct(step.dependsOn) &&
      exists i :: 0 <= i < |step.dependsOn| && DependencyAils(step, g, step.dependsOn[i], p) && AllGood(step, g, i)
  }

  /** What each problem says of a dependency of its step. */
  ghost predicate DependencyAils(step: Step, g: Dependencies, d: Id, p: DependencyProblem) {
    match p
    case DuplicateDependency => false
    case EmptyDependency => IsBlank(d)
    case SelfDependency => !IsBlank(d) && d == step.id
    case UnknownDependency(x) => !IsBlank(d) && d != step.id && d !in g && x == d
  }

  /** What is wrong with one dependency, first things first. */
  function ProblemAt(step: Step, g: Dependencies, i: nat): (p: Option<DependencyProblem>)
    requires i < |step.dependsOn|
    ensures p.Some? ==> DependencyAils(step, g, step.dependsOn[i], p.value)
    ensures p.None? <==> !IsBlank(step.dependsOn[i]) && step.dependsOn[i] != step.id && step.dependsOn[i] in g
  {
    var d := step.dependsOn[i];
    if IsBlank(d) then Some(EmptyDependency)
    else if d == step.id then Some(SelfDependency)
    else if d !in g then Some(UnknownDependency(d))
    else None
  }

  /** The first i dependencies are good. */
  ghost predicate AllGood(step: Step, g: Dependencies, i: nat) {
    i <= |step.dependsOn| && forall k | 0 <= k < i :: ProblemAt(step, g, k).None?
  }

  // ---------------------------------------------------------------------
  // Uniqueness by comparing a list with its set
  // ---------------------------------------------------------------------

  function SetOf<T>(s: seq<T>): set<T> { set x | x in s }

  /** len(s) == len(set(s)) */
  lemma {:induction false} DistinctIffSameSize<T>(s: seq<T>)
    ensures |SetOf(s)| <= |s|
    ensures Distinct(s) <==> |SetOf(s)| == |s|
  {
    if s == [] {
    } else {
      var n := |s| - 1;
      var front, last := s[..n], s[n];
      DistinctIffSameSize(front);
      assert s == front + [last];
      if last in front {
        assert SetOf(s) == SetOf(front);
        var k :| 0 <= k < n && front[k] == last;
        assert s[k] == s[n];
      } else {
        assert SetOf(s) == SetOf(front) + {last};
        assert Distinct(front) ==> Distinct(s);
        assert Distinct(s) ==> Distinct(front) by {
          if Distinct(s) {
            forall i, j | 0 <= i < j < n ensures front[i] != front[j] { assert s[i] != s[j]; }
          }
        }
      }
    }
  }

  // ---------------------------------------------------------------------
  // The cycle check
  // ---------------------------------------------------------------------

  /** path is a chain of steps each needing the next, whose last one needs next. */
  ghost predicate Leads(g: Dependencies, path: seq<Id>, next: Id) { path == [] || IsChain(g, path + [next]) }

  lemma PathMeetsItself(g: Dependencies, path: seq<Id>, id: Id)
    requires Leads(g, path, id) && id in path
    ensures DependsOn(g, id, id)
  {
    var k :| 0 <= k < |path| && path[k] == id;
    var chain := path + [id];
    var loop := chain[k..];
    forall i | 0 <= i < |loop| - 1 ensures loop[i + 1] in Edges(g, loop[i]) {
      assert chain[k + i + 1] in Edges(g, chain[k + i]);
    }
    assert IsChain(g, loop);
  }

  lemma PathGrows(g: Dependencies, path: seq<Id>, id: Id, d: Id)
    requires Leads(g, path, id) && d in Edges(g, id)
    ensures Leads(g, path + [id], d)
  {
    var chain, longer := path + [id], path + [id] + [d];
    forall i | 0 <= i < |longer| - 1 ensures longer[i + 1] in Edges(g, longer[i]) {
      if i < |path| {
        assert chain[i + 1] in Edges(g, chain[i]);
      }
    }
    assert IsChain(g, longer);
  }

  /** Closed under dependencies, and on no cycle. */
  ghost predicate Settled(g: Dependencies, visited: set<Id>) {
    ClosedUnder(g, visited) && forall x | x in visited :: !DependsOn(g, x, x)
  }

  /** A step with all its dependencies settled settles too. */
  lemma SettledGrows(g: Dependencies, visited: set<Id>, id: Id)
    requires Settled(g, visited) && forall d | d in Edges(g, id) :: d in visited
    ensures Settled(g, visited + {id})
  {
    if DependsOn(g, id, id) {
      var d := FirstEdge(g, id, id);
      assert d in visited;
      if d != id {
        ClosedKeeps(g, visited, d, id);
      }
    }
  }

  ghost predicate AllIn(ids: seq<Id>, n: nat, found: set<Id>) {
    n <= |ids| && forall k | 0 <= k < n :: ids[k] in found
  }

  lemma OneMoreIn(ids: seq<Id>, n: nat, before: set<Id>, after: set<Id>)
    requires AllIn(ids, n, before) && before <= after && n < |ids| && ids[n] in after
    ensures AllIn(ids, n + 1, after)
  {}

  /** The three-state depth-first walk: unvisited, visiting, visited. */
  class DependencyWalk {
    const g: Dependencies
    var visiting: set<Id>
    var visited: set<Id>

    ghost predicate Valid()
      reads this
    {
      && Known(g) && visiting !! visited && visiting <= g.Keys && visited <= g.Keys
      && Settled(g, visited)
    }

    constructor (g: Dependencies)
      requires Known(g)
      ensures Valid() && this.g == g && visiting == {} && visited == {}
    {
      this.g, visiting, visited := g, {}, {};
    }

    /** False, the raised error, when a step that is still being visited was reached again. */
    method Visit(id: Id, ghost path: seq<Id>) returns (ok: bool)
      requires Valid() && id in g && visiting == SetOf(path) && Leads(g, path, id)
      modifies this
      decreases g.Keys - visiting
      ensures ok ==> Valid() && visiting == old(visiting) && old(visited) <= visited && id in visited
      ensures !ok ==> !Acyclic(g)
    {
      if id in visited {
        return true;
      }
      if id in visiting {
        PathMeetsItself(g, path, id);
        return false;
      }
      visiting := visiting + {id};
      ghost var here := path + [id];
      var i := 0;
      while i < |g[id]|
        invariant 0 <= i <= |g[id]|
        invariant Valid() && visiting == old(visiting) + {id} == SetOf(here) && old(visited) <= visited
        invariant AllIn(g[id], i, visited)
      {
        PathGrows(g, path, id, g[id][i]);
        ghost var before := visited;
        ok := Visit(g[id][i], here);
        if !ok {
          return false;
        }
        OneMoreIn(g[id], i, before, visited);
        i := i + 1;
      }
      SettledGrows(g, visited, id);
      visiting := visiting - {id};
      visited := visited + {id};
      ok := true;
    }
  }

  /** _validate_dependency_graph(): passes exactly when no step depends on itself. */
  method ValidateDependencyGraph(g: Dependencies, order: seq<Id>) returns (ok: bool)
    requires Known(g) && SetOf(order) == g.Keys
    ensures ok <==> Acyclic(g)
  {
    var walk := new DependencyWalk(g);
    var i := 0;
    while i < |order|
      invariant 0 <= i <= |order|
      invariant walk.Valid() && walk.visiting == {} && fresh(walk) && walk.g == g
      invariant AllIn(order, i, walk.visited)
    {
      ghost var before := walk.visited;
      ok := walk.Visit(order[i], []);
      if !ok {
        return;
      }
      OneMoreIn(order, i, before, walk.visited);
      i := i + 1;
    }
    forall x ensures !DependsOn(g, x, x) {
      if x in g {
        assert x in SetOf(order);
      } else if DependsOn(g, x, x) {
        var d := FirstEdge(g, x, x);
      }
    }
    ok := true;
  }

  // ---------------------------------------------------------------------
  // The same-agent check
  // ---------------------------------------------------------------------

  /** Every id the worklist can meet. */
  ghost function Universe(g: Dependencies): set<Id> { set x, d | x in g && d in g[x] :: d }

  /** What is found or stacked is reached, and nothing reached from it is forgotten. */
  ghost predicate Collecting(g: Dependencies, id: Id, found: set<Id>, stack: seq<Id>) {
    && (forall x | x in found || x in stack :: DependsOn(g, id, x) && x in Universe(g))
    && (forall d | d in Edges(g, id) :: d in found || d in stack)
    && (forall x, d | x in found && d in Edges(g, x) :: d in found || d in stack)
  }

  lemma CollectAgain(g: Dependencies, id: Id, found: set<Id>, stack: seq<Id>, next: Id)
    requires Collecting(g, id, found, stack + [next]) && next in found
    ensures Collecting(g, id, found, stack)
  {
    forall x | x in stack ensures x in stack + [next] {}
    forall x | x in stack + [next] ensures x in found || x in stack {}
  }

  lemma CollectNew(g: Dependencies, id: Id, found: set<Id>, stack: seq<Id>, next: Id)
    requires Collecting(g, id, found, stack + [next])
    ensures next in Universe(g) && Collecting(g, id, found + {next}, stack + Edges(g, next))
  {
    assert next in stack + [next];
    forall x | x in stack ensures x in stack + [next] {}
    forall d | d in Edges(g, next) ensures DependsOn(g, id, d) && d in Universe(g) {
      EdgeDepends(g, next, d);
      DependsTransitive(g, id, next, d);
    }
    forall x | x in stack + [next] ensures x in found + {next} || x in stack + Edges(g, next) {}
  }

  /** _transitive_dependencies(): exactly the ids reached by one or more depends_on edges. */
  method TransitiveDependencies(g: Dependencies, id: Id) returns (found: set<Id>)
    ensures forall x :: x in found <==> DependsOn(g, id, x)
  {
    found := {};
    var stack := Edges(g, id);
    forall x | x in stack ensures DependsOn(g, id, x) && x in Universe(g) { EdgeDepends(g, id, x); }
    while stack != []
      invariant Collecting(g, id, found, stack)
      decreases Universe(g) - found, |stack|
    {
      var dependency, rest := stack[|stack| - 1], stack[..|stack| - 1];
      assert stack == rest + [dependency];
      if dependency in found {
        CollectAgain(g, id, found, rest, dependency);
        stack := rest;
        continue;
      }
      CollectNew(g, id, found, rest, dependency);
      found := found + {dependency};
      stack := rest + Edges(g, dependency);
    }
    forall x | DependsOn(g, id, x) ensures x in found {
      var d := FirstEdge(g, id, x);
      if d != x {
        ClosedKeeps(g, found, d, x);
      }
    }
  }

  /** {step.id: _transitive_dependencies(step.id)} */
  method Ancestors(steps: seq<Step>, g: Dependencies) returns (ancestors: map<Id, set<Id>>)
    ensures forall i | 0 <= i < |steps| :: steps[i].id in ancestors
    ensures forall x, y | x in ancestors :: y in ancestors[x] <==> DependsOn(g, x, y)
  {
    ancestors := map[];
    var i := 0;
    while i < |steps|
      invariant 0 <= i <= |steps|
      invariant forall k | 0 <= k < i :: steps[k].id in ancestors
      invariant forall x, y | x in ancestors :: y in ancestors[x] <==> DependsOn(g, x, y)
    {
      var found := TransitiveDependencies(g, steps[i].id);
      ancestors := ancestors[steps[i].id := found];
      i := i + 1;
    }
  }

  /** Positions below n of steps of one agent, in order. */
  ghost predicate GroupOf(steps: seq<Step>, n: nat, agent: string, group: seq<nat>) {
    && n <= |steps|
    && (forall p | 0 <= p < |group| :: group[p] < n && steps[group[p]].agent == agent)
    && (forall p, q | 0 <= p < q < |group| :: group[p] < group[q])
  }

  /** The positions, in order, of each agent's steps among the first n. */
  ghost predicate GroupsBy(steps: seq<Step>, n: nat, agents: seq<string>, groups: map<string, seq<nat>>) {
    && n <= |steps| && SetOf(agents) == groups.Keys
    && (forall a | a in groups :: GroupOf(steps, n, a, groups[a]))
    && (forall i | 0 <= i < n :: steps[i].agent in groups && i in groups[steps[i].agent])
  }

  /** steps_by_agent, with its keys in the order they were first inserted. */
  method GroupByAgent(steps: seq<Step>) returns (agents: seq<string>, groups: map<string, seq<nat>>)
    ensures GroupsBy(steps, |steps|, agents, groups)
  {
    agents, groups := [], map[];
    var i := 0;
    while i < |steps|
      invariant 0 <= i <= |steps|
      invariant GroupsBy(steps, i, agents, groups)
    {
      var agent := steps[i].agent;
      if agent !in groups {
        agents, groups := agents + [agent], groups[agent := [i]];
      } else {
        groups := groups[agent := groups[agent] + [i]];
      }
      i := i + 1;
    }
  }

  /** The pairs of one agent's steps before pair (p, q) are all ordered. */
  ghost predicate PairsOrdered(steps: seq<Step>, g: Dependencies, group: seq<nat>, p: nat, q: nat) {
    (forall k | 0 <= k < |group| :: group[k] < |steps|) &&
    forall a, b | 0 <= a < b < |group| && (a < p || (a == p && b < q)) ::
      Ordered(g, steps[group[a]].id, steps[group[b]].id)
  }

  ghost predicate Clash(steps: seq<Step>, g: Dependencies, i: nat, j: nat) {
    && i < j < |steps| && steps[i].agent == steps[j].agent
    && !Ordered(g, steps[i].id, steps[j].id)
  }

  /** The first unordered pair of one agent's steps, in combinations() order. */
  method UnorderedPair(steps: seq<Step>, g: Dependencies, ancestors: map<Id, set<Id>>,
                       ghost agent: string, group: seq<nat>)
      returns (clash: Option<(nat, nat)>)
    requires GroupOf(steps, |steps|, agent, group)
    requires forall i | 0 <= i < |steps| :: steps[i].id in ancestors
    requires forall x, y | x in ancestors :: y in ancestors[x] <==> DependsOn(g, x, y)
    ensures clash.None? ==> PairsOrdered(steps, g, group, |group|, 0)
    ensures clash.Some? ==> Clash(steps, g, clash.value.0, clash.value.1)
    ensures clash.Some? ==>
      exists p, q ::
        0 <= p < q < |group| && clash.value == (group[p], group[q]) && PairsOrdered(steps, g, group, p, q)
  {
    var p := 0;
    while p < |group|
      invariant 0 <= p <= |group|
      invariant PairsOrdered(steps, g, group, p, 0)
    {
      var q := p + 1;
      while q < |group|
        invariant p < q <= |group|
        invariant PairsOrdered(steps, g, group, p, q)
      {
        var earlier, later := steps[group[p]], steps[group[q]];
        if earlier.id !in ancestors[later.id] && later.id !in ancestors[earlier.id] {
          return Some((group[p], group[q]));
        }
        q := q + 1;
      }
      p := p + 1;
    }
    clash := None;
  }

  /** The first n agents have no unordered pair. */
  ghost predicate AgentsDone(steps: seq<Step>, g: Dependencies, agents: seq<string>, groups: map<string, seq<nat>>,
                             n: nat)
  {
    n <= |agents| && forall m | 0 <= m < n ::
      agents[m] in groups && PairsOrdered(steps, g, groups[agents[m]], |groups[agents[m]]|, 0)
  }

  lemma OneMoreAgent(steps: seq<Step>, g: Dependencies, agents: seq<string>, groups: map<string, seq<nat>>, n: nat)
    requires AgentsDone(steps, g, agents, groups, n) && n < |agents| && agents[n] in groups
    requires PairsOrdered(steps, g, groups[agents[n]], |groups[agents[n]]|, 0)
    ensures AgentsDone(steps, g, agents, groups, n + 1)
  {}

  lemma EveryPairOrdered(steps: seq<Step>, g: Dependencies, agents: seq<string>, groups: map<string, seq<nat>>)
    requires GroupsBy(steps, |steps|, agents, groups)
    requires AgentsDone(steps, g, agents, groups, |agents|)
    ensures forall i, j | 0 <= i < j < |steps| && steps[i].agent == steps[j].agent ::
      Ordered(g, steps[i].id, steps[j].id)
  {
    forall i, j | 0 <= i < j < |steps| && steps[i].agent == steps[j].agent
      ensures Ordered(g, steps[i].id, steps[j].id)
    {
      var group := groups[steps[i].agent];
      assert steps[i].agent in SetOf(agents);
      var p :| 0 <= p < |group| && group[p] == i;
      var q :| 0 <= q < |group| && group[q] == j;
    }
  }

  /** _validate_agent_concurrency() */
  method ValidateAgentConcurrency(plan: Plan) returns (clash: Option<(nat, nat)>)
    ensures clash.None? ==> AgentsOrdered(plan, DependencyMap(plan.steps))
    ensures clash.Some? ==> Clash(plan.steps, DependencyMap(plan.steps), clash.value.0, clash.value.1)
  {
    var steps, g := plan.steps, DependencyMap(plan.steps);
    var ancestors := Ancestors(steps, g);
    var agents, groups := GroupByAgent(steps);
    var n := 0;
    while n < |agents|
      invariant 0 <= n <= |agents|
      invariant AgentsDone(steps, g, agents, groups, n)
    {
      assert agents[n] in SetOf(agents);
      clash := UnorderedPair(steps, g, ancestors, agents[n], groups[agents[n]]);
      if clash.Some? {
        return;
      }
      OneMoreAgent(steps, g, agents, groups, n);
      n := n + 1;
    }
    EveryPairOrdered(steps, g, agents, groups);
    clash := None;
  }

  // ---------------------------------------------------------------------
  // The whole validation
  // ---------------------------------------------------------------------

  /** _validate_step_dependencies(): the first problem of one step's dependencies. */
  method ValidateStepDependencies(step: Step, g: Dependencies) returns (problem: Option<DependencyProblem>)
    ensures problem.None? <==> DependenciesOk(step, g)
    ensures problem.Some? ==> IsProblem(step, g, problem.value)
  {
    DistinctIffSameSize(step.dependsOn);
    if |step.dependsOn| != |SetOf(step.dependsOn)| {
      return Some(DuplicateDependency);
    }
    var i := 0;
    while i < |step.dependsOn|
      invariant 0 <= i <= |step.dependsOn|
      invariant AllGood(step, g, i)
    {
      var dependency := step.dependsOn[i];
      assert ProblemAt(step, g, i).Some? ==> !DependenciesOk(step, g);
      if IsBlank(dependency) {
        return Some(EmptyDependency);
      }
      if dependency == step.id {
        return Some(SelfDependency);
      }
      if dependency !in g {
        return Some(UnknownDependency(dependency));
      }
      i := i + 1;
    }
    AllGoodIsOk(step, g);
    problem := None;
  }

  lemma AllGoodIsOk(step: Step, g: Dependencies)
    requires Distinct(step.dependsOn) && AllGood(step, g, |step.dependsOn|)
    ensures DependenciesOk(step, g)
  {
    forall d | d in step.dependsOn ensures !IsBlank(d) && d != step.id && d in g {
      var i :| 0 <= i < |step.dependsOn| && step.dependsOn[i] == d;
      assert ProblemAt(step, g, i).None?;
    }
  }

  /** The first loop of validate(): the first step with a bad field. */
  method ValidateSteps(steps: seq<Step>) returns (bad: Option<(nat, StepProblem)>)
    ensures bad.None? ==> StepsOk(steps, |steps|)
    ensures bad.Some? ==>
      var i := bad.value.0;
      i < |steps| && Ails(steps[i], bad.value.1) && StepsOk(steps, i) && !StepOk(steps[i])
  {
    for i := 0 to |steps|
      invariant StepsOk(steps, i)
    {
      var problem := ProblemOf(steps[i]);
      if problem.Some? {
        return Some((i, problem.value));
      }
    }
    bad := None;
  }

  /** The second loop of validate(): the first step with a bad dependency. */
  method ValidateDependencies(steps: seq<Step>, g: Dependencies) returns (bad: Option<(nat, DependencyProblem)>)
    ensures bad.None? ==> AllDependenciesOk(steps, g, |steps|)
    ensures bad.Some? ==>
      var i := bad.value.0;
      && i < |steps| && !DependenciesOk(steps[i], g) && IsProblem(steps[i], g, bad.value.1)
      && AllDependenciesOk(steps, g, i)
  {
    for i := 0 to |steps|
      invariant AllDependenciesOk(steps, g, i)
    {
      var problem := ValidateStepDependencies(steps[i], g);
      if problem.Some? {
        return Some((i, problem.value));
      }
    }
    bad := None;
  }

  /** _validate_plan(): the first error, whatever the size limit. */
  method ValidatePlan(plan: Plan) returns (error: Option<PlanError>)
    ensures error.None? <==> WellFormed(plan) && AgentsOrdered(plan, DependencyMap(plan.steps))
    ensures error.Some? ==> !error.value.TooLarge? && Raised(plan, error.value)
  {
    var steps := plan.steps;
    if steps == [] {
      return Some(NoSteps);
    }
    DistinctIffSameSize(Ids(steps));
    if |Ids(steps)| != |SetOf(Ids(steps))| {
      return Some(DuplicateIds);
    }
    var bad := ValidateSteps(steps);
    if bad.Some? {
      return Some(BadStep(bad.value.0, bad.value.1));
    }
    var g := DependencyMap(steps);
    var broken := ValidateDependencies(steps, g);
    if broken.Some? {
      return Some(BadDependency(broken.value.0, broken.value.1));
    }
    EveryDependencyKnown(steps);
    error := ValidateGraphAndAgents(plan);
  }

  /** The two checks over the whole graph. */
  method ValidateGraphAndAgents(plan: Plan) returns (error: Option<PlanError>)
    requires Known(DependencyMap(plan.steps)) && SetOf(Ids(plan.steps)) == DependencyMap(plan.steps).Keys
    ensures error.None? ==> Acyclic(DependencyMap(plan.steps)) && AgentsOrdered(plan, DependencyMap(plan.steps))
    ensures error == Some(Cycle) <==> !Acyclic(DependencyMap(plan.steps))
    ensures error.None? || error == Some(Cycle) ||
            (error.value.SameAgent? &&
             Clash(plan.steps, DependencyMap(plan.steps), error.value.earlier, error.value.later))
  {
    var acyclic := ValidateDependencyGraph(DependencyMap(plan.steps), Ids(plan.steps));
    if !acyclic {
      return Some(Cycle);
    }
    var clash := ValidateAgentConcurrency(plan);
    error := if clash.Some? then Some(SameAgent(clash.value.0, clash.value.1)) else None;
  }

  /** validate(): the plan, exactly when every check passes; otherwise the first error. */
  method Validate(plan: Plan, maxSteps: nat) returns (r: Result<Plan, PlanError>)
    requires maxSteps >= 1
    ensures r.Ok? <==> Accepted(plan, maxSteps)
    ensures r.Ok? ==> r.value == plan
    ensures r.Err? ==> Raised(plan, r.error) && (r.error.TooLarge? ==> r.error.maxSteps == maxSteps)
  {
    var error := ValidatePlan(plan);
    if error.Some? {
      return Err(error.value);
    }
    if |plan.steps| > maxSteps {
      return Err(TooLarge(|plan.steps|, maxSteps));
    }
    r := Ok(plan);
  }

  lemma {:induction false} MapOfSteps(steps: seq<Step>, id: Id)
    requires id in DependencyMap(steps)
    ensures exists i :: 0 <= i < |steps| && steps[i].id == id && DependencyMap(steps)[id] == steps[i].dependsOn
  {
    var n := |steps| - 1;
    if steps[n].id != id {
      MapOfSteps(steps[..n], id);
      var i :| 0 <= i < n && steps[..n][i].id == id && DependencyMap(steps[..n])[id] == steps[..n][i].dependsOn;
      assert steps[i].id == id;
    }
  }

  lemma EveryDependencyKnown(steps: seq<Step>)
    requires AllDependenciesOk(steps, DependencyMap(steps), |steps|)
    ensures Known(DependencyMap(steps)) && SetOf(Ids(steps)) == DependencyMap(steps).Keys
  {
    var g := DependencyMap(steps);
    forall x, d | x in g && d in g[x] ensures d in g {
      MapOfSteps(steps, x);
    }
    forall x ensures x in SetOf(Ids(steps)) <==> x in g {
      if x in g {
        var i :| 0 <= i < |steps| && steps[i].id == x;
        assert Ids(steps)[i] == x;
      }
    }
  }

  /** With unique ids the map holds every step's own dependencies. */
  lemma {:induction false} OwnDependencies(steps: seq<Step>, i: nat)
    requires Distinct(Ids(steps)) && i < |steps|
    ensures steps[i].id in DependencyMap(steps) && DependencyMap(steps)[steps[i].id] == steps[i].dependsOn
  {
    MapOfSteps(steps, steps[i].id);
    var k :| 0 <= k < |steps| && steps[k].id == steps[i].id && DependencyMap(steps)[steps[i].id] == steps[k].dependsOn;
    assert Ids(steps)[k] == Ids(steps)[i];
  }

  // ---------------------------------------------------------------------
  // What an accepted plan looks like
  // ---------------------------------------------------------------------

  /** A chain of steps, each listing the next one in its depends_on. */
  ghost predicate IsStepChain(plan: Plan, path: seq<nat>) {
    && |path| >= 2 && (forall k | 0 <= k < |path| :: path[k] < |plan.steps|)
    && forall k | 0 <= k < |path| - 1 :: plan.steps[path[k + 1]].id in plan.steps[path[k]].dependsOn
  }

  /** Step i needs step j, directly or through others. */
  ghost predicate Reaches(plan: Plan, i: nat, j: nat) {
    exists path :: IsStepChain(plan, path) && path[0] == i && path[|path| - 1] == j
  }

  ghost predicate UniqueIds(plan: Plan) {
    forall i, j | 0 <= i < j < |plan.steps| :: plan.steps[i].id != plan.steps[j].id
  }

  /** Every field is filled in, and every dependency is another step, listed once. */
  ghost predicate SoundSteps(plan: Plan) {
    forall i | 0 <= i < |plan.steps| ::
      var s := plan.steps[i];
      && !IsBlank(s.id) && s.agent != "" && !IsBlank(s.instruction) && 1 <= s.stage
      && (forall k, m | 0 <= k < m < |s.dependsOn| :: s.dependsOn[k] != s.dependsOn[m])
      && (forall d | d in s.dependsOn ::
            !IsBlank(d) && d != s.id && exists j :: 0 <= j < |plan.steps| && plan.steps[j].id == d)
  }

  lemma ReachesIsDependsOn(plan: Plan, i: nat, j: nat)
    requires Distinct(Ids(plan.steps)) && Known(DependencyMap(plan.steps)) && i < |plan.steps| && j < |plan.steps|
    ensures Reaches(plan, i, j) <==> DependsOn(DependencyMap(plan.steps), plan.steps[i].id, plan.steps[j].id)
  {
    var steps, g := plan.steps, DependencyMap(plan.steps);
    if path :| IsStepChain(plan, path) && path[0] == i && path[|path| - 1] == j {
      var p := seq(|path|, k requires 0 <= k < |path| => steps[path[k]].id);
      forall k | 0 <= k < |p| - 1 ensures p[k + 1] in Edges(g, p[k]) {
        OwnDependencies(steps, path[k]);
      }
      assert IsChain(g, p) && p[0] == steps[i].id && p[|p| - 1] == steps[j].id;
    }
    if p :| IsChain(g, p) && p[0] == steps[i].id && p[|p| - 1] == steps[j].id {
      var path := StepsOfChain(plan, p, i);
      assert Ids(steps)[path[|path| - 1]] == Ids(steps)[j];
    }
  }

  /** One more step in front of a chain. */
  lemma StepChainGrows(plan: Plan, i: nat, rest: seq<nat>)
    requires i < |plan.steps| && IsStepChain(plan, rest) && plan.steps[rest[0]].id in plan.steps[i].dependsOn
    ensures IsStepChain(plan, [i] + rest)
  {
    var path := [i] + rest;
    forall k | 0 <= k < |path| - 1 ensures plan.steps[path[k + 1]].id in plan.steps[path[k]].dependsOn {
      if k > 0 {
        assert path[k] == rest[k - 1] && path[k + 1] == rest[k];
      }
    }
  }

  lemma ChainTail(g: Dependencies, p: seq<Id>)
    requires IsChain(g, p) && |p| > 2
    ensures IsChain(g, p[1..])
  {
    forall k | 0 <= k < |p[1..]| - 1 ensures p[1..][k + 1] in Edges(g, p[1..][k]) {
      assert p[k + 2] in Edges(g, p[k + 1]);
    }
  }

  /** The next step along a chain of ids. */
  lemma NextStep(plan: Plan, p: seq<Id>, i: nat) returns (n: nat)
    requires Distinct(Ids(plan.steps)) && Known(DependencyMap(plan.steps)) && i < |plan.steps|
    requires IsChain(DependencyMap(plan.steps), p) && p[0] == plan.steps[i].id
    ensures n < |plan.steps| && plan.steps[n].id == p[1] && p[1] in plan.steps[i].dependsOn
  {
    OwnDependencies(plan.steps, i);
    assert p[0 + 1] in Edges(DependencyMap(plan.steps), p[0]);
    assert p[1] in DependencyMap(plan.steps);
    n :| 0 <= n < |plan.steps| && plan.steps[n].id == p[1];
  }

  /** The steps along a chain of ids. */
  lemma {:induction false} StepsOfChain(plan: Plan, p: seq<Id>, i: nat) returns (path: seq<nat>)
    requires Distinct(Ids(plan.steps)) && Known(DependencyMap(plan.steps)) && i < |plan.steps|
    requires IsChain(DependencyMap(plan.steps), p) && p[0] == plan.steps[i].id
    ensures IsStepChain(plan, path) && path[0] == i && plan.steps[path[|path| - 1]].id == p[|p| - 1]
    decreases |p|
  {
    var n := NextStep(plan, p, i);
    if |p| == 2 {
      path := [i, n];
    } else {
      ChainTail(DependencyMap(plan.steps), p);
      var rest := StepsOfChain(plan, p[1..], n);
      StepChainGrows(plan, i, rest);
      path := [i] + rest;
    }
  }

  lemma SoundIsOk(plan: Plan)
    ensures SoundSteps(plan) <==>
      StepsOk(plan.steps, |plan.steps|) && AllDependenciesOk(plan.steps, DependencyMap(plan.steps), |plan.steps|)
  {
    var steps, g := plan.steps, DependencyMap(plan.steps);
    if SoundSteps(plan) {
      forall i | 0 <= i < |steps| ensures StepOk(steps[i]) && DependenciesOk(steps[i], g) {
        assert forall d | d in steps[i].dependsOn :: d in g;
      }
    }
    if StepsOk(steps, |steps|) && AllDependenciesOk(steps, g, |steps|) {
      forall i | 0 <= i < |steps| ensures StepOk(steps[i]) && DependenciesOk(steps[i], g) {}
    }
  }

  /** No step needs itself exactly when the graph has no cycle. */
  lemma AcyclicSteps(plan: Plan)
    requires Distinct(Ids(plan.steps)) && Known(DependencyMap(plan.steps))
    ensures Acyclic(DependencyMap(plan.steps)) <==> forall i | 0 <= i < |plan.steps| :: !Reaches(plan, i, i)
  {
    var steps, g := plan.steps, DependencyMap(plan.steps);
    forall i | 0 <= i < |steps| ensures Reaches(plan, i, i) <==> DependsOn(g, steps[i].id, steps[i].id) {
      ReachesIsDependsOn(plan, i, i);
    }
    if x :| DependsOn(g, x, x) {
      var p :| IsChain(g, p) && p[0] == x && p[|p| - 1] == x;
      assert p[0 + 1] in Edges(g, p[0]);
      var i :| 0 <= i < |steps| && steps[i].id == x;
      assert Reaches(plan, i, i);
    }
  }

  lemma OrderedSteps(plan: Plan)
    requires Distinct(Ids(plan.steps)) && Known(DependencyMap(plan.steps))
    ensures AgentsOrdered(plan, DependencyMap(plan.steps)) <==>
      forall i, j | 0 <= i < j < |plan.steps| && plan.steps[i].agent == plan.steps[j].agent ::
        Reaches(plan, i, j) || Reaches(plan, j, i)
  {
    forall i, j | 0 <= i < j < |plan.steps|
      ensures Ordered(DependencyMap(plan.steps), plan.steps[i].id, plan.steps[j].id) <==>
              Reaches(plan, i, j) || Reaches(plan, j, i)
    {
      ReachesIsDependsOn(plan, i, j);
      ReachesIsDependsOn(plan, j, i);
    }
  }

  /**
   A plan is accepted exactly when it has steps, at most maxSteps of them, with unique ids, filled-in fields and
   dependencies on other steps, none needs itself, and of two steps of one agent one needs the other.
  */
  lemma AcceptedMeans(plan: Plan, maxSteps: nat)
    ensures Accepted(plan, maxSteps) <==>
      && 1 <= |plan.steps| <= maxSteps && UniqueIds(plan) && SoundSteps(plan)
      && (forall i | 0 <= i < |plan.steps| :: !Reaches(plan, i, i))
      && (forall i, j | 0 <= i < j < |plan.steps| && plan.steps[i].agent == plan.steps[j].agent ::
            Reaches(plan, i, j) || Reaches(plan, j, i))
  {
    var steps, g := plan.steps, DependencyMap(plan.steps);
    SoundIsOk(plan);
    assert UniqueIds(plan) <==> Distinct(Ids(steps));
    if UniqueIds(plan) && SoundSteps(plan) {
      EveryDependencyKnown(steps);
      AcyclicSteps(plan);
      OrderedSteps(plan);
    }
  }
}

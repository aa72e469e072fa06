/**
 The execution the validator guards: a step starts once all its depends_on are done, in any
 order, any number at once. The same-agent check is exact against every such schedule, and
 every run of an accepted plan finishes.
*/
module PlanScheduler {
  import opened PlanGraph
  import opened PlanValidator

  datatype Schedule = Schedule(running: set<Id>, done: set<Id>)

  datatype Event = Start(id: Id) | Finish(id: Id)

  const IDLE := Schedule({}, {})

  predicate Enabled(g: Dependencies, s: Schedule, e: Event) {
    match e
    case Start(x) => x in g && x !in s.running && x !in s.done && forall d | d in g[x] :: d in s.done
    case Finish(x) => x in s.running
  }

  function Advance(s: Schedule, e: Event): Schedule {
    match e
    case Start(x) => s.(running := s.running + {x})
    case Finish(x) => Schedule(s.running - {x}, s.done + {x})
  }

  predicate Runs(g: Dependencies, s: Schedule, es: seq<Event>, t: Schedule)
    decreases |es|
  {
    if es == [] then t == s
    else Enabled(g, s, es[0]) && Runs(g, Advance(s, es[0]), es[1..], t)
  }

  ghost predicate Reachable(g: Dependencies, s: Schedule) { exists es :: Runs(g, IDLE, es, s) }

  /** Whatever has started has all its dependencies done. */
  ghost predicate Sound(g: Dependencies, s: Schedule) {
    && s.running !! s.done && s.running <= g.Keys && s.done <= g.Keys
    && ClosedUnder(g, s.done) && forall x, d | x in s.running && d in Edges(g, x) :: d in s.done
  }

  lemma {:induction false} RunsSound(g: Dependencies, s: Schedule, es: seq<Event>, t: Schedule)
    requires Sound(g, s) && Runs(g, s, es, t)
    ensures Sound(g, t) && s.done <= t.done && s.running + s.done <= t.running + t.done
    decreases |es|
  {
    if es == [] {
    } else {
      RunsSound(g, Advance(s, es[0]), es[1..], t);
    }
  }

  lemma {:induction false} Append(g: Dependencies, s: Schedule, es: seq<Event>, t: Schedule, e: Event)
    requires Runs(g, s, es, t) && Enabled(g, t, e)
    ensures Runs(g, s, es + [e], Advance(t, e))
    decreases |es|
  {
    if es == [] {
      assert (es + [e])[1..] == [];
    } else {
      Append(g, Advance(s, es[0]), es[1..], t, e);
      assert (es + [e])[1..] == es[1..] + [e];
    }
  }

  lemma ReachableStep(g: Dependencies, s: Schedule, e: Event)
    requires Reachable(g, s) && Enabled(g, s, e)
    ensures Reachable(g, Advance(s, e))
  {
    var es :| Runs(g, IDLE, es, s);
    Append(g, IDLE, es, s, e);
  }

  /** A started step's transitive dependencies are done. */
  lemma StartedNeedsDone(g: Dependencies, s: Schedule, x: Id, y: Id)
    requires Sound(g, s) && x in s.running && DependsOn(g, x, y)
    ensures y in s.done
  {
    var d := FirstEdge(g, x, y);
    if d != y {
      ClosedKeeps(g, s.done, d, y);
    }
  }

  // ---------------------------------------------------------------------
  // The same-agent check is exact
  // ---------------------------------------------------------------------

  /** Some schedule has both steps running at once. */
  ghost predicate CanOverlap(g: Dependencies, x: Id, y: Id) {
    exists s :: Reachable(g, s) && x in s.running && y in s.running
  }

  lemma Missing<T>(a: set<T>, b: set<T>) returns (x: T)
    requires a <= b && a != b
    ensures x in b && x !in a
  {
    assert !(b <= a);
    x :| x in b && x !in a;
  }

  /** Any set of steps closed under dependencies can be run to completion on its own. */
  lemma {:induction false} ClosedSetRuns(g: Dependencies, done: set<Id>, goal: set<Id>)
    requires Acyclic(g) && Known(g) && Reachable(g, Schedule({}, done))
    requires ClosedUnder(g, goal) && done <= goal <= g.Keys
    ensures Reachable(g, Schedule({}, goal))
    decreases goal - done
  {
    if done != goal {
      var x := Missing(done, goal);
      var m := SourceOf(g, goal - done, x);
      forall d | d in g[m] ensures d in done {
        assert d in Edges(g, m);
      }
      ReachableStep(g, Schedule({}, done), Start(m));
      assert Advance(Schedule({}, done), Start(m)) == Schedule({m}, done);
      ReachableStep(g, Schedule({m}, done), Finish(m));
      assert Advance(Schedule({m}, done), Finish(m)) == Schedule({}, done + {m});
      ClosedSetRuns(g, done + {m}, goal);
    }
  }

  /** Everything x needs, as a set closed under dependencies. */
  ghost function Needs(g: Dependencies, x: Id): set<Id>
    requires Known(g)
  {
    set y | y in g && DependsOn(g, x, y)
  }

  lemma NeedsClosed(g: Dependencies, x: Id)
    requires Known(g) && x in g
    ensures ClosedUnder(g, Needs(g, x)) && forall d | d in g[x] :: d in Needs(g, x)
  {
    forall d | d in g[x] ensures d in Needs(g, x) {
      EdgeDepends(g, x, d);
    }
    forall y, d | y in Needs(g, x) && d in Edges(g, y) ensures d in Needs(g, x) {
      EdgeDepends(g, y, d);
      DependsTransitive(g, x, y, d);
    }
  }

  /** Two steps that neither depends on the other run at once in some schedule. */
  lemma UnorderedOverlap(g: Dependencies, x: Id, y: Id)
    requires Acyclic(g) && Known(g) && x in g && y in g && x != y && !Ordered(g, x, y)
    ensures CanOverlap(g, x, y)
  {
    var ready := Needs(g, x) + Needs(g, y);
    NeedsClosed(g, x);
    NeedsClosed(g, y);
    assert Runs(g, IDLE, [], IDLE);
    ClosedSetRuns(g, {}, ready);
    ReachableStep(g, Schedule({}, ready), Start(x));
    assert Advance(Schedule({}, ready), Start(x)) == Schedule({x}, ready);
    ReachableStep(g, Schedule({x}, ready), Start(y));
    var both := Advance(Schedule({x}, ready), Start(y));
    assert x in both.running && y in both.running;
  }

  /** Two steps one of which depends on the other never run at once. */
  lemma OrderedNeverOverlap(g: Dependencies, x: Id, y: Id, s: Schedule)
    requires Reachable(g, s) && Ordered(g, x, y)
    ensures !(x in s.running && y in s.running)
  {
    var es :| Runs(g, IDLE, es, s);
    RunsSound(g, IDLE, es, s);
    if x in s.running && y in s.running {
      if DependsOn(g, x, y) {
        StartedNeedsDone(g, s, x, y);
      } else {
        StartedNeedsDone(g, s, y, x);
      }
    }
  }

  lemma PairIsExact(g: Dependencies, x: Id, y: Id)
    requires Acyclic(g) && Known(g) && x in g && y in g && x != y
    ensures Ordered(g, x, y) <==> !CanOverlap(g, x, y)
  {
    if Ordered(g, x, y) {
      forall s | Reachable(g, s) ensures !(x in s.running && y in s.running) {
        OrderedNeverOverlap(g, x, y, s);
      }
    } else {
      UnorderedOverlap(g, x, y);
    }
  }

  /** In some schedule of the plan two running steps have the same agent. */
  ghost predicate AgentDoubled(plan: Plan) {
    exists i, j :: 0 <= i < j < |plan.steps| && plan.steps[i].agent == plan.steps[j].agent
                   && CanOverlap(DependencyMap(plan.steps), plan.steps[i].id, plan.steps[j].id)
  }

  /**
   For a plan that passes every other check, the same-agent check passes exactly when no schedule
   of the plan ever has two running steps of one agent.
  */
  lemma SameAgentCheckIsExact(plan: Plan)
    requires WellFormed(plan)
    ensures AgentsOrdered(plan, DependencyMap(plan.steps)) <==> !AgentDoubled(plan)
  {
    var steps, g := plan.steps, DependencyMap(plan.steps);
    if AgentsOrdered(plan, g) && AgentDoubled(plan) {
      var i, j :| 0 <= i < j < |steps| && steps[i].agent == steps[j].agent && CanOverlap(g, steps[i].id, steps[j].id);
      StepsOverlapIffUnordered(plan, i, j);
    }
    if !AgentsOrdered(plan, g) {
      var i, j :| 0 <= i < j < |steps| && steps[i].agent == steps[j].agent && !Ordered(g, steps[i].id, steps[j].id);
      StepsOverlapIffUnordered(plan, i, j);
    }
  }

  lemma StepsOverlapIffUnordered(plan: Plan, i: nat, j: nat)
    requires WellFormed(plan) && i < j < |plan.steps|
    ensures var g := DependencyMap(plan.steps);
      CanOverlap(g, plan.steps[i].id, plan.steps[j].id) <==> !Ordered(g, plan.steps[i].id, plan.steps[j].id)
  {
    EveryDependencyKnown(plan.steps);
    assert Ids(plan.steps)[i] != Ids(plan.steps)[j];
    PairIsExact(DependencyMap(plan.steps), plan.steps[i].id, plan.steps[j].id);
  }

  // ---------------------------------------------------------------------
  // Every run of an accepted plan finishes
  // ---------------------------------------------------------------------

  /** Starts and finishes still to come. */
  function Remaining(g: Dependencies, s: Schedule): int { 2 * |g.Keys| - |s.running| - 2 * |s.done| }

  lemma RemainingDrops(g: Dependencies, s: Schedule, e: Event)
    requires Sound(g, s) && Enabled(g, s, e)
    ensures Remaining(g, Advance(s, e)) == Remaining(g, s) - 1
  {}

  lemma RemainingBounds(g: Dependencies, s: Schedule)
    requires Sound(g, s)
    ensures Remaining(g, s) >= 0
    ensures Remaining(g, s) == 0 <==> s == Schedule({}, g.Keys)
  {
    SubsetSize(s.running + s.done, g.Keys);
    assert |s.running + s.done| == |s.running| + |s.done|;
    SubsetSize(s.done, g.Keys);
  }

  lemma SubsetSize<T>(a: set<T>, b: set<T>)
    requires a <= b
    ensures |a| <= |b| && (|a| == |b| ==> a == b)
  {
    assert b == a + (b - a);
    if |a| == |b| {
      assert |b - a| == 0;
    }
  }

  /** Nothing is stuck: while a step is unfinished, one can start or one is running. */
  lemma Progress(g: Dependencies, s: Schedule)
    requires Acyclic(g) && Known(g) && Sound(g, s) && s.done != g.Keys
    ensures exists e :: Enabled(g, s, e)
  {
    if x :| x in s.running {
      assert Enabled(g, s, Finish(x));
    } else {
      var x := Missing(s.done, g.Keys);
      var m := SourceOf(g, g.Keys - s.done, x);
      forall d | d in g[m] ensures d in s.done {
        assert d in Edges(g, m);
      }
      assert Enabled(g, s, Start(m));
    }
  }

  function Count(es: seq<Event>, e: Event): nat { multiset(es)[e] }

  lemma CountFirst(es: seq<Event>, e: Event)
    requires es != []
    ensures Count(es, e) == Count(es[1..], e) + if es[0] == e then 1 else 0
  {
    assert es == [es[0]] + es[1..];
  }

  /** How often the events of a run start and finish a step is read off its two ends. */
  lemma {:induction false} RunCounts(g: Dependencies, s: Schedule, es: seq<Event>, t: Schedule, x: Id)
    requires Sound(g, s) && Runs(g, s, es, t)
    ensures Remaining(g, t) == Remaining(g, s) - |es|
    ensures Count(es, Start(x)) == (if x in t.running + t.done && x !in s.running + s.done then 1 else 0)
    ensures Count(es, Finish(x)) == (if x in t.done && x !in s.done then 1 else 0)
    decreases |es|
  {
    if es == [] {
    } else {
      var s' := Advance(s, es[0]);
      RemainingDrops(g, s, es[0]);
      RunsSound(g, s', es[1..], t);
      RunCounts(g, s', es[1..], t, x);
      CountFirst(es, Start(x));
      CountFirst(es, Finish(x));
    }
  }

  /** In a run, a step starts only after everything it depends on has finished. */
  lemma FinishBeforeStart(g: Dependencies, es: seq<Event>, t: Schedule, i: nat, y: Id)
    requires Runs(g, IDLE, es, t) && i < |es| && es[i].Start? && DependsOn(g, es[i].id, y)
    ensures exists k :: 0 <= k < i && es[k] == Finish(y)
  {
    var s := Split(g, IDLE, es, t, i);
    RunsSound(g, IDLE, es[..i], s);
    var d := FirstEdge(g, es[i].id, y);
    if d != y {
      ClosedKeeps(g, s.done, d, y);
    }
    RunCounts(g, IDLE, es[..i], s, y);
    assert Finish(y) in multiset(es[..i]);
    assert Finish(y) in es[..i];
  }

  lemma {:induction false} Split(g: Dependencies, s: Schedule, es: seq<Event>, t: Schedule, i: nat)
      returns (m: Schedule)
    requires Runs(g, s, es, t) && i < |es|
    ensures Runs(g, s, es[..i], m) && Enabled(g, m, es[i])
    decreases |es|
  {
    if i == 0 {
      m := s;
    } else {
      m := Split(g, Advance(s, es[0]), es[1..], t, i - 1);
      assert es[1..][..i - 1] == es[..i][1..];
    }
  }

  /** Well-formed plans: as many keys as steps. */
  lemma KeysOf(plan: Plan)
    requires WellFormed(plan)
    ensures Known(DependencyMap(plan.steps)) && |DependencyMap(plan.steps).Keys| == |plan.steps|
  {
    EveryDependencyKnown(plan.steps);
    DistinctIffSameSize(Ids(plan.steps));
  }

  /** No run is longer than two events a step. */
  lemma RunsAreShort(plan: Plan, es: seq<Event>, t: Schedule)
    requires WellFormed(plan) && Runs(DependencyMap(plan.steps), IDLE, es, t)
    ensures |es| <= 2 * |plan.steps|
  {
    var g := DependencyMap(plan.steps);
    KeysOf(plan);
    RunsSound(g, IDLE, es, t);
    RunCounts(g, IDLE, es, t, "");
    RemainingBounds(g, t);
  }

  lemma StuckIsDone(g: Dependencies, t: Schedule)
    requires Acyclic(g) && Known(g) && Sound(g, t) && forall e :: !Enabled(g, t, e)
    ensures t == Schedule({}, g.Keys)
  {
    if t.done != g.Keys {
      Progress(g, t);
    }
    assert forall x :: x in t.running ==> Enabled(g, t, Finish(x));
  }

  /** A run that cannot go on has started and finished every step exactly once, and nothing is left. */
  lemma EveryRunFinishes(plan: Plan, es: seq<Event>, t: Schedule)
    requires WellFormed(plan) && Runs(DependencyMap(plan.steps), IDLE, es, t)
    requires forall e :: !Enabled(DependencyMap(plan.steps), t, e)
    ensures t == Schedule({}, DependencyMap(plan.steps).Keys) && |es| == 2 * |plan.steps|
    ensures forall x | x in DependencyMap(plan.steps) :: Count(es, Start(x)) == 1 && Count(es, Finish(x)) == 1
  {
    var g := DependencyMap(plan.steps);
    KeysOf(plan);
    RunsSound(g, IDLE, es, t);
    StuckIsDone(g, t);
    RunCounts(g, IDLE, es, t, "");
    forall x | x in g ensures Count(es, Start(x)) == 1 && Count(es, Finish(x)) == 1 {
      RunCounts(g, IDLE, es, t, x);
    }
  }

  // ---------------------------------------------------------------------
  // Schedules in terms of the plan's own steps
  // ---------------------------------------------------------------------

  /** e may come next: a step not started yet all of whose own depends_on have finished, or a started one. */
  ghost predicate Next(plan: Plan, before: seq<Event>, e: Event) {
    match e
    case Start(x) =>
      && Start(x) !in before
      && exists i :: 0 <= i < |plan.steps| && plan.steps[i].id == x
                     && forall d | d in plan.steps[i].dependsOn :: Finish(d) in before
    case Finish(x) => Start(x) in before && Finish(x) !in before
  }

  ghost predicate InPlanOrder(plan: Plan, es: seq<Event>) { forall k | 0 <= k < |es| :: Next(plan, es[..k], es[k]) }

  /** What has started and not finished, and what has finished. */
  function After(es: seq<Event>): Schedule {
    Schedule(set e | e in es && e.Start? && Finish(e.id) !in es :: e.id, set e | e in es && e.Finish? :: e.id)
  }

  lemma AfterHas(es: seq<Event>, x: Id)
    ensures x in After(es).running <==> Start(x) in es && Finish(x) !in es
    ensures x in After(es).done <==> Finish(x) in es
  {
    if Start(x) in es && Finish(x) !in es {
      assert Start(x).id == x;
    }
    if Finish(x) in es {
      assert Finish(x).id == x;
    }
  }

  /** A finished step has been started. */
  ghost predicate StartedFirst(es: seq<Event>) { forall x | Finish(x) in es :: Start(x) in es }

  /** The listed dependencies of a step are what the scheduler waits for. */
  lemma EnabledIffNext(plan: Plan, es: seq<Event>, e: Event)
    requires WellFormed(plan) && StartedFirst(es)
    ensures Enabled(DependencyMap(plan.steps), After(es), e) <==> Next(plan, es, e)
  {
    var g, x := DependencyMap(plan.steps), e.id;
    AfterHas(es, x);
    if e.Start? && x in g {
      var i :| 0 <= i < |plan.steps| && plan.steps[i].id == x;
      OwnDependencies(plan.steps, i);
      forall d | d in g[x] ensures d in After(es).done <==> Finish(d) in es {
        AfterHas(es, d);
      }
      forall j | 0 <= j < |plan.steps| && plan.steps[j].id == x ensures plan.steps[j].dependsOn == g[x] {
        OwnDependencies(plan.steps, j);
      }
    }
  }

  lemma AfterNext(plan: Plan, es: seq<Event>, e: Event)
    requires StartedFirst(es) && Next(plan, es, e)
    ensures After(es + [e]) == Advance(After(es), e) && StartedFirst(es + [e])
  {
    var t, u := After(es + [e]), Advance(After(es), e);
    forall x ensures (x in t.running <==> x in u.running) && (x in t.done <==> x in u.done) {
      AfterHas(es, x);
      AfterHas(es + [e], x);
    }
    assert t.running == u.running && t.done == u.done;
  }

  lemma {:induction false} LastEvent(g: Dependencies, s: Schedule, es: seq<Event>, t: Schedule) returns (m: Schedule)
    requires es != [] && Runs(g, s, es, t)
    ensures Runs(g, s, es[..|es| - 1], m) && Enabled(g, m, es[|es| - 1]) && t == Advance(m, es[|es| - 1])
    decreases |es|
  {
    if |es| == 1 {
      m := s;
      assert es[1..] == [];
    } else {
      m := LastEvent(g, Advance(s, es[0]), es[1..], t);
      assert es[1..][..|es| - 2] == es[..|es| - 1][1..];
    }
  }

  lemma InPlanOrderLast(plan: Plan, es: seq<Event>)
    requires es != []
    ensures var n := |es| - 1; InPlanOrder(plan, es) <==> InPlanOrder(plan, es[..n]) && Next(plan, es[..n], es[n])
  {
    var n := |es| - 1;
    assert forall k | 0 <= k < n :: es[..n][..k] == es[..k];
    assert forall k | 0 <= k < n :: es[..n][k] == es[k];
  }

  /**
   The runs of a plan are exactly the sequences of starts and finishes in which every step starts at most once,
   after all it lists in depends_on has finished, and finishes at most once, after it started.
  */
  lemma {:induction false} RunsAreInPlanOrder(plan: Plan, es: seq<Event>, t: Schedule)
    requires WellFormed(plan)
    ensures Runs(DependencyMap(plan.steps), IDLE, es, t) <==> InPlanOrder(plan, es) && t == After(es)
    ensures InPlanOrder(plan, es) ==> StartedFirst(es)
    decreases |es|
  {
    var g := DependencyMap(plan.steps);
    if es == [] {
    } else {
      var n := |es| - 1;
      var front, e := es[..n], es[n];
      assert es == front + [e];
      InPlanOrderLast(plan, es);
      RunsAreInPlanOrder(plan, front, After(front));
      if InPlanOrder(plan, front) {
        EnabledIffNext(plan, front, e);
      }
      if Runs(g, IDLE, es, t) {
        var m := LastEvent(g, IDLE, es, t);
        RunsAreInPlanOrder(plan, front, m);
        AfterNext(plan, front, e);
      } else if InPlanOrder(plan, es) {
        Append(g, IDLE, front, After(front), e);
      }
      if InPlanOrder(plan, es) {
        AfterNext(plan, front, e);
      }
    }
  }
}

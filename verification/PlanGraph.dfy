/** Execution plans, and what it means for one step to depend on another. */
module PlanGraph {
  type Id = string

  datatype Step = Step(id: Id, agent: string, instruction: string, dependsOn: seq<Id>, stage: int)

  datatype Mode = Sequential | Parallel | Hybrid

  datatype Plan = Plan(mode: Mode, steps: seq<Step>)

  /** {step.id: step.depends_on}: a repeated id keeps its last step. */
  type Dependencies = map<Id, seq<Id>>

  function DependencyMap(steps: seq<Step>): (g: Dependencies)
    ensures forall id :: id in g <==> exists i :: 0 <= i < |steps| && steps[i].id == id
  {
    if steps == [] then map[]
    else
      var last := steps[|steps| - 1];
      DependencyMap(steps[..|steps| - 1])[last.id := last.dependsOn]
  }

  function Edges(g: Dependencies, x: Id): seq<Id> { if x in g then g[x] else [] }

  /** A chain of one or more depends_on edges. */
  ghost predicate IsChain(g: Dependencies, p: seq<Id>) {
    |p| >= 2 && forall i | 0 <= i < |p| - 1 :: p[i + 1] in Edges(g, p[i])
  }

  /** x depends on y, directly or transitively. */
  ghost predicate DependsOn(g: Dependencies, x: Id, y: Id) {
    exists p :: IsChain(g, p) && p[0] == x && p[|p| - 1] == y
  }

  ghost predicate Acyclic(g: Dependencies) { forall x :: !DependsOn(g, x, x) }

  /** Every dependency is itself a step. */
  ghost predicate Known(g: Dependencies) { forall x, d | x in g && d in g[x] :: d in g }

  /** Leaving S along a depends_on edge is impossible. */
  ghost predicate ClosedUnder(g: Dependencies, S: set<Id>) { forall x, d | x in S && d in Edges(g, x) :: d in S }

  lemma EdgeDepends(g: Dependencies, x: Id, y: Id)
    requires y in Edges(g, x)
    ensures DependsOn(g, x, y)
  {
    assert IsChain(g, [x, y]);
  }

  lemma DependsTransitive(g: Dependencies, x: Id, y: Id, z: Id)
    requires DependsOn(g, x, y) && DependsOn(g, y, z)
    ensures DependsOn(g, x, z)
  {
    var p :| IsChain(g, p) && p[0] == x && p[|p| - 1] == y;
    var q :| IsChain(g, q) && q[0] == y && q[|q| - 1] == z;
    var r := p + q[1..];
    forall i | 0 <= i < |r| - 1 ensures r[i + 1] in Edges(g, r[i]) {
      if i >= |p| - 1 {
        assert r[i] == q[i - |p| + 1] && r[i + 1] == q[i - |p| + 2];
      }
    }
    assert IsChain(g, r);
  }

  /** Every dependency begins with an edge. */
  lemma FirstEdge(g: Dependencies, x: Id, y: Id) returns (d: Id)
    requires DependsOn(g, x, y)
    ensures d in Edges(g, x) && (d == y || DependsOn(g, d, y))
  {
    var p :| IsChain(g, p) && p[0] == x && p[|p| - 1] == y;
    d := p[1];
    if |p| > 2 {
      assert IsChain(g, p[1..]);
    }
  }

  lemma {:induction false} ClosedKeeps(g: Dependencies, S: set<Id>, x: Id, y: Id)
    requires ClosedUnder(g, S) && x in S && DependsOn(g, x, y)
    ensures y in S
  {
    var p :| IsChain(g, p) && p[0] == x && p[|p| - 1] == y;
    ChainStays(g, S, p, |p| - 1);
  }

  lemma {:induction false} ChainStays(g: Dependencies, S: set<Id>, p: seq<Id>, i: nat)
    requires ClosedUnder(g, S) && IsChain(g, p) && p[0] in S && i < |p|
    ensures p[i] in S
  {
    if i > 0 {
      ChainStays(g, S, p, i - 1);
      assert p[i - 1 + 1] in Edges(g, p[i - 1]);
    }
  }

  /** In an acyclic graph every non-empty set of steps has one that needs none of the others. */
  lemma {:induction false} SourceOf(g: Dependencies, S: set<Id>, x: Id) returns (m: Id)
    requires Acyclic(g) && x in S
    ensures m in S && forall d | d in Edges(g, m) :: d !in S
    decreases S
  {
    if d :| d in Edges(g, x) && d in S {
      var T := set z | z in S && DependsOn(g, x, z);
      EdgeDepends(g, x, d);
      m := SourceOf(g, T, d);
      forall z | z in Edges(g, m) ensures z !in S {
        EdgeDepends(g, m, z);
        DependsTransitive(g, x, m, z);
      }
    } else {
      m := x;
    }
  }
}

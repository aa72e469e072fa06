/** What the quota check does with the estimate of a prompt: which calls it admits, and the overshoot that leaves. */
module TokenEstimates {
  import opened Common
  import opened TokenUsage

  // ---------------------------------------------------------------------
  // Which calls are admitted
  // ---------------------------------------------------------------------

  lemma {:induction false} UsedIsTally(t: State, es: seq<Event>, u: State)
    requires t.budget.Some? && t.budget.value.used == t.tally.total && Runs(t, es, u)
    ensures u.budget.Some? && u.budget.value.used == u.tally.total && u.budget.value.quota == t.budget.value.quota
    decreases |es|
  {
    if es == [] {
    } else {
      UsedIsTallied(t, es[0]);
      UsedIsTally(Step(t, es[0]), es[1..], u);
    }
  }

  /**
   Until the request's first refusal a check lets a call through exactly when what the closed scopes used, what its
   own scope used and the estimate of its prompt together stay within the quota; the refusal says all three.
  */
  lemma AdmittedIffWithinQuota(t: State, es: seq<Event>, u: State, s: Scope, call: Call, requested: nat)
    requires Initial(t) && t.budget.Some? && Runs(t, es, u) && Enabled(u, Check(s, call, requested))
    requires u.budget.Some? && u.budget.value.refused.None?
    ensures var v, quota := Step(u, Check(s, call, requested)), t.budget.value.quota;
            var used := u.tally.total + MeterOf(u, s).counts.total;
      && (call in v.inFlight <==> used + requested <= quota)
      && v.budget.Some?
      && v.budget.value.refused == if used + requested <= quota then None else Some(Refusal(quota, used, requested))
  {
    UsedIsTally(t, es, u);
    OneRefusalRuns(t, es, u);
  }

  // ---------------------------------------------------------------------
  // The overshoot beyond the estimates
  // ---------------------------------------------------------------------

  /** The estimates of the calls let through so far. */
  ghost function AskedAfter(t: State, asked: map<Call, nat>, e: Event): map<Call, nat>
    requires Enabled(t, e)
  {
    if Admits(t, e) then asked[e.call := e.requested] else asked
  }

  /**
   One scope at a time, at most p calls between their check and their record, and each call's total at most its
   own estimate and o more. With calls in parallel no estimate passes most.
  */
  ghost predicate Estimated(t: State, asked: map<Call, nat>, es: seq<Event>, p: nat, most: nat, o: nat)
    decreases |es|
  {
    && |t.open| <= 1 && |t.inFlight| <= p
    && (es != [] ==>
          && Enabled(t, es[0]) && Fits(asked, es[0], p, most, o)
          && Estimated(Step(t, es[0]), AskedAfter(t, asked, es[0]), es[1..], p, most, o))
  }

  ghost predicate Fits(asked: map<Call, nat>, e: Event, p: nat, most: nat, o: nat) {
    match e
    case Check(_, _, requested) => p > 1 ==> requested <= most
    case Record(call, usage) => call in asked ==> usage.total <= asked[call] + o
    case _ => true
  }

  /** The calls in flight whose scope is open. */
  ghost function Live(t: State): set<Call> { CallsOf(t.inFlight, t.open.Keys) }

  /** The estimates of live calls are known, and bounded where there can be several. */
  ghost predicate AsksKnown(t: State, asked: map<Call, nat>, p: nat, most: nat) {
    forall c | c in Live(t) :: c in asked && (p > 1 ==> asked[c] <= most)
  }

  /** c is yet to add its estimate and o, and each other live call at most most + o. */
  ghost predicate Room(t: State, asked: map<Call, nat>, c: Call, most: nat, o: nat, bound: nat)
    requires t.budget.Some?
  {
    && c in Live(t) && c in asked
    && Visible(t) + asked[c] + o + (|Live(t)| - 1) * (most + o) <= bound
  }

  ghost predicate Within(t: State, asked: map<Call, nat>, most: nat, o: nat, bound: nat)
    requires t.budget.Some?
  {
    && (Live(t) == {} ==> Visible(t) <= bound)
    && (Live(t) != {} ==> exists c :: Room(t, asked, c, most, o, bound))
  }

  /** What can be recorded in all: the quota, o, and p - 1 calls that passed the check together. */
  function Bound(quota: nat, p: nat, most: nat, o: nat): nat
    requires p >= 1
  {
    quota + o + (p - 1) * (most + o)
  }

  ghost predicate EstimateInv(t: State, asked: map<Call, nat>, p: nat, most: nat, o: nat)
    requires p >= 1
  {
    && t.budget.Some? && Accounted(t, Total) && t.budget.value.used == t.tally.total
    && AsksKnown(t, asked, p, most)
    && Within(t, asked, most, o, Bound(t.budget.value.quota, p, most, o))
  }

  lemma WithinBound(t: State, asked: map<Call, nat>, most: nat, o: nat, bound: nat)
    requires t.budget.Some? && Within(t, asked, most, o, bound)
    ensures Visible(t) <= bound
  {
    if c :| Room(t, asked, c, most, o, bound) {
      assert {c} <= Live(t) && |{c}| <= |Live(t)| by {
        assert Live(t) == {c} + (Live(t) - {c});
      }
      Scale(0, |Live(t)| - 1, most + o);
    }
  }

  /** With one scope open, what a check sees is all that is visible. */
  lemma OwnIsAll(t: State, s: Scope)
    requires Numbered(t) && s in t.open && |t.open| <= 1
    ensures Outstanding(t, Total) <= t.open[s].counts.total
  {
    assert t.open.Keys == {s} by {
      assert {s} <= t.open.Keys && |t.open.Keys - {s}| == |t.open.Keys| - 1;
    }
    OthersBound(t, s, t.open[s].counts.total);
  }

  lemma AdmittedWithRequest(t: State, e: Event)
    requires t.budget.Some? && Enabled(t, e) && Admits(t, e) && e.s in t.open
    ensures t.budget.value.used + t.open[e.s].counts.total + e.requested <= t.budget.value.quota
  {}

  /** A call that fits the quota beside all that is visible leaves room for everything in flight. */
  lemma AdmitRoom(u: State, asked: map<Call, nat>, c: Call, quota: nat, p: nat, most: nat, o: nat)
    requires p >= 1 && u.budget.Some? && c in Live(u) && c in asked && |Live(u)| <= p
    requires Visible(u) + asked[c] <= quota
    ensures Within(u, asked, most, o, Bound(quota, p, most, o))
  {
    assert |Live(u)| >= 1 by {
      assert Live(u) == {c} + (Live(u) - {c});
    }
    Scale(|Live(u)| - 1, p - 1, most + o);
    assert Room(u, asked, c, most, o, Bound(quota, p, most, o));
  }

  /** A call of the open scope is let through. */
  lemma AdmitKeeps(t: State, asked: map<Call, nat>, e: Event, p: nat, most: nat, o: nat)
    requires p >= 1 && t.budget.Some? && Numbered(t) && Enabled(t, e) && Admits(t, e) && e.s in t.open
    requires |t.open| <= 1 && |Step(t, e).inFlight| <= p && Step(t, e).budget.Some?
    requires Visible(Step(t, e)) == Visible(t) && Live(Step(t, e)) == Live(t) + {e.call}
    ensures Within(Step(t, e), asked[e.call := e.requested], most, o, Bound(t.budget.value.quota, p, most, o))
  {
    var u := Step(t, e);
    OwnIsAll(t, e.s);
    CallsWithin(u.inFlight, u.open.Keys);
    AdmittedWithRequest(t, e);
    AdmitRoom(u, asked[e.call := e.requested], e.call, t.budget.value.quota, p, most, o);
  }

  /** A live call is recorded or fails: the others keep their room. */
  lemma LeaveKeeps(t: State, u: State, asked: map<Call, nat>, c: Call, added: nat, p: nat, most: nat, o: nat,
                   bound: nat)
    requires t.budget.Some? && u.budget.Some? && Within(t, asked, most, o, bound)
    requires AsksKnown(t, asked, p, most) && c in Live(t) && |Live(t)| <= p && added <= asked[c] + o
    requires Live(u) == Live(t) - {c} && Visible(u) == Visible(t) + added
    ensures Within(u, asked, most, o, bound)
  {
    var first :| Room(t, asked, first, most, o, bound);
    var n := |Live(t)|;
    assert |Live(u)| == n - 1;
    if Live(u) != {} {
      var next := first;
      if first == c {
        next :| next in Live(u);
      }
      assert |Live(u)| >= 1 by {
        assert Live(u) == {next} + (Live(u) - {next});
      }
      Distribute(n - 2, most + o);
      assert asked[c] <= most && asked[next] <= most;
      assert Room(u, asked, next, most, o, bound);
    } else {
      Scale(0, n - 1, most + o);
      assert first == c;
    }
  }

  lemma CallsWith(inFlight: map<Call, Scope>, call: Call, s: Scope, scopes: set<Scope>)
    requires call !in inFlight
    ensures CallsOf(inFlight[call := s], scopes) == CallsOf(inFlight, scopes) + if s in scopes then {call} else {}
  {}

  lemma CallsWithout(inFlight: map<Call, Scope>, call: Call, scopes: set<Scope>)
    requires call in inFlight
    ensures CallsOf(inFlight - {call}, scopes) ==
            CallsOf(inFlight, scopes) - if inFlight[call] in scopes then {call} else {}
  {}

  /** How a call's events change the live calls. */
  lemma LiveAfterCall(t: State, e: Event)
    requires Enabled(t, e) && !e.Open? && !e.Close?
    ensures Live(Step(t, e)) ==
      if Admits(t, e) && e.s in t.open then Live(t) + {e.call}
      else if (e.Record? || e.Fail?) && t.inFlight[e.call] in t.open then Live(t) - {e.call}
      else Live(t)
  {
    InFlightAfter(t, e);
    OpenAfter(t, e);
    if Admits(t, e) {
      CallsWith(t.inFlight, e.call, e.s, t.open.Keys);
    } else if e.Record? || e.Fail? {
      CallsWithout(t.inFlight, e.call, t.open.Keys);
    }
  }

  /** With one scope at a time, none is live when one has just opened or closed. */
  lemma LiveAfterScope(t: State, e: Event)
    requires Numbered(t) && Enabled(t, e) && (e.Open? || e.Close?) && |t.open| <= 1 && |Step(t, e).open| <= 1
    ensures Live(Step(t, e)) == {}
  {
    InFlightAfter(t, e);
    OpenAfter(t, e);
    if e.Open? {
      assert |t.open.Keys + {t.next}| == |t.open.Keys| + 1;
      assert t.open.Keys == {};
    } else {
      assert |t.open.Keys - {e.s}| == |t.open.Keys| - 1;
      assert t.open.Keys - {e.s} == {};
    }
  }

  lemma EstimateKept(t: State, asked: map<Call, nat>, e: Event, p: nat, most: nat, o: nat)
    requires p >= 1 && EstimateInv(t, asked, p, most, o) && Enabled(t, e) && Fits(asked, e, p, most, o)
    requires |t.open| <= 1 && |t.inFlight| <= p && |Step(t, e).open| <= 1 && |Step(t, e).inFlight| <= p
    requires Step(t, e).budget.Some?
    ensures Within(Step(t, e), AskedAfter(t, asked, e), most, o, Bound(t.budget.value.quota, p, most, o))
  {
    var u, bound := Step(t, e), Bound(t.budget.value.quota, p, most, o);
    VisibleChange(t, e);
    CallsWithin(t.inFlight, t.open.Keys);
    if e.Open? || e.Close? {
      LiveAfterScope(t, e);
      WithinBound(t, asked, most, o, bound);
      return;
    }
    LiveAfterCall(t, e);
    if Admits(t, e) && e.s in t.open {
      AdmitKeeps(t, asked, e, p, most, o);
    } else if (e.Record? || e.Fail?) && t.inFlight[e.call] in t.open {
      LeaveKeeps(t, u, asked, e.call, if e.Record? then e.usage.total else 0, p, most, o, bound);
    } else {
      SameRoom(t, u, asked, AskedAfter(t, asked, e), most, o, bound);
    }
  }

  lemma SameRoom(t: State, u: State, asked: map<Call, nat>, asked': map<Call, nat>, most: nat, o: nat, bound: nat)
    requires t.budget.Some? && u.budget.Some? && Within(t, asked, most, o, bound)
    requires Live(u) == Live(t) && Visible(u) == Visible(t)
    requires forall c | c in Live(t) && c in asked :: c in asked' && asked'[c] == asked[c]
    ensures Within(u, asked', most, o, bound)
  {
    if c :| Room(t, asked, c, most, o, bound) {
      assert Room(u, asked', c, most, o, bound);
    }
  }

  lemma EstimateStep(t: State, asked: map<Call, nat>, e: Event, p: nat, most: nat, o: nat)
    requires p >= 1 && EstimateInv(t, asked, p, most, o) && Enabled(t, e) && Fits(asked, e, p, most, o)
    requires |t.open| <= 1 && |t.inFlight| <= p && |Step(t, e).open| <= 1 && |Step(t, e).inFlight| <= p
    ensures EstimateInv(Step(t, e), AskedAfter(t, asked, e), p, most, o)
    ensures Step(t, e).budget.value.quota == t.budget.value.quota
  {
    UsedIsTallied(t, e);
    AccountedStep(t, e, Total);
    if e.Open? || e.Close? {
      LiveAfterScope(t, e);
    } else {
      LiveAfterCall(t, e);
    }
    EstimateKept(t, asked, e, p, most, o);
  }

  lemma {:induction false} EstimateRuns(t: State, asked: map<Call, nat>, es: seq<Event>, u: State,
                                        p: nat, most: nat, o: nat)
    requires p >= 1 && EstimateInv(t, asked, p, most, o) && Runs(t, es, u) && Estimated(t, asked, es, p, most, o)
    ensures t.budget.Some? && u.budget.Some? && Accounted(u, Total) && u.budget.value.used == u.tally.total
    ensures Visible(u) <= Bound(t.budget.value.quota, p, most, o)
    decreases |es|
  {
    if es == [] {
      WithinBound(t, asked, most, o, Bound(t.budget.value.quota, p, most, o));
    } else {
      EstimateStep(t, asked, es[0], p, most, o);
      EstimateRuns(Step(t, es[0]), AskedAfter(t, asked, es[0]), es[1..], u, p, most, o);
    }
  }

  /**
   The overshoot check() promises. With one scope at a time, p calls between check and record, and every call's
   total at most its own estimate and o more, a request records at most its quota, o, and what p - 1 further calls
   that passed the check together may use, besides late calls.
  */
  lemma EstimatedOvershoot(t: State, es: seq<Event>, u: State, p: nat, most: nat, o: nat)
    requires p >= 1 && Initial(t) && t.budget.Some? && Runs(t, es, u) && Estimated(t, map[], es, p, most, o)
    ensures u.recorded.total <= t.budget.value.quota + o + (p - 1) * (most + o) + u.late.total
  {
    InitialAccounted(t, Total);
    assert Live(t) == {};
    Scale(0, p - 1, most + o);
    EstimateRuns(t, map[], es, u, p, most, o);
  }

  /** With one call in flight at a time: the quota and one call's output, whatever the estimates are. */
  lemma OneCallOvershoot(t: State, es: seq<Event>, u: State, o: nat)
    requires Initial(t) && t.budget.Some? && Runs(t, es, u) && Estimated(t, map[], es, 1, 0, o)
    ensures u.recorded.total <= t.budget.value.quota + o + u.late.total
  {
    EstimatedOvershoot(t, es, u, 1, 0, o);
  }

  /** And a single call can go that far: a prompt that fills the quota, and o tokens of answer. */
  lemma OneCallOvershootReached(t: State, o: nat) returns (es: seq<Event>, u: State)
    requires Initial(t) && t.budget.Some?
    ensures Runs(t, es, u) && Estimated(t, map[], es, 1, 0, o) && u.late == ZERO
    ensures u.recorded.total == t.budget.value.quota + o
  {
    var quota := t.budget.value.quota;
    var check, record := Check(0, 0, quota), Record(0, Counts(quota, o, quota + o, 1));
    var a := Step(t, Open);
    var b := Step(a, check);
    u := Step(b, record);
    es := [Open, check, record];
    assert b.inFlight == map[0 := 0] && u.inFlight == map[];
    assert es[1..] == [check, record] && [check, record][1..] == [record] && [record][1..] == [];
    assert Runs(b, [record], u) && Runs(a, [check, record], u);
    assert Estimated(u, map[0 := quota], [], 1, 0, o) && Estimated(b, map[0 := quota], [record], 1, 0, o);
    assert Estimated(a, map[], [check, record], 1, 0, o);
  }
}

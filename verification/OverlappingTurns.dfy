/**
 Turns of one conversation that overlap. A turn loads the conversation, fetches its events, waits for the model
 and writes summary and boundary together; other turns load, write and append events in between.
*/
module OverlappingTurns {
  import opened Common
  import opened HistoryFolding

  type Turn = nat

  /** What a running turn goes on with: the summary, boundary and folds it loaded, or those it is going to write. */
  datatype Stage = Loaded(state: State) | Summarized(state: State, writes: bool)

  datatype System = System(row: State, turns: map<Turn, Stage>)

  datatype Action =
    | Arrive(event: Event)
    | Load(turn: Turn)
    | Fold(turn: Turn, summary: Option<string>)  // the events are fetched and the model asked; None when it fails
    | Write(turn: Turn)
    | Abandon(turn: Turn)                        // the turn is rolled back

  const NEW := System(EMPTY, map[])

  predicate Enabled(s: System, a: Action) {
    match a
    case Arrive(e) => s.row.events != [] ==> s.row.events[|s.row.events| - 1].createdAt <= e.createdAt
    case Load(t) => t !in s.turns
    case Fold(t, _) => t in s.turns && s.turns[t].Loaded?
    case Write(t) => t in s.turns && s.turns[t].Summarized?
    case Abandon(t) => t in s.turns
  }

  function WithEvent(stage: Stage, e: Event): Stage { stage.(state := Appended(stage.state, e)) }

  /** A turn folds on what it loaded, whatever the row says by then. */
  ghost function AfterFold(s: State, summary: Option<string>): Stage {
    Summarized(Ensured(s, summary), Folds(s, summary))
  }

  ghost function Step(s: System, a: Action): System
    requires Enabled(s, a)
  {
    match a
    case Arrive(e) => System(Appended(s.row, e), map t | t in s.turns :: WithEvent(s.turns[t], e))
    case Load(t) => s.(turns := s.turns[t := Loaded(s.row)])
    case Fold(t, summary) => s.(turns := s.turns[t := AfterFold(s.turns[t].state, summary)])
    case Write(t) => System(if s.turns[t].writes then s.turns[t].state else s.row, s.turns - {t})
    case Abandon(t) => s.(turns := s.turns - {t})
  }

  ghost predicate Runs(s: System, actions: seq<Action>, u: System)
    decreases |actions|
  {
    if actions == [] then u == s
    else Enabled(s, actions[0]) && Runs(Step(s, actions[0]), actions[1..], u)
  }

  /** This fold is successful, and its turn's view of the conversation was not clean. */
  ghost predicate Spoils(s: System, a: Action)
    requires Enabled(s, a)
  {
    a.Fold? && Folds(s.turns[a.turn].state, a.summary) && !Clean(s.turns[a.turn].state)
  }

  /** Every successful fold was clean. */
  ghost predicate CleanRun(s: System, actions: seq<Action>)
    decreases |actions|
  {
    actions == [] ||
    (Enabled(s, actions[0]) && !Spoils(s, actions[0]) && CleanRun(Step(s, actions[0]), actions[1..]))
  }

  /** From every state of the run on, however it goes on with clean folds, the row has lost nothing. */
  ghost predicate StaysLossless(s: System, actions: seq<Action>)
    decreases |actions|
  {
    && (forall more, u | Runs(s, more, u) && CleanRun(s, more) :: Lossless(u.row))
    && (actions == [] || (Enabled(s, actions[0]) && StaysLossless(Step(s, actions[0]), actions[1..])))
  }

  ghost predicate Whole(s: State, events: seq<Event>) { s.events == events && Inv(s) && Lossless(s) }

  /** The row, and whatever a turn may still write, has lost nothing. */
  ghost predicate AllWhole(s: System) {
    Whole(s.row, s.row.events) && forall t | t in s.turns :: Whole(s.turns[t].state, s.row.events)
  }

  lemma WholeAppend(s: State, events: seq<Event>, e: Event)
    requires Whole(s, events) && (events != [] ==> events[|events| - 1].createdAt <= e.createdAt)
    ensures Whole(Appended(s, e), events + [e])
  {
    AppendStep(s, e);
  }

  lemma WholeFold(s: State, events: seq<Event>, summary: Option<string>)
    requires Whole(s, events) && (Folds(s, summary) ==> Clean(s))
    ensures Whole(Ensured(s, summary), events)
  {
    if Folds(s, summary) {
      FoldStep(s, summary);
    }
  }

  lemma WholeArrival(s: System, e: Event)
    requires AllWhole(s) && Enabled(s, Arrive(e))
    ensures AllWhole(Step(s, Arrive(e)))
  {
    var u := Step(s, Arrive(e));
    WholeAppend(s.row, s.row.events, e);
    forall t | t in u.turns ensures Whole(u.turns[t].state, u.row.events) {
      WholeAppend(s.turns[t].state, s.row.events, e);
    }
  }

  lemma WholeStep(s: System, a: Action)
    requires AllWhole(s) && Enabled(s, a) && !Spoils(s, a)
    ensures AllWhole(Step(s, a))
  {
    match a
    case Arrive(e) => WholeArrival(s, e);
    case Fold(t, summary) => WholeFold(s.turns[t].state, s.row.events, summary);
    case _ =>
  }

  lemma {:induction false} WholeRuns(s: System, actions: seq<Action>, u: System)
    requires AllWhole(s) && Runs(s, actions, u) && CleanRun(s, actions)
    ensures AllWhole(u)
    decreases |actions|
  {
    if actions == [] {
    } else {
      WholeStep(s, actions[0]);
      WholeRuns(Step(s, actions[0]), actions[1..], u);
    }
  }

  lemma {:induction false} CleanStaysLossless(s: System, actions: seq<Action>, u: System)
    requires AllWhole(s) && Runs(s, actions, u) && CleanRun(s, actions)
    ensures StaysLossless(s, actions)
    decreases |actions|
  {
    forall more, v | Runs(s, more, v) && CleanRun(s, more) ensures Lossless(v.row) {
      WholeRuns(s, more, v);
    }
    if actions == [] {
    } else {
      WholeStep(s, actions[0]);
      CleanStaysLossless(Step(s, actions[0]), actions[1..], u);
    }
  }

  /** A fold that was not clean loses something as soon as its turn writes. */
  lemma SpoiledWriteLoses(s: System, a: Action)
    requires AllWhole(s) && Enabled(s, a) && Spoils(s, a)
    ensures var s' := Step(s, a);
      Enabled(s', Write(a.turn)) && !Lossless(Step(s', Write(a.turn)).row)
  {
    FoldStep(s.turns[a.turn].state, a.summary);
  }

  lemma {:induction false} LosslessOnlyIfClean(s: System, actions: seq<Action>, u: System)
    requires AllWhole(s) && Runs(s, actions, u) && StaysLossless(s, actions)
    ensures CleanRun(s, actions)
    decreases |actions|
  {
    if actions == [] {
    } else {
      var a := actions[0];
      var s' := Step(s, a);
      if Spoils(s, a) {
        SpoiledWriteLoses(s, a);
        var more := [Write(a.turn)];
        assert more[1..] == [] && Runs(s', more, Step(s', more[0])) && CleanRun(s', more);
        assert false;
      }
      WholeStep(s, a);
      LosslessOnlyIfClean(s', actions[1..], u);
    }
  }

  /**
   However turns overlap, nothing is lost, now or later, exactly when every successful fold was clean. A turn that
   writes over another's summary puts back an older boundary with the summary that belongs to it.
  */
  lemma OverlapLosesNothingIffClean(actions: seq<Action>, u: System)
    requires Runs(NEW, actions, u)
    ensures StaysLossless(NEW, actions) <==> CleanRun(NEW, actions)
  {
    assert Behind([], None) == 0;
    assert AllWhole(NEW);
    if CleanRun(NEW, actions) {
      CleanStaysLossless(NEW, actions, u);
    } else if StaysLossless(NEW, actions) {
      LosslessOnlyIfClean(NEW, actions, u);
    }
  }

  /** A turn that nothing interrupts is one call of ensure_summarized(). */
  lemma AloneIsEnsured(s: System, t: Turn, summary: Option<string>)
    requires t !in s.turns
    ensures Runs(s, [Load(t), Fold(t, summary), Write(t)], System(Ensured(s.row, summary), s.turns))
  {
    var loaded := Step(s, Load(t));
    var folded := Step(loaded, Fold(t, summary));
    var done := Step(folded, Write(t));
    assert done == System(Ensured(s.row, summary), s.turns);
    var rest := [Fold(t, summary), Write(t)];
    assert [Load(t), Fold(t, summary), Write(t)][1..] == rest && rest[1..] == [Write(t)] && [Write(t)][1..] == [];
    assert Runs(folded, [Write(t)], done) && Runs(loaded, rest, done);
  }
}

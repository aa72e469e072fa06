/** Folding old conversation events into the rolling summary, and the history a turn sends. */
module HistoryFolding {
  import opened Common

  datatype Event = Event(id: string, createdAt: real, role: string, content: string)

  const UNSUMMARIZED_EVENT_LIMIT := 20
  const SUMMARIZATION_FETCH_LIMIT := 500

  /** A conversation; folds records what each successful summarization call was given. */
  datatype State = State(events: seq<Event>, summary: Option<string>, through: Option<real>, folds: seq<seq<Event>>)

  /** The newest events, in chronological order. */
  function Fetched(events: seq<Event>, limit: nat): seq<Event> {
    if |events| <= limit then events else events[|events| - limit..]
  }

  /** _unsummarized_tail() */
  function Unsummarized(through: Option<real>, events: seq<Event>): seq<Event> {
    if through.None? then events
    else if events == [] then []
    else
      var n := |events| - 1;
      Unsummarized(through, events[..n]) + if events[n].createdAt > through.value then [events[n]] else []
  }

  function ToFold(s: State): seq<Event> {
    var tail := Unsummarized(s.through, Fetched(s.events, SUMMARIZATION_FETCH_LIMIT));
    if |tail| <= UNSUMMARIZED_EVENT_LIMIT then [] else tail[..|tail| - UNSUMMARIZED_EVENT_LIMIT]
  }

  /** The conversation after ensure_summarized(); None when the summarization call fails. */
  function Ensured(s: State, summary: Option<string>): State {
    var fold := ToFold(s);
    if fold == [] || summary.None? then s
    else s.(summary := summary, through := Some(fold[|fold| - 1].createdAt), folds := s.folds + [fold])
  }

  function Concat(folds: seq<seq<Event>>): seq<Event> {
    if folds == [] then [] else Concat(folds[..|folds| - 1]) + folds[|folds| - 1]
  }

  ghost predicate Chronological(events: seq<Event>) {
    forall i, j | 0 <= i < j < |events| :: events[i].createdAt <= events[j].createdAt
  }

  /** How many events are at or before the boundary. */
  function Behind(events: seq<Event>, through: Option<real>): (w: nat)
    ensures w <= |events|
    ensures through.None? ==> w == 0
    ensures forall i | 0 <= i < w :: events[i].createdAt <= through.value
    ensures through.Some? && w < |events| ==> events[w].createdAt > through.value
  {
    if through.None? || events == [] then 0
    else
      var n := |events| - 1;
      var w := Behind(events[..n], through);
      if w == n && events[n].createdAt <= through.value then n + 1 else w
  }

  /** The folded events are exactly the conversation up to the boundary: each folded once, in order, none skipped. */
  ghost predicate Lossless(s: State) { Concat(s.folds) == s.events[..Behind(s.events, s.through)] }

  // ---------------------------------------------------------------------
  // The unsummarized tail
  // ---------------------------------------------------------------------

  lemma {:induction false} TailIsSuffix(through: Option<real>, events: seq<Event>)
    requires Chronological(events)
    ensures Unsummarized(through, events) == events[Behind(events, through)..]
  {
    if through.None? || events == [] {
    } else {
      var n, w := |events| - 1, Behind(events, through);
      TailIsSuffix(through, events[..n]);
      if w <= n {
        assert events[w].createdAt <= events[n].createdAt;
        SuffixNext(events, w);
      }
    }
  }

  lemma SuffixNext(events: seq<Event>, w: nat)
    requires w < |events|
    ensures events[w..] == events[..|events| - 1][w..] + [events[|events| - 1]]
  {}

  function Max(a: int, b: int): int { if a < b then b else a }

  /** Only what is both unfolded and fetched is seen. */
  lemma FetchedTail(s: State)
    requires Chronological(s.events)
    ensures Unsummarized(s.through, Fetched(s.events, SUMMARIZATION_FETCH_LIMIT)) ==
            s.events[Max(Behind(s.events, s.through), |s.events| - SUMMARIZATION_FETCH_LIMIT)..]
  {
    var start := Max(0, |s.events| - SUMMARIZATION_FETCH_LIMIT);
    assert Fetched(s.events, SUMMARIZATION_FETCH_LIMIT) == s.events[start..];
    TailAfter(s.through, s.events, start);
  }

  lemma TailAfter(through: Option<real>, events: seq<Event>, start: nat)
    requires Chronological(events) && start <= |events|
    ensures Unsummarized(through, events[start..]) == events[Max(Behind(events, through), start)..]
  {
    var rest, b := events[start..], Behind(events[start..], through);
    assert Chronological(rest);
    TailIsSuffix(through, rest);
    BehindSuffix(events, through, start);
    SuffixOfSuffix(events, start, b, Max(Behind(events, through), start));
  }

  lemma SuffixOfSuffix(events: seq<Event>, a: nat, b: nat, c: nat)
    requires a + b == c <= |events|
    ensures events[a..][b..] == events[c..]
  {}

  /** The boundary splits a chronological list in one way. */
  lemma BehindIs(events: seq<Event>, t: real, w: nat)
    requires w <= |events|
    requires forall i | 0 <= i < w :: events[i].createdAt <= t
    requires w < |events| ==> events[w].createdAt > t
    ensures Behind(events, Some(t)) == w
  {
    assert Behind(events, Some(t)) <= |events|;
  }

  lemma BehindSuffix(events: seq<Event>, through: Option<real>, start: nat)
    requires Chronological(events) && start <= |events|
    ensures start + Behind(events[start..], through) == Max(Behind(events, through), start)
  {
    if through.Some? {
      var w := Behind(events, through);
      BehindIs(events[start..], through.value, Max(w - start, 0));
    }
  }

  /** What one call folds: from the boundary or the fetch limit, up to the last twenty. */
  lemma FoldIs(s: State)
    requires Chronological(s.events)
    ensures var n, from := |s.events|, Max(Behind(s.events, s.through), |s.events| - 500);
      ToFold(s) == if n - from <= 20 then [] else s.events[from..n - 20]
  {
    FetchedTail(s);
    var n, from := |s.events|, Max(Behind(s.events, s.through), |s.events| - SUMMARIZATION_FETCH_LIMIT);
    if n - from > UNSUMMARIZED_EVENT_LIMIT {
      assert s.events[from..][..n - from - UNSUMMARIZED_EVENT_LIMIT] == s.events[from..n - UNSUMMARIZED_EVENT_LIMIT];
    }
  }

  // ---------------------------------------------------------------------
  // One call
  // ---------------------------------------------------------------------

  /** The call folds something. */
  ghost predicate Folds(s: State, summary: Option<string>) { ToFold(s) != [] && summary.Some? }

  /** Nothing unfolded is beyond the fetch limit, and the first kept event is later than the last folded one. */
  ghost predicate Clean(s: State) {
    && |s.events| - Behind(s.events, s.through) <= SUMMARIZATION_FETCH_LIMIT
    && var k := |s.events| - UNSUMMARIZED_EVENT_LIMIT;
       0 < k ==> s.events[k - 1].createdAt < s.events[k].createdAt
  }

  /** No more is folded than lies behind the boundary; when nothing is missing it is exactly that, and newer events
      are later than the boundary. */
  ghost predicate Inv(s: State) {
    var folded, w := Concat(s.folds), Behind(s.events, s.through);
    && Chronological(s.events)
    && |folded| <= w
    && (|folded| == w ==> folded == s.events[..w] && (s.through.Some? ==> w < |s.events|))
  }

  lemma LosslessMeansNoneMissing(s: State)
    requires Inv(s)
    ensures Lossless(s) <==> |Concat(s.folds)| == Behind(s.events, s.through)
  {}

  lemma ConcatNext(folds: seq<seq<Event>>, fold: seq<Event>)
    ensures Concat(folds + [fold]) == Concat(folds) + fold
  {
    assert (folds + [fold])[..|folds|] == folds;
  }

  lemma BehindAt(events: seq<Event>, k: nat)
    requires Chronological(events) && 0 < k < |events|
    ensures var w := Behind(events, Some(events[k - 1].createdAt));
      w >= k && (w == k <==> events[k - 1].createdAt < events[k].createdAt)
  {
    assert forall i | 0 <= i < k :: events[i].createdAt <= events[k - 1].createdAt;
  }

  /** A successful fold loses nothing exactly when it is clean. */
  lemma FoldStep(s: State, summary: Option<string>)
    requires Inv(s) && Folds(s, summary)
    ensures Inv(Ensured(s, summary))
    ensures Lossless(Ensured(s, summary)) <==> Lossless(s) && Clean(s)
    ensures Clean(s) ==> Behind(s.events, Ensured(s, summary).through) == |s.events| - UNSUMMARIZED_EVENT_LIMIT
  {
    var t, n, w := Ensured(s, summary), |s.events|, Behind(s.events, s.through);
    var from, k := Max(w, n - SUMMARIZATION_FETCH_LIMIT), n - UNSUMMARIZED_EVENT_LIMIT;
    FoldedRange(s, summary);
    BehindAt(s.events, k);
    if |Concat(s.folds)| == w && from == w {
      Glue(s.events, w, k);
    }
    LosslessMeansNoneMissing(s);
    LosslessMeansNoneMissing(t);
  }

  lemma FoldedRange(s: State, summary: Option<string>)
    requires Chronological(s.events) && Folds(s, summary)
    ensures var t, n, w := Ensured(s, summary), |s.events|, Behind(s.events, s.through);
      var from, k := Max(w, n - SUMMARIZATION_FETCH_LIMIT), n - UNSUMMARIZED_EVENT_LIMIT;
      && w <= from < k < n
      && t.events == s.events && t.through == Some(s.events[k - 1].createdAt)
      && Concat(t.folds) == Concat(s.folds) + s.events[from..k]
  {
    var n, w := |s.events|, Behind(s.events, s.through);
    var from, k := Max(w, n - SUMMARIZATION_FETCH_LIMIT), n - UNSUMMARIZED_EVENT_LIMIT;
    var fold := ToFold(s);
    assert from < k && fold == s.events[from..k] by {
      FoldIs(s);
    }
    ConcatNext(s.folds, fold);
    SliceLast(s.events, from, k);
  }

  lemma SliceLast(events: seq<Event>, from: nat, k: nat)
    requires from < k <= |events|
    ensures |events[from..k]| == k - from && events[from..k][k - from - 1] == events[k - 1]
  {}

  lemma Glue(events: seq<Event>, w: nat, k: nat)
    requires w <= k <= |events|
    ensures events[..w] + events[w..k] == events[..k]
  {}

  /** A new event comes last. */
  function Appended(s: State, e: Event): State { s.(events := s.events + [e]) }

  lemma {:induction false} BehindAppend(events: seq<Event>, e: Event, through: Option<real>)
    ensures Behind(events + [e], through) ==
            if through.Some? && Behind(events, through) == |events| && e.createdAt <= through.value then |events| + 1
            else Behind(events, through)
  {
    assert (events + [e])[..|events|] == events;
  }

  lemma ChronologicalAppend(events: seq<Event>, e: Event)
    requires Chronological(events) && (events != [] ==> events[|events| - 1].createdAt <= e.createdAt)
    ensures Chronological(events + [e])
  {}

  lemma AppendStep(s: State, e: Event)
    requires Inv(s) && (s.events != [] ==> s.events[|s.events| - 1].createdAt <= e.createdAt)
    ensures Inv(Appended(s, e)) && (Lossless(Appended(s, e)) <==> Lossless(s))
  {
    var t, w := Appended(s, e), Behind(s.events, s.through);
    ChronologicalAppend(s.events, e);
    BehindAppend(s.events, e, s.through);
    assert t.events[..w] == s.events[..w];
    LosslessMeansNoneMissing(s);
    LosslessMeansNoneMissing(t);
  }

  // ---------------------------------------------------------------------
  // Whole conversations
  // ---------------------------------------------------------------------

  datatype Step = Append(event: Event) | Ensure(summary: Option<string>)

  const EMPTY := State([], None, None, [])

  function After(steps: seq<Step>): State {
    if steps == [] then EMPTY
    else
      var before := After(steps[..|steps| - 1]);
      match steps[|steps| - 1]
      case Append(e) => Appended(before, e)
      case Ensure(summary) => Ensured(before, summary)
  }

  /** Events come in chronological order; equal times are allowed. */
  ghost predicate InOrder(steps: seq<Step>) {
    steps != [] ==>
      var front, last, events := steps[..|steps| - 1], steps[|steps| - 1], After(steps[..|steps| - 1]).events;
      && InOrder(front)
      && (last.Append? && events != [] ==> events[|events| - 1].createdAt <= last.event.createdAt)
  }

  /** Every call that folded did so cleanly. */
  ghost predicate AllClean(steps: seq<Step>) {
    steps != [] ==>
      var front, last := steps[..|steps| - 1], steps[|steps| - 1];
      && AllClean(front)
      && (last.Ensure? && Folds(After(front), last.summary) ==> Clean(After(front)))
  }

  /** Folding loses nothing exactly when every successful call was clean; failed calls never matter. */
  lemma {:induction false} LosslessIffClean(steps: seq<Step>)
    requires InOrder(steps)
    ensures Inv(After(steps)) && (Lossless(After(steps)) <==> AllClean(steps))
  {
    if steps == [] {
    } else {
      var front, last := steps[..|steps| - 1], steps[|steps| - 1];
      LosslessIffClean(front);
      match last
      case Append(e) => AppendStep(After(front), e);
      case Ensure(summary) =>
        if Folds(After(front), summary) {
          FoldStep(After(front), summary);
        }
    }
  }

  /** With strictly increasing times the fetch limit is the only way to lose an event. */
  ghost predicate Strict(events: seq<Event>) {
    forall i, j | 0 <= i < j < |events| :: events[i].createdAt < events[j].createdAt
  }

  lemma CleanWhenStrict(s: State)
    requires Strict(s.events)
    ensures Clean(s) <==> |s.events| - Behind(s.events, s.through) <= SUMMARIZATION_FETCH_LIMIT
  {}

  // ---------------------------------------------------------------------
  // Skipped events
  // ---------------------------------------------------------------------

  /** At or before the boundary, and in no fold. */
  ghost predicate Skipped(s: State, e: Event) {
    s.through.Some? && e.createdAt <= s.through.value && e !in Concat(s.folds)
  }

  lemma {:induction false} TailIsLater(through: Option<real>, events: seq<Event>, i: nat)
    requires through.Some? && i < |Unsummarized(through, events)|
    ensures Unsummarized(through, events)[i].createdAt > through.value
  {
    if events == [] {
    } else {
      var n := |events| - 1;
      if i < |Unsummarized(through, events[..n])| {
        TailIsLater(through, events[..n], i);
      }
    }
  }

  /** A fold is all later than the boundary before it. */
  lemma FoldIsLater(s: State, i: nat)
    requires i < |ToFold(s)| && s.through.Some?
    ensures ToFold(s)[i].createdAt > s.through.value
  {
    TailIsLater(s.through, Fetched(s.events, SUMMARIZATION_FETCH_LIMIT), i);
  }

  /** No event of a fold is later than the boundary it leaves. */
  ghost predicate FoldedBehind(s: State) {
    if s.through.None? then s.folds == [] else forall e | e in Concat(s.folds) :: e.createdAt <= s.through.value
  }

  /** A fold is chronological. */
  lemma FoldIsBehind(s: State, e: Event)
    requires Chronological(s.events) && e in ToFold(s)
    ensures e.createdAt <= ToFold(s)[|ToFold(s)| - 1].createdAt
  {
    FoldIs(s);
    var j :| 0 <= j < |ToFold(s)| && ToFold(s)[j] == e;
  }

  lemma FoldedBehindStep(s: State, summary: Option<string>)
    requires Chronological(s.events) && FoldedBehind(s)
    ensures FoldedBehind(Ensured(s, summary))
  {
    if Folds(s, summary) {
      var t, fold := Ensured(s, summary), ToFold(s);
      ConcatNext(s.folds, fold);
      if s.through.Some? {
        FoldIsLater(s, |fold| - 1);
      }
      forall e | e in Concat(t.folds) ensures e.createdAt <= t.through.value {
        if e in fold {
          FoldIsBehind(s, e);
        }
      }
    }
  }

  lemma {:induction false} FoldedBehindAfter(steps: seq<Step>)
    requires InOrder(steps)
    ensures FoldedBehind(After(steps))
  {
    if steps == [] {
    } else {
      var front, last := steps[..|steps| - 1], steps[|steps| - 1];
      FoldedBehindAfter(front);
      LosslessIffClean(front);
      if last.Ensure? {
        FoldedBehindStep(After(front), last.summary);
      }
    }
  }

  lemma SkippedStep(s: State, summary: Option<string>, e: Event)
    requires Skipped(s, e)
    ensures Skipped(Ensured(s, summary), e)
  {
    if Folds(s, summary) {
      var fold := ToFold(s);
      ConcatNext(s.folds, fold);
      FoldIsLater(s, |fold| - 1);
      forall j | 0 <= j < |fold| ensures fold[j] != e {
        FoldIsLater(s, j);
      }
    }
  }

  /** A skipped event stays skipped whatever follows. */
  lemma {:induction false} SkippedForGood(steps: seq<Step>, more: seq<Step>, e: Event)
    requires Skipped(After(steps), e)
    ensures Skipped(After(steps + more), e)
  {
    if more == [] {
      assert steps + more == steps;
    } else {
      var front, last := more[..|more| - 1], more[|more| - 1];
      SkippedForGood(steps, front, e);
      var all := steps + more;
      assert all[..|all| - 1] == steps + front && all[|all| - 1] == last;
      if last.Ensure? {
        SkippedStep(After(steps + front), last.summary, e);
      }
    }
  }

  lemma {:induction false} InOrderPrefix(steps: seq<Step>, more: seq<Step>)
    requires InOrder(steps + more)
    ensures InOrder(steps) && (AllClean(steps + more) ==> AllClean(steps))
  {
    if more == [] {
      assert steps + more == steps;
    } else {
      assert (steps + more)[..|steps + more| - 1] == steps + more[..|more| - 1];
      InOrderPrefix(steps, more[..|more| - 1]);
    }
  }

  /**
   A successful call that comes too late skips what is unfolded beyond the fetch limit. No later call of the
   conversation, successful or not, ever folds those events: they are lost, and so is every later state.
  */
  lemma LateFoldSkips(steps: seq<Step>, summary: string, more: seq<Step>, i: nat)
    requires InOrder(steps + [Ensure(Some(summary))] + more)
    requires var s := After(steps);
      && Behind(s.events, s.through) <= i < |s.events| - SUMMARIZATION_FETCH_LIMIT
      && forall j | i < j < |s.events| :: s.events[j] != s.events[i]
    ensures var t := After(steps + [Ensure(Some(summary))] + more);
      Skipped(t, After(steps).events[i]) && !Lossless(t)
  {
    var s, late := After(steps), steps + [Ensure(Some(summary))];
    InOrderPrefix(late, more);
    InOrderPrefix(steps, [Ensure(Some(summary))]);
    LosslessIffClean(steps);
    FoldedBehindAfter(steps);
    assert late[..|late| - 1] == steps;
    JustSkipped(s, summary, i);
    SkippedForGood(late, more, s.events[i]);
    assert !AllClean(late);
    LosslessIffClean(late + more);
  }

  lemma NotInSlice(events: seq<Event>, i: nat, from: nat, k: nat)
    requires i < from <= k <= |events| && forall j | i < j < |events| :: events[j] != events[i]
    ensures events[i] !in events[from..k]
  {
    forall j | 0 <= j < k - from ensures events[from..k][j] != events[i] {
      assert events[from..k][j] == events[from + j];
    }
  }

  lemma NotFoldedYet(s: State, e: Event)
    requires FoldedBehind(s) && (s.through.Some? ==> s.through.value < e.createdAt)
    ensures e !in Concat(s.folds)
  {}

  lemma JustSkipped(s: State, summary: string, i: nat)
    requires Chronological(s.events) && FoldedBehind(s)
    requires Behind(s.events, s.through) <= i < |s.events| - SUMMARIZATION_FETCH_LIMIT
    requires forall j | i < j < |s.events| :: s.events[j] != s.events[i]
    ensures Skipped(Ensured(s, Some(summary)), s.events[i]) && Folds(s, Some(summary)) && !Clean(s)
  {
    var n, w := |s.events|, Behind(s.events, s.through);
    assert s.events[w].createdAt <= s.events[i].createdAt;
    NotFoldedYet(s, s.events[i]);
    FoldIs(s);
    FoldedRange(s, Some(summary));
    NotInSlice(s.events, i, n - SUMMARIZATION_FETCH_LIMIT, n - UNSUMMARIZED_EVENT_LIMIT);
  }

  // ---------------------------------------------------------------------
  // What a turn sends
  // ---------------------------------------------------------------------

  /** _build_chat_request(): the newest twenty events go verbatim. */
  function Sent(s: State): seq<Event> { Fetched(s.events, UNSUMMARIZED_EVENT_LIMIT) }

  lemma Halves(events: seq<Event>, k: nat)
    requires k <= |events|
    ensures events[..k] + events[k..] == events
  {}

  lemma LongEnough(s: State)
    requires Chronological(s.events) && ToFold(s) != []
    ensures |s.events| > UNSUMMARIZED_EVENT_LIMIT
  {
    FoldIs(s);
  }

  /** After a successful fold the twenty sent are exactly what is not folded. */
  lemma SentIsUnfolded(s: State, summary: Option<string>)
    requires Inv(s) && Lossless(s) && Folds(s, summary) && Clean(s)
    ensures var t := Ensured(s, summary);
      && |Sent(t)| == 20
      && Concat(t.folds) + Sent(t) == t.events
  {
    LongEnough(s);
    FoldStep(s, summary);
    Halves(s.events, |s.events| - UNSUMMARIZED_EVENT_LIMIT);
  }

  /** What is folded and what is sent are a beginning and an end of the conversation with no gap between them. */
  ghost predicate NoGap(s: State) {
    exists k, j :: 0 <= j <= k <= |s.events| && Concat(s.folds) == s.events[..k] && Sent(s) == s.events[j..]
  }

  /** A turn sends or has folded every event, exactly unless the tail was too long and its call failed. */
  lemma NothingLeftOut(s: State, summary: Option<string>)
    requires Inv(s) && Lossless(s) && (Folds(s, summary) ==> Clean(s))
    ensures NoGap(Ensured(s, summary)) <==> ToFold(s) == [] || summary.Some?
  {
    SentReaches(s, summary);
    var t := Ensured(s, summary);
    var n, w, sent := |t.events|, Behind(t.events, t.through), |Sent(t)|;
    assert Sent(t) == t.events[n - sent..];
    FoldStepOrSame(s, summary);
    if n - w <= sent {
      assert Concat(t.folds) == t.events[..w];
    }
  }

  lemma FoldStepOrSame(s: State, summary: Option<string>)
    requires Inv(s) && Lossless(s) && (Folds(s, summary) ==> Clean(s))
    ensures Lossless(Ensured(s, summary))
  {
    if Folds(s, summary) {
      FoldStep(s, summary);
    }
  }

  lemma SentReaches(s: State, summary: Option<string>)
    requires Inv(s) && Lossless(s) && (Folds(s, summary) ==> Clean(s))
    ensures var t := Ensured(s, summary);
      |t.events| - |Concat(t.folds)| <= |Sent(t)| <==> ToFold(s) == [] || summary.Some?
  {
    FoldIs(s);
    if Folds(s, summary) {
      SentIsUnfolded(s, summary);
    }
  }

  // ---------------------------------------------------------------------
  // The service
  // ---------------------------------------------------------------------

  class Conversation {
    var events: seq<Event>
    var rollingSummary: Option<string>
    var throughCreatedAt: Option<real>
    ghost var folds: seq<seq<Event>>

    ghost function Value(): State
      reads this
    {
      State(events, rollingSummary, throughCreatedAt, folds)
    }

    constructor ()
      ensures Value() == EMPTY
    {
      events, rollingSummary, throughCreatedAt, folds := [], None, None, [];
    }

    method AddEvent(e: Event)
      modifies this
      ensures Value() == Appended(old(Value()), e)
    {
      events := events + [e];
    }

    /** ensure_summarized(). generated: the summary the model returns, or None when the call fails. */
    method EnsureSummarized(generated: Option<string>)
      modifies this
      ensures Value() == Ensured(old(Value()), generated)
    {
      var fetched := Fetched(events, SUMMARIZATION_FETCH_LIMIT);
      var unsummarized := Unsummarized(throughCreatedAt, fetched);
      if |unsummarized| <= UNSUMMARIZED_EVENT_LIMIT {
        return;
      }
      var toFold := unsummarized[..|unsummarized| - UNSUMMARIZED_EVENT_LIMIT];
      if generated.None? {
        return;
      }
      rollingSummary := generated;
      throughCreatedAt := Some(toFold[|toFold| - 1].createdAt);
      folds := folds + [toFold];
    }

    /** The history part of _build_chat_request(). */
    method BuildHistory(generated: Option<string>, currentEventId: string)
        returns (summary: Option<string>, history: seq<Event>)
      modifies this
      ensures Value() == Ensured(old(Value()), generated)
      ensures summary == if rollingSummary == Some("") then None else rollingSummary
      ensures history == WithoutEvent(Sent(Value()), currentEventId)
    {
      EnsureSummarized(generated);
      summary := if rollingSummary == Some("") then None else rollingSummary;
      history := WithoutEvent(Fetched(events, UNSUMMARIZED_EVENT_LIMIT), currentEventId);
    }
  }

  /** The history sent is the sent events but the current one, each as often as before. */
  lemma {:induction false} WithoutEventKeeps(events: seq<Event>, id: string, e: Event)
    ensures multiset(WithoutEvent(events, id))[e] == if e.id == id then 0 else multiset(events)[e]
  {
    if events == [] {
    } else {
      WithoutEventKeeps(events[..|events| - 1], id, e);
      assert events == events[..|events| - 1] + [events[|events| - 1]];
    }
  }

  /** The current message travels separately. */
  function WithoutEvent(events: seq<Event>, id: string): seq<Event> {
    if events == [] then []
    else
      var n := |events| - 1;
      WithoutEvent(events[..n], id) + if events[n].id == id then [] else [events[n]]
  }
}

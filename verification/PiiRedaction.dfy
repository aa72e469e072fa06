/** Redaction: which detections are replaced, and what the text keeps. */
module PiiRedaction {
  import opened Common
  import opened PiiSpans
  import Sorting

  /** A stretch of the text to replace by one marker. */
  datatype Cut = Cut(start: nat, end: nat, entity: string)

  function Marker(entity: string): string { "[REDACTED:" + entity + "]" }

  /** Python's text[i:j]: clipped to the text, and empty when j <= i. */
  function Slice<T>(s: seq<T>, i: nat, j: nat): seq<T> {
    var end := if j <= |s| then j else |s|;
    if i <= end then s[i..end] else []
  }

  /** _SPACES_ONLY.fullmatch: one or more spaces and nothing else. */
  predicate SpacesOnly(s: string) { s != "" && forall c | c in s :: c == ' ' }

  /** Non-empty spans that follow one another within the first n characters. */
  ghost predicate SpansOk(spans: seq<Span>, n: nat)
    decreases |spans|
  {
    spans == [] ||
    var s := spans[|spans| - 1];
    s.start < s.end <= n && SpansOk(spans[..|spans| - 1], s.start)
  }

  /** Cuts that follow one another within the first n characters. */
  ghost predicate CutsOk(cuts: seq<Cut>, n: nat)
    decreases |cuts|
  {
    cuts == [] ||
    var c := cuts[|cuts| - 1];
    c.start < c.end <= n && CutsOk(cuts[..|cuts| - 1], c.start)
  }

  /** The spans, with same-type neighbours separated only by spaces merged into one. */
  function Merged(text: string, spans: seq<Span>): (cuts: seq<Cut>)
    ensures spans != [] ==> cuts != [] && cuts[|cuts| - 1].end == spans[|spans| - 1].end
  {
    if spans == [] then []
    else Merge(text, Merged(text, spans[..|spans| - 1]), spans[|spans| - 1])
  }

  /** One more span: extend the last cut over it, or start a new cut. */
  function Merge(text: string, cuts: seq<Cut>, s: Span): seq<Cut> {
    var n := |cuts| - 1;
    if cuts != [] && cuts[n].entity == s.entity && SpacesOnly(Slice(text, cuts[n].end, s.start))
    then cuts[..n] + [Cut(cuts[n].start, s.end, s.entity)]
    else cuts + [Cut(s.start, s.end, s.entity)]
  }

  lemma {:induction false} CutsWiden(cuts: seq<Cut>, m: nat, n: nat)
    requires CutsOk(cuts, m) && m <= n
    ensures CutsOk(cuts, n)
  {}

  /** The reference: replace the cuts one at a time, from right to left. */
  function ReplaceFromRight<T>(s: seq<T>, cuts: seq<Cut>, marker: string -> seq<T>): seq<T>
    requires CutsOk(cuts, |s|)
    decreases |cuts|
  {
    if cuts == [] then s
    else
      var c := cuts[|cuts| - 1];
      CutsWiden(cuts[..|cuts| - 1], c.start, |s[..c.start] + marker(c.entity) + s[c.end..]|);
      ReplaceFromRight(s[..c.start] + marker(c.entity) + s[c.end..], cuts[..|cuts| - 1], marker)
  }

  /** Text to the right of every cut is left as it is. */
  lemma {:induction false} RightUntouched<T>(s: seq<T>, rest: seq<T>, cuts: seq<Cut>, marker: string -> seq<T>)
    requires CutsOk(cuts, |s|)
    ensures CutsOk(cuts, |s + rest|)
    ensures ReplaceFromRight(s + rest, cuts, marker) == ReplaceFromRight(s, cuts, marker) + rest
    decreases |cuts|
  {
    CutsWiden(cuts, |s|, |s + rest|);
    if cuts == [] {
    } else {
      var c := cuts[|cuts| - 1];
      var once := s[..c.start] + marker(c.entity) + s[c.end..];
      CutsWiden(cuts[..|cuts| - 1], c.start, |once|);
      RightUntouched(once, rest, cuts[..|cuts| - 1], marker);
      assert (s + rest)[..c.start] + marker(c.entity) + (s + rest)[c.end..] == once + rest;
    }
  }

  /** The result up to the end of the last cut is the result before it and its marker. */
  lemma LastCut<T>(s: seq<T>, front: seq<Cut>, c: Cut, marker: string -> seq<T>)
    requires CutsOk(front, c.start) && c.start < c.end <= |s|
    ensures CutsOk(front + [c], |s|)
    ensures ReplaceFromRight(s, front + [c], marker) ==
            ReplaceFromRight(s[..c.start], front, marker) + (marker(c.entity) + s[c.end..])
  {
    var cuts := front + [c];
    assert cuts[..|cuts| - 1] == front;
    RightUntouched(s[..c.start], marker(c.entity) + s[c.end..], front, marker);
    Regroup(s[..c.start], marker(c.entity), s[c.end..]);
  }

  lemma {:induction false} MergedOk(text: string, spans: seq<Span>, n: nat)
    requires SpansOk(spans, n)
    ensures CutsOk(Merged(text, spans), n)
    decreases |spans|
  {
    if spans == [] {
    } else {
      var front, s := spans[..|spans| - 1], spans[|spans| - 1];
      MergedOk(text, front, s.start);
      var before, after := Merged(text, front), Merged(text, spans);
      assert after[..|after| - 1] == if |after| == |before| then before[..|before| - 1] else before;
      if before != [] {
        CutsWiden(before[..|before| - 1], before[|before| - 1].start, s.start);
      }
    }
  }

  /** Two neighbouring cuts that could not be merged: of two types, touching, or with more than spaces between. */
  ghost predicate Apart(text: string, a: Cut, b: Cut) {
    || a.entity != b.entity || a.end == b.start
    || exists p :: a.end <= p < b.start && p < |text| && text[p] != ' '
  }

  ghost predicate AllApart(text: string, cuts: seq<Cut>) {
    forall i | 0 <= i < |cuts| - 1 :: Apart(text, cuts[i], cuts[i + 1])
  }

  /** This cut runs from the start of one span to the end of one, both of its type. */
  ghost predicate Bounded(spans: seq<Span>, c: Cut) {
    exists a, b :: a in spans && b in spans && a.start == c.start && b.end == c.end && a.entity == b.entity == c.entity
  }

  ghost predicate Covered(cuts: seq<Cut>, s: Span) {
    exists c :: c in cuts && c.start <= s.start && s.end <= c.end && c.entity == s.entity
  }

  /**
   Merging joins spans of one type across spaces, all that can be joined and no others: every span lies in a cut
   of its own type, every cut starts and ends with spans of its type, and no two neighbours could be joined.
  */
  lemma {:induction false} MergedIsMaximal(text: string, spans: seq<Span>, n: nat)
    requires SpansOk(spans, n) && n <= |text|
    ensures forall s | s in spans :: Covered(Merged(text, spans), s)
    ensures forall c | c in Merged(text, spans) :: Bounded(spans, c)
    ensures AllApart(text, Merged(text, spans))
    decreases |spans|
  {
    if spans == [] {
    } else {
      var front, s := spans[..|spans| - 1], spans[|spans| - 1];
      assert spans == front + [s];
      MergedIsMaximal(text, front, s.start);
      MergedOk(text, front, s.start);
      var cuts := Merged(text, front);
      MergeKeepsBounds(text, cuts, front, s);
      MergeKeepsApart(text, cuts, s);
      MergeKeepsCovered(text, cuts, front, s);
    }
  }

  lemma MergeKeepsCovered(text: string, cuts: seq<Cut>, front: seq<Span>, s: Span)
    requires s.start < s.end && CutsOk(cuts, s.start) && forall r | r in front :: Covered(cuts, r)
    ensures forall r | r in front + [s] :: Covered(Merge(text, cuts, s), r)
  {
    var merged, n := Merge(text, cuts, s), |cuts| - 1;
    forall r | r in front + [s] ensures Covered(merged, r) {
      if r in front {
        var c :| c in cuts && c.start <= r.start && r.end <= c.end && c.entity == r.entity;
        if |merged| == |cuts| && c == cuts[n] {
          assert merged[n] in merged;
        } else {
          assert c in merged;
        }
      } else {
        assert merged[|merged| - 1] in merged;
      }
    }
  }

  lemma MergeKeepsBounds(text: string, cuts: seq<Cut>, front: seq<Span>, s: Span)
    requires forall c | c in cuts :: Bounded(front, c)
    ensures forall c | c in Merge(text, cuts, s) :: Bounded(front + [s], c)
  {
    var merged, n := Merge(text, cuts, s), |cuts| - 1;
    forall c | c in merged ensures Bounded(front + [s], c) {
      assert s in front + [s];
      if c in cuts {
        var a, b :| a in front && b in front && a.start == c.start && b.end == c.end
                    && a.entity == b.entity == c.entity;
        assert a in front + [s] && b in front + [s];
      } else if |merged| == |cuts| {
        assert cuts[n] in cuts && Bounded(front, cuts[n]);
        var a, b :| a in front && b in front && a.start == cuts[n].start && b.end == cuts[n].end
                    && a.entity == b.entity == cuts[n].entity;
        assert a in front + [s];
      }
    }
  }

  lemma MergeKeepsApart(text: string, cuts: seq<Cut>, s: Span)
    requires s.start < s.end <= |text| && CutsOk(cuts, s.start) && AllApart(text, cuts)
    ensures AllApart(text, Merge(text, cuts, s))
  {
    var merged, n := Merge(text, cuts, s), |cuts| - 1;
    forall i | 0 <= i < |merged| - 1 ensures Apart(text, merged[i], merged[i + 1]) {
      if i + 1 < |cuts| {
        assert Apart(text, cuts[i], cuts[i + 1]);
      } else if cuts[n].entity == s.entity && cuts[n].end != s.start {
        var gap := Slice(text, cuts[n].end, s.start);
        var c :| c in gap && c != ' ';
        var q :| 0 <= q < |gap| && gap[q] == c;
        assert text[cuts[n].end + q] != ' ';
      }
    }
  }

  /** Spans that touch are not joined: a cut ends where the first of them does. */
  lemma {:induction false} TouchingStayApart(text: string, spans: seq<Span>, n: nat, i: nat)
    requires SpansOk(spans, n) && n <= |text| && i < |spans| - 1 && spans[i].end == spans[i + 1].start
    ensures exists c :: c in Merged(text, spans) && c.end == spans[i].end
    decreases |spans|
  {
    var front, s := spans[..|spans| - 1], spans[|spans| - 1];
    var cuts, merged := Merged(text, front), Merged(text, spans);
    var k := |cuts| - 1;
    if i + 1 < |front| {
      TouchingStayApart(text, front, s.start, i);
      MergedOk(text, front, s.start);
      var c :| c in cuts && c.end == front[i].end;
      EndsBeforeLast(text, front, s.start, i, c);
      assert c in merged;
    } else {
      assert cuts[k].end == s.start && Slice(text, cuts[k].end, s.start) == "";
      assert cuts[k] in merged;
    }
  }

  /** Only the last cut can end with the last span. */
  lemma EndsBeforeLast(text: string, front: seq<Span>, n: nat, i: nat, c: Cut)
    requires SpansOk(front, n) && i + 1 < |front| && c in Merged(text, front) && c.end == front[i].end
    ensures c in Merged(text, front)[..|Merged(text, front)| - 1]
  {
    var cuts := Merged(text, front);
    var j :| 0 <= j < |cuts| && cuts[j] == c;
    EndsRise(front, n, i);
    assert cuts[|cuts| - 1].end == front[|front| - 1].end;
    assert j < |cuts| - 1;
    assert cuts[..|cuts| - 1][j] == c;
  }

  lemma {:induction false} EndsRise(spans: seq<Span>, n: nat, i: nat)
    requires SpansOk(spans, n) && i + 1 < |spans|
    ensures spans[i].end < spans[|spans| - 1].end
    decreases |spans|
  {
    var front, s := spans[..|spans| - 1], spans[|spans| - 1];
    if i + 1 < |front| {
      EndsRise(front, s.start, i);
      assert front[|front| - 1].end <= s.start;
    }
  }

  /** What a redacted text reads like: up to the last cut, then the marker of its type, then the rest as it was. */
  lemma RedactedReads(text: string, front: seq<Cut>, c: Cut)
    requires CutsOk(front + [c], |text|)
    ensures ReplaceFromRight(text, [], Marker) == text
    ensures CutsOk(front, c.start) && c.start < c.end <= |text|
    ensures ReplaceFromRight(text, front + [c], Marker) ==
            ReplaceFromRight(text[..c.start], front, Marker) + ("[REDACTED:" + c.entity + "]" + text[c.end..])
  {
    var cuts := front + [c];
    assert cuts[..|cuts| - 1] == front && cuts[|cuts| - 1] == c;
    LastCut(text, front, c, Marker);
  }

  function Redacted(text: string, spans: seq<Span>): string
    requires SpansOk(spans, |text|)
  {
    MergedOk(text, spans, |text|);
    ReplaceFromRight(text, Merged(text, spans), Marker)
  }

  /** The first loop of _redact_spans(). */
  method MergeSpans(text: string, ordered: seq<Span>) returns (merged: seq<Cut>)
    ensures merged == Merged(text, ordered)
  {
    merged := [];
    for i := 0 to |ordered|
      invariant merged == Merged(text, ordered[..i])
    {
      assert ordered[..i + 1][..i] == ordered[..i];
      var s, n := ordered[i], |merged| - 1;
      if merged != [] && merged[n].entity == s.entity && SpacesOnly(Slice(text, merged[n].end, s.start)) {
        merged := merged[..n] + [Cut(merged[n].start, s.end, s.entity)];
      } else {
        merged := merged + [Cut(s.start, s.end, s.entity)];
      }
    }
    assert ordered[..|ordered|] == ordered;
  }

  lemma {:induction false} CutsPrefix(cuts: seq<Cut>, n: nat, i: nat)
    requires CutsOk(cuts, n) && i < |cuts|
    ensures CutsOk(cuts[..i], cuts[i].start) && cuts[i].start < cuts[i].end <= n
    decreases |cuts|
  {
    if i < |cuts| - 1 {
      CutsPrefix(cuts[..|cuts| - 1], cuts[|cuts| - 1].start, i);
      assert cuts[..|cuts| - 1][..i] == cuts[..i];
    }
  }

  /** What one more pass of the copying loop adds. */
  lemma CopyOne(text: string, cuts: seq<Cut>, cursor: nat, c: Cut)
    requires CutsOk(cuts, cursor) && cursor <= c.start < c.end <= |text|
    ensures CutsOk(cuts + [c], c.end)
    ensures ReplaceFromRight(text[..c.end], cuts + [c], Marker) ==
            ReplaceFromRight(text[..cursor], cuts, Marker) + text[cursor..c.start] + Marker(c.entity)
  {
    CutsWiden(cuts, cursor, c.start);
    LastCut(text[..c.end], cuts, c, Marker);
    assert (cuts + [c])[..|cuts + [c]| - 1] == cuts;
    RightUntouched(text[..cursor], text[cursor..c.start], cuts, Marker);
    assert text[..c.end][..c.start] == text[..cursor] + text[cursor..c.start];
    assert text[..c.end][c.end..] == [];
  }

  /** The second loop: copy the text between the cuts, and a marker for each. */
  method CopyAround(text: string, merged: seq<Cut>) returns (redacted: string)
    requires CutsOk(merged, |text|)
    ensures redacted == ReplaceFromRight(text, merged, Marker)
  {
    redacted := "";
    var cursor := 0;
    for i := 0 to |merged|
      invariant cursor == (if i == 0 then 0 else merged[i - 1].end) <= |text| && CutsOk(merged[..i], cursor)
      invariant redacted == ReplaceFromRight(text[..cursor], merged[..i], Marker)
    {
      var c := merged[i];
      CutsPrefix(merged, |text|, i);
      if i > 0 {
        CutsPrefixEnd(merged, |text|, i);
      }
      CopyOne(text, merged[..i], cursor, c);
      TakeNext(merged, i);
      redacted := redacted + text[cursor..c.start] + Marker(c.entity);
      cursor := c.end;
    }
    assert merged[..|merged|] == merged;
    CopyRest(text, merged, cursor);
    redacted := redacted + text[cursor..];
  }

  lemma CopyRest(text: string, cuts: seq<Cut>, cursor: nat)
    requires CutsOk(cuts, cursor) && cursor <= |text|
    ensures CutsOk(cuts, |text|)
    ensures ReplaceFromRight(text, cuts, Marker) == ReplaceFromRight(text[..cursor], cuts, Marker) + text[cursor..]
  {
    RightUntouched(text[..cursor], text[cursor..], cuts, Marker);
    assert text == text[..cursor] + text[cursor..];
  }

  /** _redact_spans(): sort, merge left to right, then copy around the cuts in one pass. */
  method RedactSpans(text: string, results: seq<Span>) returns (redacted: string)
    requires SpansOk(Sorting.SortBy(results, ByStartEnd), |text|)
    ensures redacted == Redacted(text, Sorting.SortBy(results, ByStartEnd))
  {
    var ordered := Sorting.SortBy(results, ByStartEnd);
    var merged := MergeSpans(text, ordered);
    MergedOk(text, ordered, |text|);
    redacted := CopyAround(text, merged);
  }

  lemma CutsPrefixEnd(cuts: seq<Cut>, n: nat, i: nat)
    requires CutsOk(cuts, n) && 0 < i < |cuts|
    ensures cuts[i - 1].end <= cuts[i].start
  {
    CutsPrefix(cuts, n, i);
    assert cuts[..i][|cuts[..i]| - 1] == cuts[i - 1];
  }

  function ByStartEnd(s: Span): Sorting.Key { Sorting.Key(s.start as real, s.end as real) }

  lemma InsertLast(front: seq<Span>, s: Span)
    requires front == [] || front[|front| - 1].start < s.start
    ensures Sorting.Insert(front, s, ByStartEnd) == front + [s]
  {}

  /** Spans in order are what sorting them gives. */
  lemma {:induction false} AlreadySorted(spans: seq<Span>, n: nat)
    requires SpansOk(spans, n)
    ensures Sorting.SortBy(spans, ByStartEnd) == spans
    decreases |spans|
  {
    if spans == [] {
    } else {
      var front, s := spans[..|spans| - 1], spans[|spans| - 1];
      AlreadySorted(front, s.start);
      InsertLast(front, s);
      SplitLast(spans);
    }
  }

  // ---------------------------------------------------------------------
  // What the redacted text keeps
  // ---------------------------------------------------------------------

  predicate CutsCover(cuts: seq<Cut>, p: nat)
    decreases |cuts|
  {
    cuts != [] &&
    (var c := cuts[|cuts| - 1]; c.start <= p < c.end || CutsCover(cuts[..|cuts| - 1], p))
  }

  predicate SpansCover(spans: seq<Span>, p: nat) { exists s | s in spans :: s.start <= p < s.end }

  lemma {:induction false} CoveredBelow(cuts: seq<Cut>, n: nat, p: nat)
    requires CutsOk(cuts, n) && CutsCover(cuts, p)
    ensures p < n
    decreases |cuts|
  {
    var c := cuts[|cuts| - 1];
    if !(c.start <= p < c.end) {
      CoveredBelow(cuts[..|cuts| - 1], c.start, p);
    }
  }

  lemma CoverAppend(front: seq<Cut>, c: Cut, p: nat)
    ensures CutsCover(front + [c], p) <==> c.start <= p < c.end || CutsCover(front, p)
  {
    assert (front + [c])[..|front + [c]| - 1] == front;
  }

  /** One more span covers its own positions, and the spaces it is merged across. */
  lemma MergeCovers(text: string, cuts: seq<Cut>, s: Span, p: nat)
    requires CutsOk(cuts, s.start) && s.start < s.end <= |text| && p < |text|
    ensures CutsCover(cuts, p) || s.start <= p < s.end ==> CutsCover(Merge(text, cuts, s), p)
    ensures CutsCover(Merge(text, cuts, s), p) ==> CutsCover(cuts, p) || s.start <= p < s.end || text[p] == ' '
  {
    var n := |cuts| - 1;
    if cuts != [] && cuts[n].entity == s.entity && SpacesOnly(Slice(text, cuts[n].end, s.start)) {
      CoverAppend(cuts[..n], Cut(cuts[n].start, s.end, s.entity), p);
      if cuts[n].end <= p < s.start {
        var gap := Slice(text, cuts[n].end, s.start);
        assert gap[p - cuts[n].end] in gap && gap[p - cuts[n].end] == text[p];
      }
    } else {
      CoverAppend(cuts, Cut(s.start, s.end, s.entity), p);
    }
  }

  lemma SpansCoverLast(spans: seq<Span>, p: nat)
    requires spans != []
    ensures var s := spans[|spans| - 1];
      SpansCover(spans, p) <==> SpansCover(spans[..|spans| - 1], p) || s.start <= p < s.end
  {
    assert spans == spans[..|spans| - 1] + [spans[|spans| - 1]];
  }

  /** The cuts cover every redacted span, and otherwise only spaces between two of them. */
  lemma {:induction false} MergedCovers(text: string, spans: seq<Span>, n: nat, p: nat)
    requires SpansOk(spans, n) && n <= |text| && p < |text|
    ensures SpansCover(spans, p) ==> CutsCover(Merged(text, spans), p)
    ensures CutsCover(Merged(text, spans), p) ==> SpansCover(spans, p) || text[p] == ' '
    decreases |spans|
  {
    if spans == [] {
    } else {
      var front, s := spans[..|spans| - 1], spans[|spans| - 1];
      MergedCovers(text, front, s.start, p);
      MergedOk(text, front, s.start);
      MergeCovers(text, Merged(text, front), s, p);
      SpansCoverLast(spans, p);
    }
  }

  /** One character of the result: copied from a position of the text, or part of a marker. */
  datatype Cell = Original(position: nat) | Inserted(c: char)

  function Identity(n: nat): (cells: seq<Cell>)
    ensures |cells| == n && forall i | 0 <= i < n :: cells[i] == Original(i)
  {
    seq(n, i requires 0 <= i < n => Original(i))
  }

  function MarkerCells(entity: string): seq<Cell> {
    var m := Marker(entity);
    seq(|m|, i requires 0 <= i < |m| => Inserted(m[i]))
  }

  /** Where every character of the redacted text comes from. */
  function Layout(n: nat, cuts: seq<Cut>): seq<Cell>
    requires CutsOk(cuts, n)
  {
    ReplaceFromRight(Identity(n), cuts, MarkerCells)
  }

  predicate CellsOf(cells: seq<Cell>, n: nat) { forall c | c in cells && c.Original? :: c.position < n }

  function Render(text: string, cells: seq<Cell>): seq<char>
    requires CellsOf(cells, |text|)
  {
    seq(|cells|, i requires 0 <= i < |cells| =>
      assert cells[i] in cells; if cells[i].Original? then text[cells[i].position] else cells[i].c)
  }

  function Positions(cells: seq<Cell>): seq<nat> {
    if cells == [] then []
    else Positions(cells[..|cells| - 1]) +
         (if cells[|cells| - 1].Original? then [cells[|cells| - 1].position] else [])
  }

  /** The positions below n that no cut covers, in order. */
  function Uncovered(cuts: seq<Cut>, n: nat): seq<nat> {
    if n == 0 then [] else Uncovered(cuts, n - 1) + (if CutsCover(cuts, n - 1) then [] else [n - 1])
  }

  lemma {:induction false} RenderReplaces(text: string, cells: seq<Cell>, cuts: seq<Cut>)
    requires CellsOf(cells, |text|) && CutsOk(cuts, |cells|)
    ensures CellsOf(ReplaceFromRight(cells, cuts, MarkerCells), |text|)
    ensures Render(text, ReplaceFromRight(cells, cuts, MarkerCells)) ==
            ReplaceFromRight(Render(text, cells), cuts, Marker)
    decreases |cuts|
  {
    if cuts == [] {
    } else {
      var front, c := cuts[..|cuts| - 1], cuts[|cuts| - 1];
      var once := cells[..c.start] + MarkerCells(c.entity) + cells[c.end..];
      CutsWiden(front, c.start, |once|);
      RenderReplaces(text, once, front);
      var rendered := Render(text, cells);
      assert Render(text, once) == rendered[..c.start] + Marker(c.entity) + rendered[c.end..];
    }
  }

  lemma {:induction false} PositionsConcat(a: seq<Cell>, b: seq<Cell>)
    ensures Positions(a + b) == Positions(a) + Positions(b)
    decreases |b|
  {
    if b == [] {
      assert a + b == a;
    } else {
      PositionsConcat(a, b[..|b| - 1]);
      assert (a + b)[..|a + b| - 1] == a + b[..|b| - 1];
    }
  }

  lemma {:induction false} MarkersHaveNoPositions(cells: seq<Cell>)
    requires forall c | c in cells :: c.Inserted?
    ensures Positions(cells) == []
  {
    if cells == [] {
    } else {
      MarkersHaveNoPositions(cells[..|cells| - 1]);
      assert cells[|cells| - 1] in cells;
    }
  }

  lemma IdentityTail(n: nat, end: nat)
    requires end < n
    ensures var tail := Identity(n)[end..];
      tail[..|tail| - 1] == Identity(n - 1)[end..] && tail[|tail| - 1] == Original(n - 1)
  {}

  lemma {:induction false} UncoveredUpTo(front: seq<Cut>, c: Cut, n: nat)
    requires CutsOk(front, c.start) && c.start < c.end
    ensures n <= c.start ==> Uncovered(front + [c], n) == Uncovered(front, n)
    ensures c.start <= n <= c.end ==> Uncovered(front + [c], n) == Uncovered(front, c.start)
  {
    if n == 0 {
    } else {
      UncoveredUpTo(front, c, n - 1);
      CoverAppend(front, c, n - 1);
      if c.start <= n - 1 && CutsCover(front, n - 1) {
        CoveredBelow(front, c.start, n - 1);
      }
    }
  }

  lemma {:induction false} UncoveredAfter(front: seq<Cut>, c: Cut, n: nat)
    requires CutsOk(front, c.start) && c.start < c.end <= n
    ensures Uncovered(front + [c], n) == Uncovered(front, c.start) + Positions(Identity(n)[c.end..])
  {
    if n == c.end {
      UncoveredUpTo(front, c, n);
      assert Identity(n)[c.end..] == [];
    } else {
      UncoveredAfter(front, c, n - 1);
      CoverAppend(front, c, n - 1);
      if CutsCover(front, n - 1) {
        CoveredBelow(front, c.start, n - 1);
      }
      IdentityTail(n, c.end);
      Regroup(Uncovered(front, c.start), Positions(Identity(n - 1)[c.end..]), [n - 1]);
    }
  }

  /** The copied characters are those outside every cut, each once and in order. */
  lemma {:induction false} LayoutKeepsTheRest(n: nat, cuts: seq<Cut>)
    requires CutsOk(cuts, n)
    ensures Positions(Layout(n, cuts)) == Uncovered(cuts, n)
    decreases |cuts|
  {
    if cuts == [] {
      NothingCovered(n);
    } else {
      var front, c := cuts[..|cuts| - 1], cuts[|cuts| - 1];
      assert cuts == front + [c];
      LayoutKeepsTheRest(c.start, front);
      LayoutPositions(n, front, c);
      UncoveredAfter(front, c, n);
    }
  }

  lemma LayoutPositions(n: nat, front: seq<Cut>, c: Cut)
    requires CutsOk(front + [c], n)
    ensures CutsOk(front, c.start) && c.end <= n
    ensures Positions(Layout(n, front + [c])) == Positions(Layout(c.start, front)) + Positions(Identity(n)[c.end..])
  {
    LastCut(Identity(n), front, c, MarkerCells);
    assert Identity(n)[..c.start] == Identity(c.start);
    var markers, tail := MarkerCells(c.entity), Identity(n)[c.end..];
    PositionsConcat(Layout(c.start, front), markers + tail);
    PositionsConcat(markers, tail);
    MarkersHaveNoPositions(markers);
    assert [] + Positions(tail) == Positions(tail);
  }

  lemma {:induction false} NothingCovered(n: nat)
    ensures Positions(Identity(n)) == Uncovered([], n)
  {
    if n == 0 {
    } else {
      NothingCovered(n - 1);
      assert Identity(n)[..n - 1] == Identity(n - 1);
    }
  }

  /**
   The redacted text is laid out from markers and copied characters: exactly the characters outside
   the merged spans are copied, once each and in order, and what lies inside them is a redacted span
   or a space between two of the same type.
  */
  lemma RedactionKeepsTheRest(text: string, spans: seq<Span>)
    requires SpansOk(spans, |text|)
    ensures var cuts := Merged(text, spans);
      && CutsOk(cuts, |text|)
      && CellsOf(Layout(|text|, cuts), |text|)
      && Redacted(text, spans) == Render(text, Layout(|text|, cuts))
      && Positions(Layout(|text|, cuts)) == Uncovered(cuts, |text|)
    ensures forall p | 0 <= p < |text| && SpansCover(spans, p) :: CutsCover(Merged(text, spans), p)
    ensures forall p | 0 <= p < |text| && CutsCover(Merged(text, spans), p) :: SpansCover(spans, p) || text[p] == ' '
  {
    var cuts := Merged(text, spans);
    MergedOk(text, spans, |text|);
    LayoutKeepsTheRest(|text|, cuts);
    RenderReplaces(text, Identity(|text|), cuts);
    assert Render(text, Identity(|text|)) == text;
    forall p | 0 <= p < |text|
      ensures SpansCover(spans, p) ==> CutsCover(cuts, p)
      ensures CutsCover(cuts, p) ==> SpansCover(spans, p) || text[p] == ' '
    {
      MergedCovers(text, spans, |text|, p);
    }
  }
}

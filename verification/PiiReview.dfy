/** PresidioPIIDetector.review(): classify each kept detection, then redact or flag it. */
module PiiReview {
  import opened Common
  import opened PiiSpans
  import opened PiiRedaction
  import opened Text

  datatype Action = Flagged | ToRedact

  datatype Detection = Detection(entity: string, category: Category, action: Action, evidenceMatched: bool)

  /** s.strip() */
  function Strip(s: string): (t: string)
    ensures t == "" <==> IsBlank(s)
    decreases |s|
  {
    if s == "" then ""
    else if IsSpace(s[0]) then
      assert s == [s[0]] + s[1..];
      Strip(s[1..])
    else if IsSpace(s[|s| - 1]) then
      assert s == s[..|s| - 1] + [s[|s| - 1]];
      Strip(s[..|s| - 1])
    else
      assert s[0] in s;
      s
  }

  predicate FoundAt(hay: string, needle: string, i: nat) {
    i + |needle| <= |hay| && hay[i..i + |needle|] == needle
  }

  /** needle in hay */
  predicate Contains(hay: string, needle: string) { exists i | 0 <= i <= |hay| :: FoundAt(hay, needle, i) }

  /** _evidence_matched(), over any case folding. */
  predicate EvidenceMatched(matched: string, evidence: string, lower: string -> string) {
    Strip(matched) != "" && evidence != "" && Contains(lower(evidence), lower(Strip(matched)))
  }

  predicate MatchesEvidence(text: string, evidence: string, lower: string -> string, s: Span)
    requires s.start <= s.end <= |text|
  {
    CategoryOf(s.entity) != Some(StructuredId) && EvidenceMatched(text[s.start..s.end], evidence, lower)
  }

  ghost predicate Inside(spans: seq<Span>, n: nat) { forall s | s in spans :: s.start < s.end <= n }

  /** The kept detections that are replaced, and those reported, in order. */
  function Redactable(text: string, evidence: string, lower: string -> string, kept: seq<Span>): seq<Span>
    requires Inside(kept, |text|)
  {
    if kept == [] then []
    else
      var front, s := Redactable(text, evidence, lower, kept[..|kept| - 1]), kept[|kept| - 1];
      if CategoryOf(s.entity).Some? && !MatchesEvidence(text, evidence, lower, s) then front + [s] else front
  }

  function Reported(text: string, evidence: string, lower: string -> string, kept: seq<Span>): seq<Detection>
    requires Inside(kept, |text|)
  {
    if kept == [] then []
    else
      var front, s := Reported(text, evidence, lower, kept[..|kept| - 1]), kept[|kept| - 1];
      match CategoryOf(s.entity)
      case None => front
      case Some(category) =>
        var matched := MatchesEvidence(text, evidence, lower, s);
        front + [Detection(s.entity, category, if matched then Flagged else ToRedact, matched)]
  }

  lemma {:induction false} RedactableAre(text: string, evidence: string, lower: string -> string, kept: seq<Span>,
                                       s: Span)
    requires Inside(kept, |text|)
    ensures s in Redactable(text, evidence, lower, kept) <==>
      s in kept && CategoryOf(s.entity).Some? && !MatchesEvidence(text, evidence, lower, s)
    decreases |kept|
  {
    if kept == [] {
    } else {
      RedactableAre(text, evidence, lower, kept[..|kept| - 1], s);
      assert kept == kept[..|kept| - 1] + [kept[|kept| - 1]];
    }
  }

  lemma {:induction false} RedactableOk(text: string, evidence: string, lower: string -> string, kept: seq<Span>,
                                       n: nat)
    requires Inside(kept, |text|) && SpansOk(kept, n)
    ensures SpansOk(Redactable(text, evidence, lower, kept), n)
    decreases |kept|
  {
    if kept == [] {
    } else {
      var front, s := kept[..|kept| - 1], kept[|kept| - 1];
      var some := Redactable(text, evidence, lower, front);
      RedactableOk(text, evidence, lower, front, s.start);
      SpansWiden(some, s.start, n);
      assert (some + [s])[..|some + [s]| - 1] == some;
    }
  }

  lemma {:induction false} SpansWiden(spans: seq<Span>, m: nat, n: nat)
    requires SpansOk(spans, m) && m <= n
    ensures SpansOk(spans, n)
  {}

  lemma {:induction false} InOrderOk(spans: seq<Span>, n: nat)
    requires InOrder(spans) && Inside(spans, n)
    ensures SpansOk(spans, n)
    decreases |spans|
  {
    if spans == [] {
    } else {
      var front, s := spans[..|spans| - 1], spans[|spans| - 1];
      assert s in spans;
      forall t | t in front ensures t.start < t.end <= s.start {
        var i :| 0 <= i < |front| && front[i] == t;
        assert spans[i] == t && t in spans;
      }
      InOrderOk(front, s.start);
    }
  }

  /** What overlap resolution leaves is fit for redaction. */
  lemma ResolvedOk(text: string, raw: seq<Span>)
    requires Inside(raw, |text|)
    ensures Inside(Resolved(raw), |text|) && SpansOk(Resolved(raw), |text|)
  {
    ResolvedIsMaximal(raw);
    InOrderOk(Resolved(raw), |text|);
  }

  /** The category's default action, given what the evidence says about this match. */
  method Classify(text: string, evidence: string, lower: string -> string, s: Span, category: Category)
      returns (action: Action, evidenceMatched: bool)
    requires s.start <= s.end <= |text| && CategoryOf(s.entity) == Some(category)
    ensures evidenceMatched == MatchesEvidence(text, evidence, lower, s)
    ensures action == if evidenceMatched then Flagged else ToRedact
  {
    if category == StructuredId {
      evidenceMatched, action := false, ToRedact;
    } else {
      evidenceMatched := EvidenceMatched(text[s.start..s.end], evidence, lower);
      action := if evidenceMatched then Flagged else ToRedact;
    }
  }

  /** The loop of review(): what is reported and what is replaced. */
  method ClassifyAll(text: string, evidence: string, lower: string -> string, results: seq<Span>)
      returns (toRedact: seq<Span>, detections: seq<Detection>)
    requires Inside(results, |text|)
    ensures toRedact == Redactable(text, evidence, lower, results)
    ensures detections == Reported(text, evidence, lower, results)
  {
    toRedact, detections := [], [];
    for i := 0 to |results|
      invariant Inside(results[..i], |text|)
      invariant toRedact == Redactable(text, evidence, lower, results[..i])
      invariant detections == Reported(text, evidence, lower, results[..i])
    {
      var result := results[i];
      assert result in results;
      assert results[..i + 1][..i] == results[..i] && results[..i + 1] == results[..i] + [result];
      var category := CategoryOf(result.entity);
      if category.None? {
        continue;
      }
      var action, evidenceMatched := Classify(text, evidence, lower, result, category.value);
      detections := detections + [Detection(result.entity, category.value, action, evidenceMatched)];
      if action == ToRedact {
        toRedact := toRedact + [result];
      }
    }
    assert results[..|results|] == results;
  }

  method Review(text: string, raw: seq<Span>, evidence: string, lower: string -> string)
      returns (reviewed: string, detections: seq<Detection>)
    requires Inside(raw, |text|)
    ensures IsBlank(text) ==> reviewed == text && detections == []
    ensures !IsBlank(text) ==>
      && Inside(Resolved(raw), |text|)
      && SpansOk(Redactable(text, evidence, lower, Resolved(raw)), |text|)
      && reviewed == Redacted(text, Redactable(text, evidence, lower, Resolved(raw)))
      && detections == Reported(text, evidence, lower, Resolved(raw))
  {
    if IsBlank(text) {
      return text, [];
    }
    var results := ResolveOverlaps(raw);
    ResolvedOk(text, raw);
    var toRedact;
    toRedact, detections := ClassifyAll(text, evidence, lower, results);
    RedactableOk(text, evidence, lower, results, |text|);
    if toRedact == [] {
      return text, detections;
    }
    AlreadySorted(toRedact, |text|);
    reviewed := RedactSpans(text, toRedact);
  }

  // ---------------------------------------------------------------------
  // Flagged text survives
  // ---------------------------------------------------------------------

  /** t occurs in s as one piece. */
  ghost predicate Occurs<T(!new)>(t: seq<T>, s: seq<T>) { exists a, b :: s == a + t + b }

  /** No cut touches [start, end). */
  ghost predicate Clear(cuts: seq<Cut>, start: nat, end: nat)
    decreases |cuts|
  {
    cuts == [] ||
    (var c := cuts[|cuts| - 1]; (c.end <= start || end <= c.start) && Clear(cuts[..|cuts| - 1], start, end))
  }

  lemma SameBefore<T>(s: seq<T>, rest: seq<T>, n: nat, start: nat, end: nat)
    requires start <= end <= n <= |s|
    ensures (s[..n] + rest)[start..end] == s[start..end]
  {}

  /** A stretch no cut touches is still in the text after every cut is replaced. */
  lemma {:induction false} ClearSurvives<T(!new)>(s: seq<T>, cuts: seq<Cut>, start: nat, end: nat,
                                                  marker: string -> seq<T>)
    requires CutsOk(cuts, |s|) && start < end <= |s| && Clear(cuts, start, end)
    ensures Occurs(s[start..end], ReplaceFromRight(s, cuts, marker))
    decreases |cuts|
  {
    if cuts == [] {
      assert s == s[..start] + s[start..end] + s[end..];
    } else {
      var front, c := cuts[..|cuts| - 1], cuts[|cuts| - 1];
      if end <= c.start {
        var once := s[..c.start] + marker(c.entity) + s[c.end..];
        CutsWiden(front, c.start, |once|);
        ClearSurvives(once, front, start, end, marker);
        SameBefore(s, marker(c.entity) + s[c.end..], c.start, start, end);
        assert once == s[..c.start] + (marker(c.entity) + s[c.end..]);
      } else {
        assert CutsOk(cuts, start);
        RightUntouched(s[..start], s[start..], cuts, marker);
        assert s == s[..start] + s[start..];
        assert s[start..] == s[start..end] + s[end..];
        var left := ReplaceFromRight(s[..start], cuts, marker);
        assert left + s[start..] == left + s[start..end] + s[end..];
      }
    }
  }

  lemma GapIsSpaces(text: string, low: nat, high: nat, p: nat)
    requires SpacesOnly(Slice(text, low, high)) && low <= p < high <= |text|
    ensures text[p] == ' '
  {
    var gap := Slice(text, low, high);
    assert gap[p - low] in gap && gap[p - low] == text[p];
  }

  /**
   A span disjoint from every redacted one, with a character that is no space, keeps all its
   characters: merging cannot swallow it, since it only swallows spaces.
  */
  lemma {:induction false} SolidSurvives(text: string, spans: seq<Span>, n: nat, f: Span)
    requires SpansOk(spans, n) && n <= |text| && f.start < f.end <= |text|
    requires forall s | s in spans :: !Overlaps(s, f)
    requires exists p :: f.start <= p < f.end && text[p] != ' '
    ensures Clear(Merged(text, spans), f.start, f.end)
    decreases |spans|
  {
    if spans == [] {
    } else {
      var front, s := spans[..|spans| - 1], spans[|spans| - 1];
      assert spans == front + [s];
      SolidSurvives(text, front, s.start, f);
      MergedOk(text, front, s.start);
      var cuts := Merged(text, front);
      var k := |cuts| - 1;
      assert s in spans;
      if cuts != [] && cuts[k].entity == s.entity && SpacesOnly(Slice(text, cuts[k].end, s.start)) {
        if cuts[k].end <= f.start && f.end <= s.start {
          var p :| f.start <= p < f.end && text[p] != ' ';
          GapIsSpaces(text, cuts[k].end, s.start, p);
        }
        ClearAppend(cuts[..k], Cut(cuts[k].start, s.end, s.entity), f.start, f.end);
      } else {
        ClearAppend(cuts, Cut(s.start, s.end, s.entity), f.start, f.end);
      }
    }
  }

  lemma ClearAppend(front: seq<Cut>, c: Cut, start: nat, end: nat)
    ensures Clear(front + [c], start, end) <==> (c.end <= start || end <= c.start) && Clear(front, start, end)
  {
    assert (front + [c])[..|front + [c]| - 1] == front;
  }

  lemma InOrderApart(spans: seq<Span>, a: Span, b: Span)
    requires InOrder(spans) && a in spans && b in spans && a != b
    ensures !Overlaps(a, b)
  {
    var i :| 0 <= i < |spans| && spans[i] == a;
    var j :| 0 <= j < |spans| && spans[j] == b;
    assert spans[if i < j then i else j].end <= spans[if i < j then j else i].start;
  }

  lemma NotBlankInside(text: string, start: nat, end: nat)
    requires start <= end <= |text| && !IsBlank(text[start..end])
    ensures exists p :: start <= p < end && text[p] != ' '
  {
    var c :| c in text[start..end] && !IsSpace(c);
    var q :| 0 <= q < end - start && text[start..end][q] == c;
    assert text[start + q] != ' ';
  }

  /** The characters of [start, end) are copied as one piece, and occur so in the redacted text. */
  ghost predicate Copied(text: string, spans: seq<Span>, start: nat, end: nat) {
    && start <= end <= |text| && SpansOk(spans, |text|) && CutsOk(Merged(text, spans), |text|)
    && Occurs(Identity(|text|)[start..end], Layout(|text|, Merged(text, spans)))
    && Occurs(text[start..end], Redacted(text, spans))
  }

  /** Among disjoint kept detections, one that is not redacted and not blank is copied whole, from its own place. */
  lemma UnredactedIsKept(text: string, kept: seq<Span>, evidence: string, lower: string -> string, f: Span)
    requires Inside(kept, |text|) && InOrder(kept) && SpansOk(kept, |text|)
    requires f in kept && f !in Redactable(text, evidence, lower, kept) && !IsBlank(text[f.start..f.end])
    ensures Copied(text, Redactable(text, evidence, lower, kept), f.start, f.end)
  {
    var spans := Redactable(text, evidence, lower, kept);
    RedactableOk(text, evidence, lower, kept, |text|);
    forall s | s in spans ensures !Overlaps(s, f) {
      RedactableAre(text, evidence, lower, kept, s);
      InOrderApart(kept, s, f);
    }
    NotBlankInside(text, f.start, f.end);
    SolidSurvives(text, spans, |text|, f);
    MergedOk(text, spans, |text|);
    ClearSurvives(text, Merged(text, spans), f.start, f.end, Marker);
    ClearSurvives(Identity(|text|), Merged(text, spans), f.start, f.end, MarkerCells);
  }

  /** Among disjoint kept detections, a flagged one is copied whole, from its own place. */
  lemma FlaggedIsKept(text: string, kept: seq<Span>, evidence: string, lower: string -> string, f: Span)
    requires Inside(kept, |text|) && InOrder(kept) && SpansOk(kept, |text|)
    requires f in kept && CategoryOf(f.entity).Some? && MatchesEvidence(text, evidence, lower, f)
    ensures Copied(text, Redactable(text, evidence, lower, kept), f.start, f.end)
  {
    RedactableAre(text, evidence, lower, kept, f);
    UnredactedIsKept(text, kept, evidence, lower, f);
  }

  /** A detection of no category is left as it was. */
  lemma UnknownIsKept(text: string, raw: seq<Span>, evidence: string, lower: string -> string, f: Span)
    requires Inside(raw, |text|) && Inside(Resolved(raw), |text|)
    requires f in Resolved(raw) && CategoryOf(f.entity).None? && !IsBlank(text[f.start..f.end])
    ensures Copied(text, Redactable(text, evidence, lower, Resolved(raw)), f.start, f.end)
  {
    ResolvedOk(text, raw);
    ResolvedIsMaximal(raw);
    RedactableAre(text, evidence, lower, Resolved(raw), f);
    UnredactedIsKept(text, Resolved(raw), evidence, lower, f);
  }

  /** Every FLAGGED detection is in the reviewed text, as it was and from its own place. */
  lemma FlaggedSurvives(text: string, raw: seq<Span>, evidence: string, lower: string -> string, f: Span)
    requires Inside(raw, |text|) && Inside(Resolved(raw), |text|)
    requires f in Resolved(raw) && CategoryOf(f.entity).Some? && MatchesEvidence(text, evidence, lower, f)
    ensures Copied(text, Redactable(text, evidence, lower, Resolved(raw)), f.start, f.end)
  {
    ResolvedOk(text, raw);
    ResolvedIsMaximal(raw);
    FlaggedIsKept(text, Resolved(raw), evidence, lower, f);
  }

  /** Among disjoint kept detections, any other recognised one lies inside the merged spans. */
  lemma UnmatchedIsCut(text: string, kept: seq<Span>, evidence: string, lower: string -> string, s: Span, p: nat)
    requires Inside(kept, |text|) && SpansOk(kept, |text|)
    requires s in kept && CategoryOf(s.entity).Some? && !MatchesEvidence(text, evidence, lower, s)
    requires s.start <= p < s.end
    ensures var spans := Redactable(text, evidence, lower, kept);
      SpansOk(spans, |text|) && CutsCover(Merged(text, spans), p) && p !in Uncovered(Merged(text, spans), |text|)
  {
    var spans := Redactable(text, evidence, lower, kept);
    RedactableOk(text, evidence, lower, kept, |text|);
    RedactableAre(text, evidence, lower, kept, s);
    MergedCovers(text, spans, |text|, p);
    NotUncovered(Merged(text, spans), |text|, p);
  }

  /**
   Every other recognised detection is redacted: none of its characters is copied, each lies inside
   a merged span.
  */
  lemma UnmatchedIsRedacted(text: string, raw: seq<Span>, evidence: string, lower: string -> string, s: Span, p: nat)
    requires Inside(raw, |text|) && Inside(Resolved(raw), |text|)
    requires s in Resolved(raw) && CategoryOf(s.entity).Some? && !MatchesEvidence(text, evidence, lower, s)
    requires s.start <= p < s.end
    ensures var spans := Redactable(text, evidence, lower, Resolved(raw));
      SpansOk(spans, |text|) && CutsCover(Merged(text, spans), p) && p !in Uncovered(Merged(text, spans), |text|)
  {
    ResolvedOk(text, raw);
    UnmatchedIsCut(text, Resolved(raw), evidence, lower, s, p);
  }

  /** A structured identifier is redacted even when it is quoted from the evidence. */
  lemma StructuredIsRedacted(text: string, raw: seq<Span>, evidence: string, lower: string -> string, s: Span, p: nat)
    requires Inside(raw, |text|) && Inside(Resolved(raw), |text|) && s in Resolved(raw) && s.start <= p < s.end
    requires s.entity in {"US_SSN", "CREDIT_CARD", "IBAN_CODE", "US_BANK_NUMBER", "IP_ADDRESS", "CRYPTO", "IN_PAN",
                          "IN_AADHAAR"}
    ensures var spans := Redactable(text, evidence, lower, Resolved(raw));
      SpansOk(spans, |text|) && CutsCover(Merged(text, spans), p) && p !in Uncovered(Merged(text, spans), |text|)
  {
    UnmatchedIsRedacted(text, raw, evidence, lower, s, p);
  }

  // ---------------------------------------------------------------------
  // What is looked for, and what is reported
  // ---------------------------------------------------------------------

  /** Blank at both ends around t. */
  ghost predicate Padded(s: string, t: string) { exists a, b :: s == a + t + b && IsBlank(a) && IsBlank(b) }

  predicate Trimmed(t: string) { t != "" ==> !IsSpace(t[0]) && !IsSpace(t[|t| - 1]) }

  lemma PaddedLeft(c: char, s: string, t: string)
    requires IsSpace(c) && Padded(s, t)
    ensures Padded([c] + s, t)
  {
    var a, b :| s == a + t + b && IsBlank(a) && IsBlank(b);
    assert [c] + s == ([c] + a) + t + b && IsBlank([c] + a);
  }

  lemma PaddedRight(c: char, s: string, t: string)
    requires IsSpace(c) && Padded(s, t)
    ensures Padded(s + [c], t)
  {
    var a, b :| s == a + t + b && IsBlank(a) && IsBlank(b);
    assert s + [c] == a + t + (b + [c]) && IsBlank(b + [c]);
  }

  /** Strip takes whitespace from both ends and nothing else. */
  lemma {:induction false} StripIs(s: string)
    ensures Padded(s, Strip(s)) && Trimmed(Strip(s))
    decreases |s|
  {
    if s == "" {
      assert s == "" + s + "" && IsBlank("");
    } else if IsSpace(s[0]) {
      var c, t := s[0], s[1..];
      assert s == [c] + t && Strip(s) == Strip(t);
      StripIs(t);
      PaddedLeft(c, t, Strip(t));
    } else if IsSpace(s[|s| - 1]) {
      var t, c := s[..|s| - 1], s[|s| - 1];
      assert s == t + [c] && Strip(s) == Strip(t);
      StripIs(t);
      PaddedRight(c, t, Strip(t));
    } else {
      assert s == "" + s + "" && IsBlank("");
    }
  }

  /**
   A detection is flagged exactly when it is a contact or a named entity whose text, without the whitespace around
   it, is not empty and occurs in the evidence regardless of case.
  */
  lemma FlaggedIff(text: string, evidence: string, lower: string -> string, s: Span)
    requires s.start <= s.end <= |text|
    ensures CategoryOf(s.entity).Some? && MatchesEvidence(text, evidence, lower, s) <==>
      && s.entity in {"EMAIL_ADDRESS", "PHONE_NUMBER", "PERSON", "LOCATION", "ORGANIZATION"}
      && Strip(text[s.start..s.end]) != "" && evidence != ""
      && Occurs(lower(Strip(text[s.start..s.end])), lower(evidence))
  {
    CategoriesAre(s.entity);
    ContainsIff(lower(evidence), lower(Strip(text[s.start..s.end])));
  }

  lemma ContainsIff(hay: string, needle: string)
    ensures Contains(hay, needle) <==> Occurs(needle, hay)
  {
    if i :| 0 <= i <= |hay| && FoundAt(hay, needle, i) {
      assert hay == hay[..i] + needle + hay[i + |needle|..];
    }
    if a, b :| hay == a + needle + b {
      assert hay[|a|..|a| + |needle|] == needle;
      assert FoundAt(hay, needle, |a|);
    }
  }

  /** Each kept detection of a category is reported in its turn, and no other. */
  lemma {:induction false} ReportedInTurn(text: string, evidence: string, lower: string -> string, kept: seq<Span>,
                                          i: nat)
    requires Inside(kept, |text|) && i < |kept|
    ensures Inside(kept[..i], |text|)
    ensures var n, all := |Reported(text, evidence, lower, kept[..i])|, Reported(text, evidence, lower, kept);
      match CategoryOf(kept[i].entity)
      case None => n <= |all| && (i == |kept| - 1 ==> n == |all|)
      case Some(category) =>
        && n < |all| && (i == |kept| - 1 ==> n + 1 == |all|)
        && all[n].entity == kept[i].entity && all[n].category == category
        && (all[n].action == ToRedact <==> kept[i] in Redactable(text, evidence, lower, kept))
        && (all[n].action == Flagged <==> all[n].evidenceMatched)
        && (all[n].evidenceMatched <==> MatchesEvidence(text, evidence, lower, kept[i]))
    decreases |kept|
  {
    var k := |kept| - 1;
    RedactableAre(text, evidence, lower, kept, kept[i]);
    if i < k {
      var front := kept[..k];
      assert front[..i] == kept[..i] && front[i] == kept[i];
      ReportedInTurn(text, evidence, lower, front, i);
      RedactableAre(text, evidence, lower, front, kept[i]);
      var before, all := Reported(text, evidence, lower, front), Reported(text, evidence, lower, kept);
      assert |before| <= |all| && all[..|before|] == before;
    }
  }

  lemma {:induction false} NotUncovered(cuts: seq<Cut>, n: nat, p: nat)
    requires CutsCover(cuts, p)
    ensures p !in Uncovered(cuts, n)
  {
    if n == 0 {
    } else {
      NotUncovered(cuts, n - 1, p);
    }
  }
}

/** Overlap resolution: which of the detections on one text are acted on. */
module PiiSpans {
  import opened Common
  import opened Sorting

  datatype Span = Span(start: nat, end: nat, score: real, entity: string)

  datatype Category = StructuredId | Contact | NamedEntity

  function CategoryOf(entity: string): Option<Category> {
    if entity in {"US_SSN", "CREDIT_CARD", "IBAN_CODE", "US_BANK_NUMBER", "IP_ADDRESS", "CRYPTO", "IN_PAN",
                  "IN_AADHAAR"} then Some(StructuredId)
    else if entity in {"EMAIL_ADDRESS", "PHONE_NUMBER"} then Some(Contact)
    else if entity in {"PERSON", "LOCATION", "ORGANIZATION"} then Some(NamedEntity)
    else None
  }

  function Priority(span: Span): real {
    match CategoryOf(span.entity)
    case Some(StructuredId) => 2.0
    case Some(Contact) => 1.0
    case Some(NamedEntity) => 0.0
    case None => -1.0
  }

  /** (score, category priority): what decides between overlapping detections. */
  function Strength(span: Span): Key { Key(span.score, Priority(span)) }

  function StrongestFirst(span: Span): Key { Reversed(Strength(span)) }

  function ByStart(span: Span): Key { Key(span.start as real, 0.0) }

  predicate Overlaps(a: Span, b: Span) { a.start < b.end && b.start < a.end }

  /** The greedy pass: keep a detection if it overlaps none kept before it. */
  function Greedy(spans: seq<Span>): (kept: seq<Span>)
    ensures forall k | k in kept :: k in spans
  {
    if spans == [] then []
    else
      var kept, last := Greedy(spans[..|spans| - 1]), spans[|spans| - 1];
      if exists other | other in kept :: Overlaps(last, other) then kept else kept + [last]
  }

  function Resolved(results: seq<Span>): seq<Span> { SortBy(Greedy(SortBy(results, StrongestFirst)), ByStart) }

  /** _resolve_overlaps() */
  method ResolveOverlaps(results: seq<Span>) returns (resolved: seq<Span>)
    ensures resolved == Resolved(results)
  {
    var ordered := SortBy(results, StrongestFirst);
    var kept := [];
    for i := 0 to |ordered|
      invariant kept == Greedy(ordered[..i])
    {
      assert ordered[..i + 1][..i] == ordered[..i];
      if exists other | other in kept :: Overlaps(ordered[i], other) {
        continue;
      }
      kept := kept + [ordered[i]];
    }
    assert ordered[..|ordered|] == ordered;
    resolved := SortBy(kept, ByStart);
  }

  // ---------------------------------------------------------------------
  // What the kept detections are
  // ---------------------------------------------------------------------

  ghost predicate NonEmpty(spans: seq<Span>) { forall s | s in spans :: s.start < s.end }

  ghost predicate PairwiseDisjoint(spans: seq<Span>) {
    forall i, j | 0 <= i < j < |spans| :: !Overlaps(spans[i], spans[j])
  }

  lemma {:induction false} GreedyDisjoint(spans: seq<Span>)
    ensures PairwiseDisjoint(Greedy(spans))
  {
    if spans == [] {
    } else {
      var kept, all := Greedy(spans[..|spans| - 1]), Greedy(spans);
      GreedyDisjoint(spans[..|spans| - 1]);
      forall i, j | 0 <= i < j < |all| ensures !Overlaps(all[i], all[j]) {
        assert all[i] in kept;
      }
    }
  }

  /** A detection before position i in strength order is kept, or overlaps one kept before it. */
  lemma {:induction false} GreedyDropped(spans: seq<Span>, i: nat)
    requires i < |spans|
    ensures spans[i] in Greedy(spans) ||
            exists k :: 0 <= k < i && spans[k] in Greedy(spans) && Overlaps(spans[i], spans[k])
  {
    var n := |spans| - 1;
    if i < n {
      GreedyDropped(spans[..n], i);
      if spans[i] !in Greedy(spans[..n]) {
        var k :| 0 <= k < i && spans[..n][k] in Greedy(spans[..n]) && Overlaps(spans[i], spans[..n][k]);
        assert spans[k] in Greedy(spans);
      }
    } else if other :| other in Greedy(spans[..n]) && Overlaps(spans[n], other) {
      var k :| 0 <= k < n && spans[..n][k] == other;
      assert spans[k] in Greedy(spans);
    }
  }

  lemma DisjointAsSet(spans: seq<Span>, a: Span, b: Span)
    requires PairwiseDisjoint(spans) && a in spans && b in spans && a != b
    ensures !Overlaps(a, b)
  {
    var i :| 0 <= i < |spans| && spans[i] == a;
    var j :| 0 <= j < |spans| && spans[j] == b;
    assert !Overlaps(spans[if i < j then i else j], spans[if i < j then j else i]);
  }

  /** In start order, disjoint non-empty spans follow one another. */
  ghost predicate InOrder(spans: seq<Span>) {
    forall i, j | 0 <= i < j < |spans| :: spans[i].end <= spans[j].start
  }

  lemma {:induction false} DistinctAsCounts<T>(s: seq<T>)
    ensures Distinct(s) <==> forall x | x in s :: multiset(s)[x] == 1
  {
    if s == [] {
    } else {
      var n := |s| - 1;
      DistinctAsCounts(s[..n]);
      assert s == s[..n] + [s[n]];
      assert multiset(s) == multiset(s[..n]) + multiset{s[n]};
      if s[n] in s[..n] {
        assert s[n] in multiset(s[..n]) && multiset(s)[s[n]] >= 2;
        var k :| 0 <= k < n && s[..n][k] == s[n];
        assert s[k] == s[n];
      } else if !Distinct(s[..n]) {
        var x :| x in s[..n] && multiset(s[..n])[x] != 1;
        assert x in s && multiset(s)[x] != 1;
        var i, j :| 0 <= i < j < n && s[..n][i] == s[..n][j];
        assert s[i] == s[j];
      }
    }
  }

  lemma DistinctSorted(kept: seq<Span>)
    requires Distinct(kept)
    ensures Distinct(SortBy(kept, ByStart))
  {
    DistinctAsCounts(kept);
    SameElements(kept, ByStart);
    DistinctAsCounts(SortBy(kept, ByStart));
  }

  lemma SortedByStart(kept: seq<Span>)
    requires PairwiseDisjoint(kept) && NonEmpty(kept)
    ensures InOrder(SortBy(kept, ByStart)) && NonEmpty(SortBy(kept, ByStart))
  {
    var sorted := SortBy(kept, ByStart);
    SortBySorted(kept, ByStart);
    SameElements(kept, ByStart);
    forall i, j | 0 <= i < j < |kept| ensures kept[i] != kept[j] {
      assert kept[i] in kept && !Overlaps(kept[i], kept[j]);
    }
    DistinctSorted(kept);
    forall i, j | 0 <= i < j < |sorted| ensures sorted[i].end <= sorted[j].start {
      assert sorted[i] in kept && sorted[j] in kept;
      DisjointAsSet(kept, sorted[i], sorted[j]);
      assert !Less(ByStart(sorted[j]), ByStart(sorted[i]));
    }
  }

  /**
   The kept detections are detections, follow one another in the text without overlapping, and
   every detection left out overlaps a kept one at least as strong.
  */
  lemma ResolvedIsMaximal(results: seq<Span>)
    requires NonEmpty(results)
    ensures InOrder(Resolved(results)) && NonEmpty(Resolved(results))
    ensures forall s | s in Resolved(results) :: s in results
    ensures forall s | s in results && s !in Resolved(results) ::
      exists k :: k in Resolved(results) && Overlaps(s, k) && !Less(Strength(k), Strength(s))
  {
    var ordered := SortBy(results, StrongestFirst);
    var kept := Greedy(ordered);
    SameElements(results, StrongestFirst);
    SameElements(kept, ByStart);
    GreedyDisjoint(ordered);
    SortedByStart(kept);
    forall s | s in results && s !in kept
      ensures exists k :: k in Resolved(results) && Overlaps(s, k) && !Less(Strength(k), Strength(s))
    {
      var k := Stronger(results, s);
    }
  }

  /** The kept detection that a dropped one gave way to. */
  lemma Stronger(results: seq<Span>, s: Span) returns (k: Span)
    requires s in results && s !in Greedy(SortBy(results, StrongestFirst))
    ensures k in Greedy(SortBy(results, StrongestFirst)) && Overlaps(s, k) && !Less(Strength(k), Strength(s))
  {
    var ordered := SortBy(results, StrongestFirst);
    SameElements(results, StrongestFirst);
    SortBySorted(results, StrongestFirst);
    var i :| 0 <= i < |ordered| && ordered[i] == s;
    GreedyDropped(ordered, i);
    var j :| 0 <= j < i && ordered[j] in Greedy(ordered) && Overlaps(ordered[i], ordered[j]);
    k := ordered[j];
    assert !Less(StrongestFirst(ordered[i]), StrongestFirst(ordered[j]));
  }

  // ---------------------------------------------------------------------
  // Which of two overlapping detections wins
  // ---------------------------------------------------------------------

  /** The entities of each category. */
  lemma CategoriesAre(entity: string)
    ensures CategoryOf(entity) == Some(StructuredId) <==>
      || entity == "US_SSN" || entity == "CREDIT_CARD" || entity == "IBAN_CODE" || entity == "US_BANK_NUMBER"
      || entity == "IP_ADDRESS" || entity == "CRYPTO" || entity == "IN_PAN" || entity == "IN_AADHAAR"
    ensures CategoryOf(entity) == Some(Contact) <==> entity == "EMAIL_ADDRESS" || entity == "PHONE_NUMBER"
    ensures CategoryOf(entity) == Some(NamedEntity) <==>
      entity == "PERSON" || entity == "LOCATION" || entity == "ORGANIZATION"
  {}

  /** Structured ids above contacts above named entities above everything else. */
  predicate AtLeast(a: Option<Category>, b: Option<Category>) {
    || b == None || a == Some(StructuredId)
    || (a == Some(Contact) && b != Some(StructuredId))
    || (a == Some(NamedEntity) && b == Some(NamedEntity))
  }

  predicate Holds(s: Span, p: nat) { s.start <= p < s.end }

  ghost predicate ShareCharacter(a: Span, b: Span) { exists p :: Holds(a, p) && Holds(b, p) }

  lemma SharedWhenOverlapping(a: Span, b: Span)
    requires a.start < a.end && b.start < b.end
    ensures ShareCharacter(a, b) <==> Overlaps(a, b)
  {
    var p := if a.start < b.start then b.start else a.start;
    assert Overlaps(a, b) ==> Holds(a, p) && Holds(b, p);
  }

  /** Stronger by confidence, and between equally confident ones by category. */
  predicate Prevails(k: Span, s: Span) {
    k.score > s.score || (k.score == s.score && AtLeast(CategoryOf(k.entity), CategoryOf(s.entity)))
  }

  lemma PrevailsIsStrength(k: Span, s: Span)
    ensures Prevails(k, s) <==> !Less(Strength(k), Strength(s))
  {}

  /** A detection left out shares a character with a kept one that is more confident, or as confident and as high. */
  lemma DroppedGivesWay(results: seq<Span>, s: Span)
    requires NonEmpty(results) && s in results && s !in Resolved(results)
    ensures exists k ::
              && k in Resolved(results) && ShareCharacter(k, s)
              && (k.score > s.score || (k.score == s.score && AtLeast(CategoryOf(k.entity), CategoryOf(s.entity))))
  {
    ResolvedIsMaximal(results);
    var k :| k in Resolved(results) && Overlaps(s, k) && !Less(Strength(k), Strength(s));
    SharedWhenOverlapping(k, s);
    PrevailsIsStrength(k, s);
  }

  /**
   A detection that is more confident than every other one sharing a character with it is kept, whatever its
   category; between equally confident ones the higher category is kept.
  */
  lemma StrongestIsKept(results: seq<Span>, s: Span)
    requires NonEmpty(results) && s in results
    requires forall k | k in results && k != s && ShareCharacter(k, s) ::
      s.score > k.score || (s.score == k.score && !AtLeast(CategoryOf(k.entity), CategoryOf(s.entity)))
    ensures s in Resolved(results)
  {
    if s !in Resolved(results) {
      DroppedGivesWay(results, s);
      var k :| k in Resolved(results) && ShareCharacter(k, s) && Prevails(k, s);
      ResolvedIsMaximal(results);
      assert false;
    }
  }

  // ---------------------------------------------------------------------
  // Order independence
  // ---------------------------------------------------------------------

  /** The greedy pass over the detections, before they are put in start order. */
  function Kept(results: seq<Span>): seq<Span> { Greedy(SortBy(results, StrongestFirst)) }

  predicate Weaker(a: Span, b: Span) { Less(Strength(a), Strength(b)) }

  /** No strictly stronger kept detection overlaps s. */
  ghost predicate Unbeaten(kept: seq<Span>, s: Span) { forall k | k in kept && Weaker(s, k) :: !Overlaps(s, k) }

  /** Two overlapping detections of equal score and priority, neither of which a stronger one decides. */
  ghost predicate Contested(results: seq<Span>, a: Span, b: Span) {
    && a in results && b in results && a != b && Overlaps(a, b) && Strength(a) == Strength(b)
    && Unbeaten(Resolved(results), a) && Unbeaten(Resolved(results), b)
  }

  lemma ResolvedAreKept(results: seq<Span>)
    ensures forall s :: s in Resolved(results) <==> s in Kept(results)
    ensures forall s | s in Kept(results) :: s in results
    ensures PairwiseDisjoint(Kept(results))
  {
    SameElements(Kept(results), ByStart);
    SameElements(results, StrongestFirst);
    GreedyDisjoint(SortBy(results, StrongestFirst));
  }

  lemma KeptIsUnbeaten(results: seq<Span>, s: Span)
    requires s in Kept(results)
    ensures Unbeaten(Kept(results), s)
  {
    ResolvedAreKept(results);
    forall k | k in Kept(results) && Weaker(s, k) ensures !Overlaps(s, k) {
      DisjointAsSet(Kept(results), s, k);
    }
  }

  /** What every detection stronger than s being kept alike says about s. */
  ghost predicate StrongerAlike(xs: seq<Span>, ys: seq<Span>, s: Span) {
    forall k | k in xs && Weaker(s, k) :: k in Kept(xs) <==> k in Kept(ys)
  }

  ghost predicate SameMembers(xs: seq<Span>, ys: seq<Span>) { forall s :: s in xs <==> s in ys }

  ghost predicate NoContest(xs: seq<Span>) { forall a, b :: !Contested(xs, a, b) }

  /** A detection kept in one order and dropped in another is contested. */
  lemma DroppedIsContested(xs: seq<Span>, zs: seq<Span>, ys: seq<Span>, s: Span)
    requires SameMembers(zs, ys) && SameMembers(xs, zs) && (xs == zs || xs == ys)
    requires s in Kept(zs) && s in ys && s !in Kept(ys)
    requires StrongerAlike(zs, ys, s) && StrongerAlike(ys, zs, s)
    ensures exists k :: Contested(xs, s, k)
  {
    ResolvedAreKept(xs);
    ResolvedAreKept(ys);
    ResolvedAreKept(zs);
    var k := Stronger(ys, s);
    if Weaker(s, k) {
      DisjointAsSet(Kept(zs), s, k);
      assert false;
    }
    KeptIsUnbeaten(zs, s);
    KeptIsUnbeaten(ys, k);
    assert Strength(k) == Strength(s);
    assert Contested(xs, s, k);
  }

  /** Without a contest, what one order keeps any other order of the same detections keeps. */
  lemma {:induction false} KeptAlike(xs: seq<Span>, ys: seq<Span>, i: nat)
    requires SameMembers(xs, ys) && NoContest(xs) && i < |SortBy(xs, StrongestFirst)|
    ensures var s := SortBy(xs, StrongestFirst)[i]; s in Kept(xs) <==> s in Kept(ys)
    decreases i
  {
    var ox := SortBy(xs, StrongestFirst);
    var s := ox[i];
    SameElements(xs, StrongestFirst);
    SortBySorted(xs, StrongestFirst);
    forall j | 0 <= j < i ensures ox[j] in Kept(xs) <==> ox[j] in Kept(ys) {
      KeptAlike(xs, ys, j);
    }
    forall k | k in xs && Weaker(s, k) ensures k in Kept(xs) <==> k in Kept(ys) {
      var j := EarlierStandsBefore(xs, StrongestFirst, i, k);
    }
    if s in Kept(xs) && s !in Kept(ys) {
      DroppedIsContested(xs, xs, ys, s);
    }
    if s !in Kept(xs) && s in Kept(ys) {
      DroppedIsContested(xs, ys, xs, s);
    }
  }

  lemma SameFirst(xs: seq<Span>, ys: seq<Span>)
    requires InOrder(xs) && InOrder(ys) && NonEmpty(xs) && NonEmpty(ys) && xs != [] && ys != []
    requires xs[0] in ys && ys[0] in xs
    ensures xs[0] == ys[0]
  {
    assert xs[0] in xs && ys[0] in ys;
    var i :| 0 <= i < |ys| && ys[i] == xs[0];
    var j :| 0 <= j < |xs| && xs[j] == ys[0];
  }

  /** In order, the first span is not met again. */
  lemma FirstOnce(xs: seq<Span>)
    requires InOrder(xs) && NonEmpty(xs) && xs != []
    ensures xs[0] !in xs[1..] && InOrder(xs[1..]) && NonEmpty(xs[1..])
    ensures forall s :: s in xs <==> s == xs[0] || s in xs[1..]
  {
    assert xs == [xs[0]] + xs[1..];
    forall k | 1 <= k < |xs| ensures xs[k] != xs[0] {
      assert xs[0] in xs && xs[0].end <= xs[k].start;
    }
  }

  /** Spans in order are determined by which spans they are. */
  lemma {:induction false} InOrderUnique(xs: seq<Span>, ys: seq<Span>)
    requires InOrder(xs) && InOrder(ys) && NonEmpty(xs) && NonEmpty(ys)
    requires forall s :: s in xs <==> s in ys
    ensures xs == ys
    decreases |xs|
  {
    assert xs != [] ==> xs[0] in xs;
    assert ys != [] ==> ys[0] in ys;
    if xs == [] {
    } else {
      SameFirst(xs, ys);
      FirstOnce(xs);
      FirstOnce(ys);
      InOrderUnique(xs[1..], ys[1..]);
      assert xs == [xs[0]] + xs[1..] && ys == [ys[0]] + ys[1..];
    }
  }

  /** Without a contest, the order the recognizers ran in does not matter. */
  lemma OrderDoesNotMatter(xs: seq<Span>, ys: seq<Span>)
    requires multiset(xs) == multiset(ys) && NonEmpty(xs) && NoContest(xs)
    ensures Resolved(xs) == Resolved(ys)
  {
    SameMultiset(xs, ys);
    var ox := SortBy(xs, StrongestFirst);
    SameElements(xs, StrongestFirst);
    ResolvedAreKept(xs);
    ResolvedAreKept(ys);
    forall s ensures s in Kept(xs) <==> s in Kept(ys) {
      if s in xs {
        var i :| 0 <= i < |ox| && ox[i] == s;
        KeptAlike(xs, ys, i);
      }
    }
    ResolvedIsMaximal(xs);
    ResolvedIsMaximal(ys);
    InOrderUnique(Resolved(xs), Resolved(ys));
  }

  lemma SameMultiset(xs: seq<Span>, ys: seq<Span>)
    requires multiset(xs) == multiset(ys)
    ensures SameMembers(xs, ys)
  {
    forall s ensures s in xs <==> s in ys {
      assert s in xs <==> s in multiset(xs);
      assert s in ys <==> s in multiset(ys);
    }
  }

  // ---------------------------------------------------------------------
  // A contest depends on the order
  // ---------------------------------------------------------------------

  /** What is kept before a bound, in strength order, depends on nothing from the bound on. */
  lemma {:induction false} EarlierGreedy(spans: seq<Span>, key: Span -> Key, bound: Key, k: Span)
    requires Sorted(spans, key) && Less(key(k), bound)
    ensures k in Greedy(spans) <==> k in Greedy(Earlier(spans, key, bound))
  {
    if spans == [] {
    } else {
      var front, last := spans[..|spans| - 1], spans[|spans| - 1];
      if Less(key(last), bound) {
        AllEarlier(spans, key, bound);
      } else {
        assert Sorted(front, key);
        EarlierGreedy(front, key, bound, k);
        assert k != last;
      }
    }
  }

  /** Moving a to the front changes nothing for what is stronger than a. */
  lemma FrontKeepsStronger(xs: seq<Span>, a: Span, k: Span)
    requires Weaker(a, k)
    ensures k in Kept(Front(xs, a)) <==> k in Kept(xs)
  {
    var key, ys := StrongestFirst, Front(xs, a);
    FrontEarlier(xs, a, key);
    SortBySorted(xs, key);
    SortBySorted(ys, key);
    EarlierSort(xs, key, key(a));
    EarlierSort(ys, key, key(a));
    EarlierGreedy(SortBy(xs, key), key, key(a), k);
    EarlierGreedy(SortBy(ys, key), key, key(a), k);
  }

  /** In front, a detection that no stronger one beats is kept. */
  lemma FrontIsKept(xs: seq<Span>, a: Span)
    requires a in xs && Unbeaten(Kept(xs), a)
    ensures a in Kept(Front(xs, a))
  {
    var ys := Front(xs, a);
    var oy := SortBy(ys, StrongestFirst);
    FrontPermutes(xs, a);
    SameMultiset(ys, xs);
    SameElements(ys, StrongestFirst);
    SortBySorted(ys, StrongestFirst);
    SortByStable(ys, StrongestFirst);
    if a !in Kept(ys) {
      var i :| 0 <= i < |oy| && oy[i] == a;
      GreedyDropped(oy, i);
      var j :| 0 <= j < i && oy[j] in Greedy(oy) && Overlaps(a, oy[j]);
      var k := oy[j];
      assert !Less(StrongestFirst(oy[i]), StrongestFirst(oy[j]));
      if Weaker(a, k) {
        FrontKeepsStronger(xs, a, k);
        assert false;
      }
      assert Precedes(ys, k, a);
      FrontIsFirst(xs, a, k);
    }
  }

  /** A contest goes to whichever of the two comes first. */
  lemma ContestDependsOnOrder(xs: seq<Span>, a: Span, b: Span)
    requires Contested(xs, a, b)
    ensures multiset(Front(xs, a)) == multiset(xs) == multiset(Front(xs, b))
    ensures a in Resolved(Front(xs, a)) && b !in Resolved(Front(xs, a))
    ensures b in Resolved(Front(xs, b)) && a !in Resolved(Front(xs, b))
  {
    ResolvedAreKept(xs);
    ResolvedAreKept(Front(xs, a));
    ResolvedAreKept(Front(xs, b));
    FrontPermutes(xs, a);
    FrontPermutes(xs, b);
    FrontIsKept(xs, a);
    FrontIsKept(xs, b);
    if b in Kept(Front(xs, a)) {
      DisjointAsSet(Kept(Front(xs, a)), a, b);
    }
    if a in Kept(Front(xs, b)) {
      DisjointAsSet(Kept(Front(xs, b)), a, b);
    }
  }

  /** Every order of these detections is resolved alike. */
  ghost predicate OrderIndependent(xs: seq<Span>) {
    forall ys | multiset(ys) == multiset(xs) :: Resolved(ys) == Resolved(xs)
  }

  /** The order of the detections matters exactly when two of them are contested. */
  lemma OrderMattersIffContested(xs: seq<Span>)
    requires NonEmpty(xs)
    ensures OrderIndependent(xs) <==> NoContest(xs)
  {
    if NoContest(xs) {
      forall ys | multiset(ys) == multiset(xs) ensures Resolved(ys) == Resolved(xs) {
        OrderDoesNotMatter(xs, ys);
      }
    } else {
      var a, b :| Contested(xs, a, b);
      ContestDependsOnOrder(xs, a, b);
      assert Resolved(Front(xs, a)) != Resolved(Front(xs, b));
    }
  }
}

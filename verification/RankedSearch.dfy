/** What the fused ranking guarantees, and the search that falls back on it. */
module RankedSearch {
  import opened Common
  import opened Sorting
  import opened RankFusion

  function Ids(hits: seq<Hit>): (ids: seq<string>)
    ensures |ids| == |hits| && forall i | 0 <= i < |hits| :: ids[i] == hits[i].chunk.id
  {
    seq(|hits|, i requires 0 <= i < |hits| => hits[i].chunk.id)
  }

  function FusedIds(fused: seq<Fused>): (ids: seq<string>)
    ensures |ids| == |fused| && forall i | 0 <= i < |fused| :: ids[i] == fused[i].hit.chunk.id
  {
    seq(|fused|, i requires 0 <= i < |fused| => fused[i].hit.chunk.id)
  }

  // ---------------------------------------------------------------------
  // Each chunk once, with its score, best first
  // ---------------------------------------------------------------------

  lemma {:induction false} KeptExactly(hits: seq<Hit>, id: string)
    ensures Kept(hits, id).Some? <==> id in FirstSeen(hits)
    ensures Kept(hits, id).Some? ==> Kept(hits, id).value.chunk.id == id
  {
    if hits == [] {
    } else {
      KeptExactly(hits[..|hits| - 1], id);
    }
  }

  lemma {:induction false} FlatMembers(lists: seq<seq<Hit>>)
    ensures forall h :: h in Flat(lists) <==> exists l :: 0 <= l < |lists| && h in lists[l]
  {
    if lists == [] {
    } else {
      var front, last := lists[..|lists| - 1], lists[|lists| - 1];
      FlatMembers(front);
      forall h ensures h in Flat(lists) <==> exists l :: 0 <= l < |lists| && h in lists[l] {
        if h in Flat(front) {
          var l :| 0 <= l < |front| && h in front[l];
          assert h in lists[l];
        }
        if l :| 0 <= l < |lists| && h in lists[l] {
          if l < |front| {
            assert h in front[l];
          }
        }
      }
    }
  }

  lemma FusedIdsAre(k: nat, lists: seq<seq<Hit>>)
    requires k >= 1
    ensures FusedIds(FusedList(k, lists)) == SortBy(FirstSeen(Flat(lists)), BestFirst(k, lists))
  {
    var order := SortBy(FirstSeen(Flat(lists)), BestFirst(k, lists));
    SameElements(FirstSeen(Flat(lists)), BestFirst(k, lists));
    forall i | 0 <= i < |order| ensures FusedList(k, lists)[i].hit.chunk.id == order[i] {
      assert order[i] in order;
      KeptExactly(Flat(lists), order[i]);
    }
  }

  lemma {:induction false} SortKeepsDistinct<T>(xs: seq<T>, key: T -> Key)
    requires Distinct(xs)
    ensures Distinct(SortBy(xs, key))
  {
    if xs == [] {
    } else {
      var front, x := xs[..|xs| - 1], xs[|xs| - 1];
      SortKeepsDistinct(front, key);
      SameElements(front, key);
      InsertKeepsDistinct(SortBy(front, key), x, key);
    }
  }

  lemma {:induction false} InsertKeepsDistinct<T>(ys: seq<T>, x: T, key: T -> Key)
    requires Distinct(ys) && x !in ys
    ensures Distinct(Insert(ys, x, key))
  {
    if ys != [] && Less(key(x), key(ys[|ys| - 1])) {
      var front := ys[..|ys| - 1];
      InsertKeepsDistinct(front, x, key);
      forall i | 0 <= i < |Insert(front, x, key)| ensures Insert(front, x, key)[i] != ys[|ys| - 1] {
        assert Insert(front, x, key)[i] in multiset(Insert(front, x, key));
        if Insert(front, x, key)[i] != x {
          assert Insert(front, x, key)[i] in front;
        }
      }
    }
  }

  /** Every chunk of any list appears exactly once, with exactly its score by the formula. */
  lemma EachChunkOnce(k: nat, lists: seq<seq<Hit>>)
    requires k >= 1
    ensures var fused := FusedList(k, lists);
      && Distinct(FusedIds(fused))
      && (forall id :: id in FusedIds(fused) <==> exists l :: 0 <= l < |lists| && id in Ids(lists[l]))
      && forall i | 0 <= i < |fused| :: fused[i].score == FusedScore(k, lists, fused[i].hit.chunk.id)
  {
    var fused, seen := FusedList(k, lists), FirstSeen(Flat(lists));
    FusedIdsAre(k, lists);
    FirstSeenDistinct(Flat(lists));
    SortKeepsDistinct(seen, BestFirst(k, lists));
    SameElements(seen, BestFirst(k, lists));
    forall id ensures id in FusedIds(fused) <==> exists l :: 0 <= l < |lists| && id in Ids(lists[l]) {
      SeenInSomeList(lists, id);
    }
    forall i | 0 <= i < |fused| ensures fused[i].score == FusedScore(k, lists, fused[i].hit.chunk.id) {
      assert FusedIds(fused)[i] == fused[i].hit.chunk.id;
    }
  }

  lemma SeenInSomeList(lists: seq<seq<Hit>>, id: string)
    ensures id in FirstSeen(Flat(lists)) <==> exists l :: 0 <= l < |lists| && id in Ids(lists[l])
  {
    FlatMembers(lists);
    if id in FirstSeen(Flat(lists)) {
      var h :| h in Flat(lists) && h.chunk.id == id;
      var l :| 0 <= l < |lists| && h in lists[l];
      var i :| 0 <= i < |lists[l]| && lists[l][i] == h;
      assert Ids(lists[l])[i] == id;
    }
    if l :| 0 <= l < |lists| && id in Ids(lists[l]) {
      var i :| 0 <= i < |lists[l]| && Ids(lists[l])[i] == id;
      assert lists[l][i] in Flat(lists) && lists[l][i].chunk.id == id;
    }
  }

  /** Scores never rise along the list, and equal scores keep first-seen order. */
  lemma BestFirstThenFirstSeen(k: nat, lists: seq<seq<Hit>>, i: nat, j: nat)
    requires k >= 1 && i < j < |FusedList(k, lists)|
    ensures var fused := FusedList(k, lists);
      && fused[i].score >= fused[j].score
      && (fused[i].score == fused[j].score
          ==> Precedes(FirstSeen(Flat(lists)), fused[i].hit.chunk.id, fused[j].hit.chunk.id))
  {
    var fused, seen, key := FusedList(k, lists), FirstSeen(Flat(lists)), BestFirst(k, lists);
    FusedIdsAre(k, lists);
    SortBySorted(seen, key);
    SortByStable(seen, key);
    var order := SortBy(seen, key);
    assert order[i] == FusedIds(fused)[i] && order[j] == FusedIds(fused)[j];
    assert !Less(key(order[j]), key(order[i]));
    if fused[i].score == fused[j].score {
      assert Tie(key(order[i]), key(order[j]));
    }
  }

  // ---------------------------------------------------------------------
  // Dominance
  // ---------------------------------------------------------------------

  /** No list names a chunk twice. */
  ghost predicate DistinctIds(lists: seq<seq<Hit>>) {
    forall l | 0 <= l < |lists| :: Distinct(Ids(lists[l]))
  }

  /** id holds the n-th place (from 1) of the list. */
  ghost predicate At(hits: seq<Hit>, id: string, n: nat) { 1 <= n <= |hits| && hits[n - 1].chunk.id == id }

  lemma {:induction false} NoShare(k: nat, hits: seq<Hit>, id: string)
    requires k >= 1 && id !in Ids(hits)
    ensures ListScore(k, hits, id) == 0.0
  {
    if hits == [] {
    } else {
      var n := |hits| - 1;
      assert Ids(hits)[n] == hits[n].chunk.id;
      forall i | 0 <= i < n ensures Ids(hits[..n])[i] != id {
        assert Ids(hits)[i] != id;
      }
      NoShare(k, hits[..n], id);
    }
  }

  /** In a list without repeats a chunk gets the share of its one place. */
  lemma {:induction false} OneShare(k: nat, hits: seq<Hit>, id: string, n: nat)
    requires k >= 1 && Distinct(Ids(hits)) && At(hits, id, n)
    ensures ListScore(k, hits, id) == Share(k, n)
  {
    var m := |hits| - 1;
    var front := hits[..m];
    assert forall i | 0 <= i < m :: Ids(front)[i] == Ids(hits)[i];
    if n - 1 == m {
      assert Ids(hits)[m] == id;
      NoShare(k, front, id);
    } else {
      assert Ids(hits)[m] != Ids(hits)[n - 1];
      OneShare(k, front, id, n);
    }
  }

  /** The share a list without repeats gives: 1 / (k + rank), and nothing to a chunk it does not name. */
  lemma ListScoreIs(k: nat, hits: seq<Hit>, id: string, n: nat)
    requires k >= 1 && Distinct(Ids(hits)) && if n == 0 then id !in Ids(hits) else At(hits, id, n)
    ensures ListScore(k, hits, id) == if n == 0 then 0.0 else 1.0 / (k + n) as real
  {
    if n == 0 {
      NoShare(k, hits, id);
    } else {
      OneShare(k, hits, id, n);
    }
  }

  /** The fused score of a chunk at rank m of one list and rank n of the other, 0 standing for neither. */
  lemma FusedScoreIs(k: nat, a: seq<Hit>, b: seq<Hit>, id: string, m: nat, n: nat)
    requires k >= 1 && Distinct(Ids(a)) && Distinct(Ids(b))
    requires if m == 0 then id !in Ids(a) else At(a, id, m)
    requires if n == 0 then id !in Ids(b) else At(b, id, n)
    ensures FusedScore(k, [a, b], id) ==
      (if m == 0 then 0.0 else 1.0 / (k + m) as real) + (if n == 0 then 0.0 else 1.0 / (k + n) as real)
  {
    ListScoreIs(k, a, id, m);
    ListScoreIs(k, b, id, n);
    var one, two := [a], [a, b];
    assert one[..0] == [] && two[..1] == one;
    assert FusedScore(k, one, id) == ListScore(k, a, id);
  }

  /** The first hit of this chunk. */
  ghost predicate FirstHit(hits: seq<Hit>, id: string, j: int) {
    0 <= j < |hits| && hits[j].chunk.id == id && forall i | 0 <= i < j :: hits[i].chunk.id != id
  }

  /** A fused hit has the chunk of the first hit and the highest score of them all. */
  ghost predicate FusedFrom(hits: seq<Hit>, id: string, h: Hit) {
    && (exists j :: FirstHit(hits, id, j) && h.chunk == hits[j].chunk)
    && (forall i | 0 <= i < |hits| && hits[i].chunk.id == id :: hits[i].score <= h.score)
    && (exists i :: 0 <= i < |hits| && hits[i].chunk.id == id && hits[i].score == h.score)
  }

  lemma FusedFromSame(front: seq<Hit>, h: Hit, id: string, before: Hit)
    requires FusedFrom(front, id, before) && h.chunk.id != id
    ensures FusedFrom(front + [h], id, before)
  {
    var j :| FirstHit(front, id, j) && before.chunk == front[j].chunk;
    assert FirstHit(front + [h], id, j);
    var i :| 0 <= i < |front| && front[i].chunk.id == id && front[i].score == before.score;
    assert (front + [h])[i] == front[i];
  }

  lemma FusedFromMerged(front: seq<Hit>, h: Hit, id: string, before: Hit)
    requires FusedFrom(front, id, before) && h.chunk.id == id
    ensures FusedFrom(front + [h], id, Merge(before, h))
  {
    MergeKeeps(before, h);
    var j :| FirstHit(front, id, j) && before.chunk == front[j].chunk;
    assert FirstHit(front + [h], id, j);
    var i :| 0 <= i < |front| && front[i].chunk.id == id && front[i].score == before.score;
    assert (front + [h])[i] == front[i] && (front + [h])[|front|] == h;
  }

  lemma FusedFromFirst(front: seq<Hit>, h: Hit)
    requires forall i | 0 <= i < |front| :: front[i].chunk.id != h.chunk.id
    ensures FusedFrom(front + [h], h.chunk.id, h)
  {
    assert FirstHit(front + [h], h.chunk.id, |front|);
  }

  lemma {:induction false} KeptIsFusedFrom(hits: seq<Hit>, id: string)
    requires Kept(hits, id).Some?
    ensures FusedFrom(hits, id, Kept(hits, id).value)
  {
    var front, h := hits[..|hits| - 1], hits[|hits| - 1];
    assert hits == front + [h];
    if Kept(front, id).None? {
      KeptExactly(front, id);
      FusedFromFirst(front, h);
    } else {
      KeptIsFusedFrom(front, id);
      if h.chunk.id == id {
        FusedFromMerged(front, h, id, Kept(front, id).value);
      } else {
        FusedFromSame(front, h, id, Kept(front, id).value);
      }
    }
  }

  /** Every fused hit is made from the hits of its chunk in the lists. */
  lemma FusedHitsAre(k: nat, lists: seq<seq<Hit>>, i: nat)
    requires k >= 1 && i < |FusedList(k, lists)|
    ensures var h := FusedList(k, lists)[i].hit; FusedFrom(Flat(lists), h.chunk.id, h)
  {
    var order := SortBy(FirstSeen(Flat(lists)), BestFirst(k, lists));
    SameElements(FirstSeen(Flat(lists)), BestFirst(k, lists));
    assert order[i] in order;
    KeptExactly(Flat(lists), order[i]);
    KeptIsFusedFrom(Flat(lists), order[i]);
  }

  lemma ShareFalls(k: nat, a: nat, b: nat)
    requires k >= 1 && a < b
    ensures Share(k, a) > Share(k, b) > 0.0
  {
    var x, y := (k + a) as real, (k + b) as real;
    assert 0.0 < x < y;
    assert 1.0 / x > 1.0 / y by {
      assert (1.0 / x - 1.0 / y) * (x * y) == y - x;
    }
  }

  /** a stands above b in every list that has b. */
  ghost predicate Above(lists: seq<seq<Hit>>, a: string, b: string) {
    forall l, n | 0 <= l < |lists| && At(lists[l], b, n) :: exists m :: m < n && At(lists[l], a, m)
  }

  lemma {:induction false} ListScoreNonNegative(k: nat, hits: seq<Hit>, id: string)
    requires k >= 1
    ensures ListScore(k, hits, id) >= 0.0
  {
    if hits == [] {
    } else {
      ListScoreNonNegative(k, hits[..|hits| - 1], id);
    }
  }

  lemma ListDominance(k: nat, hits: seq<Hit>, a: string, b: string)
    requires k >= 1 && Distinct(Ids(hits))
    requires forall n | At(hits, b, n) :: exists m :: m < n && At(hits, a, m)
    ensures ListScore(k, hits, a) >= ListScore(k, hits, b)
    ensures b in Ids(hits) ==> ListScore(k, hits, a) > ListScore(k, hits, b)
  {
    if b in Ids(hits) {
      var i :| 0 <= i < |hits| && Ids(hits)[i] == b;
      assert At(hits, b, i + 1);
      var m: nat :| m < i + 1 && At(hits, a, m);
      OneShare(k, hits, a, m);
      OneShare(k, hits, b, i + 1);
      ShareFalls(k, m, i + 1);
    } else {
      NoShare(k, hits, b);
      ListScoreNonNegative(k, hits, a);
    }
  }

  lemma {:induction false} ScoreDominance(k: nat, lists: seq<seq<Hit>>, a: string, b: string)
    requires k >= 1 && DistinctIds(lists) && Above(lists, a, b)
    ensures FusedScore(k, lists, a) >= FusedScore(k, lists, b)
    ensures (exists l :: 0 <= l < |lists| && b in Ids(lists[l])) ==> FusedScore(k, lists, a) > FusedScore(k, lists, b)
  {
    if lists == [] {
    } else {
      var front, last := lists[..|lists| - 1], lists[|lists| - 1];
      assert forall l | 0 <= l < |front| :: front[l] == lists[l];
      ScoreDominance(k, front, a, b);
      ListDominance(k, last, a, b);
      if l :| 0 <= l < |lists| && b in Ids(lists[l]) {
        if l < |front| {
          assert b in Ids(front[l]);
        }
      }
    }
  }

  /** A chunk ranked above another in every list that has the other comes strictly first. */
  lemma DominantComesFirst(k: nat, lists: seq<seq<Hit>>, i: nat, j: nat)
    requires k >= 1 && DistinctIds(lists) && i < |FusedList(k, lists)| && j < |FusedList(k, lists)|
    requires Above(lists, FusedList(k, lists)[i].hit.chunk.id, FusedList(k, lists)[j].hit.chunk.id)
    ensures i < j && FusedList(k, lists)[i].score > FusedList(k, lists)[j].score
  {
    var fused := FusedList(k, lists);
    EachChunkOnce(k, lists);
    assert FusedIds(fused)[j] in FusedIds(fused);
    ScoreDominance(k, lists, fused[i].hit.chunk.id, fused[j].hit.chunk.id);
    if j < i {
      BestFirstThenFirstSeen(k, lists, j, i);
    }
  }

  // ---------------------------------------------------------------------
  // Rescaled scores
  // ---------------------------------------------------------------------

  /** What _rescaled() makes of one score. */
  function Rescale(k: nat, lists: nat, score: real): real
    requires k >= 1 && lists >= 1
  {
    var scaled := score / (lists as real / (k + 1) as real);
    if scaled < 1.0 then scaled else 1.0
  }

  function Rescaled(k: nat, lists: nat, fused: seq<Fused>): (hits: seq<Hit>)
    requires k >= 1 && lists >= 1
    ensures |hits| == |fused|
    ensures forall i | 0 <= i < |fused| :: hits[i] == fused[i].hit.(score := Rescale(k, lists, fused[i].score))
  {
    seq(|fused|, i requires 0 <= i < |fused| => fused[i].hit.(score := Rescale(k, lists, fused[i].score)))
  }

  ghost predicate FirstEverywhere(lists: seq<seq<Hit>>, id: string) {
    forall l | 0 <= l < |lists| :: At(lists[l], id, 1)
  }

  lemma {:induction false} ScoreNonNegative(k: nat, lists: seq<seq<Hit>>, id: string)
    requires k >= 1
    ensures FusedScore(k, lists, id) >= 0.0
  {
    if lists == [] {
    } else {
      ScoreNonNegative(k, lists[..|lists| - 1], id);
      ListScoreNonNegative(k, lists[|lists| - 1], id);
    }
  }

  lemma ListAtMostFirst(k: nat, hits: seq<Hit>, id: string)
    requires k >= 1 && Distinct(Ids(hits))
    ensures ListScore(k, hits, id) <= Share(k, 1)
    ensures ListScore(k, hits, id) == Share(k, 1) <==> At(hits, id, 1)
  {
    if id in Ids(hits) {
      var i :| 0 <= i < |hits| && Ids(hits)[i] == id;
      assert At(hits, id, i + 1);
      OneShare(k, hits, id, i + 1);
      if i > 0 {
        ShareFalls(k, 1, i + 1);
        assert Ids(hits)[0] != Ids(hits)[i];
      }
    } else {
      NoShare(k, hits, id);
      ShareFalls(k, 1, 2);
      assert !At(hits, id, 1) by {
        if |hits| > 0 {
          assert Ids(hits)[0] != id;
        }
      }
    }
  }

  /** The score of a chunk first in each of n lists. */
  function Best(k: nat, n: nat): real
    requires k >= 1
  {
    if n == 0 then 0.0 else Best(k, n - 1) + Share(k, 1)
  }

  lemma {:induction false} ScoreAtMostBest(k: nat, lists: seq<seq<Hit>>, id: string)
    requires k >= 1 && DistinctIds(lists)
    ensures FusedScore(k, lists, id) <= Best(k, |lists|)
    ensures FusedScore(k, lists, id) == Best(k, |lists|) <==> FirstEverywhere(lists, id)
  {
    if lists == [] {
    } else {
      var front, last := lists[..|lists| - 1], lists[|lists| - 1];
      assert forall l | 0 <= l < |front| :: front[l] == lists[l];
      ScoreAtMostBest(k, front, id);
      ListAtMostFirst(k, last, id);
      if FirstEverywhere(lists, id) {
        assert FirstEverywhere(front, id);
      }
    }
  }

  /** The divisor of _rescaled() is the best possible score. */
  lemma {:induction false} DivisorIsBest(k: nat, n: nat)
    requires k >= 1
    ensures n as real / (k + 1) as real == Best(k, n)
    ensures n >= 1 ==> Best(k, n) > 0.0
  {
    if n == 0 {
    } else {
      DivisorIsBest(k, n - 1);
      ShareFalls(k, 1, 2);
      assert n as real == (n - 1) as real + 1.0;
      AddFractions((n - 1) as real, 1.0, (k + 1) as real);
    }
  }

  lemma AddFractions(a: real, b: real, d: real)
    requires d > 0.0
    ensures (a + b) / d == a / d + b / d
  {
    assert (a / d + b / d) * d == a + b;
  }

  lemma ScalingIsMonotone(best: real, low: real, high: real)
    requires best > 0.0 && low < high
    ensures low / best < high / best
  {
    assert (high / best - low / best) * best == high - low;
  }

  /** One score rescaled, and two compared. */
  /** The rescaled score is the score over that of a chunk first in every list, lists / (k + 1), and at most 1. */
  lemma RescaleIs(k: nat, lists: nat, score: real)
    requires k >= 1 && lists >= 1
    ensures Rescale(k, lists, score) * lists as real == score * (k + 1) as real || Rescale(k, lists, score) == 1.0
    ensures score * (k + 1) as real < lists as real ==>
      Rescale(k, lists, score) * lists as real == score * (k + 1) as real
    ensures score * (k + 1) as real >= lists as real ==> Rescale(k, lists, score) == 1.0
  {
    var n, d := lists as real, (k + 1) as real;
    ScaledQuotient(score, n, d);
  }

  lemma ScaledQuotient(s: real, n: real, d: real)
    requires n > 0.0 && d > 0.0
    ensures n / d > 0.0 && (s / (n / d)) * n == s * d
    ensures s / (n / d) < 1.0 <==> s * d < n
  {
    var q := n / d;
    assert q * d == n;
    var r := s / q;
    assert r * q == s;
    assert r * n == (r * q) * d;
    PartOf(r, n, r * n);
  }

  lemma PartOf(r: real, n: real, part: real)
    requires n > 0.0 && part == r * n
    ensures r < 1.0 <==> part < n
  {
    assert n - part == (1.0 - r) * n;
    if r < 1.0 {
      assert (1.0 - r) * n > 0.0;
    } else {
      assert (r - 1.0) * n >= 0.0;
    }
  }

  lemma RescaleFacts(k: nat, lists: nat, low: real, high: real)
    requires k >= 1 && lists >= 1 && 0.0 <= low <= high
    ensures 0.0 <= Rescale(k, lists, low) <= Rescale(k, lists, high) <= 1.0
    ensures high <= Best(k, lists) ==> (Rescale(k, lists, high) == 1.0 <==> high == Best(k, lists))
    ensures low < high <= Best(k, lists) ==> Rescale(k, lists, low) < Rescale(k, lists, high)
  {
    DivisorIsBest(k, lists);
    var best := Best(k, lists);
    assert 0.0 / best == 0.0 && best / best == 1.0;
    if 0.0 < low {
      ScalingIsMonotone(best, 0.0, low);
    }
    if low < high {
      ScalingIsMonotone(best, low, high);
    }
    if high < best {
      ScalingIsMonotone(best, high, best);
    }
  }

  /** Rescaled scores lie in [0, 1] and never reverse the order. */
  lemma RescaledInRange(k: nat, lists: seq<seq<Hit>>, i: nat, j: nat)
    requires k >= 1 && lists != [] && i <= j < |FusedList(k, lists)|
    ensures var hits := Rescaled(k, |lists|, FusedList(k, lists));
      0.0 <= hits[j].score <= hits[i].score <= 1.0
  {
    var fused := FusedList(k, lists);
    NonNegative(k, lists, j);
    if i < j {
      BestFirstThenFirstSeen(k, lists, i, j);
    }
    RescaleFacts(k, |lists|, fused[j].score, fused[i].score);
  }

  lemma NonNegative(k: nat, lists: seq<seq<Hit>>, i: nat)
    requires k >= 1 && i < |FusedList(k, lists)|
    ensures FusedList(k, lists)[i].score >= 0.0
  {
    EachChunkOnce(k, lists);
    ScoreNonNegative(k, lists, FusedList(k, lists)[i].hit.chunk.id);
  }

  /** With no chunk twice in one list the order is kept strictly, and 1 means first in every list. */
  lemma RescaledExact(k: nat, lists: seq<seq<Hit>>, i: nat, j: nat)
    requires k >= 1 && lists != [] && DistinctIds(lists) && i <= j < |FusedList(k, lists)|
    ensures var fused := FusedList(k, lists);
      var hits := Rescaled(k, |lists|, fused);
      && (hits[i].score == 1.0 <==> FirstEverywhere(lists, fused[i].hit.chunk.id))
      && (fused[i].score > fused[j].score <==> hits[i].score > hits[j].score)
  {
    var fused := FusedList(k, lists);
    AtMostBest(k, lists, i);
    NonNegative(k, lists, j);
    if i < j {
      BestFirstThenFirstSeen(k, lists, i, j);
    }
    RescaleFacts(k, |lists|, fused[j].score, fused[i].score);
  }

  lemma AtMostBest(k: nat, lists: seq<seq<Hit>>, i: nat)
    requires k >= 1 && DistinctIds(lists) && i < |FusedList(k, lists)|
    ensures var fused := FusedList(k, lists);
      && fused[i].score <= Best(k, |lists|)
      && (fused[i].score == Best(k, |lists|) <==> FirstEverywhere(lists, fused[i].hit.chunk.id))
  {
    EachChunkOnce(k, lists);
    ScoreAtMostBest(k, lists, FusedList(k, lists)[i].hit.chunk.id);
  }

  // ---------------------------------------------------------------------
  // The search around its failing components
  // ---------------------------------------------------------------------

  /** How one awaited component answered; cancellation is never swallowed. */
  datatype Outcome<+T> = Answered(value: T) | Failed | Cancelled

  datatype Mode = Full | NoRerank | KeywordOnly | VectorOnly

  datatype Reply = Found(hits: seq<Hit>, mode: Mode) | Unavailable | Interrupted

  function Take(hits: seq<Hit>, n: nat): seq<Hit> { if n < |hits| then hits[..n] else hits }

  function Hits(fused: seq<Fused>): (hits: seq<Hit>)
    ensures |hits| == |fused|
  {
    seq(|fused|, i requires 0 <= i < |fused| => fused[i].hit)
  }

  /** The components as the search meets them: the vector store is asked only with an embedding. */
  datatype Components = Components(embedding: Outcome<seq<real>>, vectorStore: seq<real> -> Outcome<seq<Hit>>,
                                   keywordStore: Outcome<seq<Hit>>, rerank: seq<Hit> -> Outcome<seq<Hit>>)
  {
    function Semantic(): Outcome<seq<Hit>> {
      match embedding
      case Answered(vector) => vectorStore(vector)
      case Failed => Failed
      case Cancelled => Cancelled
    }

    /** The non-empty lists to fuse, the vector store's first. */
    function Lists(): seq<seq<Hit>> { NonEmpty(Semantic()) + NonEmpty(keywordStore) }

    function Candidates(k: nat, n: nat): seq<Hit>
      requires k >= 1
    {
      Take(Hits(FusedList(k, Lists())), n)
    }

    predicate StoreCancelled() { Semantic().Cancelled? || keywordStore.Cancelled? }

    predicate BothStoresDown() { Semantic().Failed? && keywordStore.Failed? }

    /** The reranker is asked only when there is something to rerank. */
    ghost predicate Reranks(k: nat)
      requires k >= 1
    {
      !StoreCancelled() && !BothStoresDown() && exists l :: 0 <= l < |Lists()| && Lists()[l] != []
    }

    ghost function Broken(k: nat, n: nat): nat
      requires k >= 1
    {
      (if Semantic().Failed? then 1 else 0) + (if keywordStore.Failed? then 1 else 0) +
      (if Reranks(k) && rerank(Candidates(k, n)).Failed? then 1 else 0)
    }
  }

  function NonEmpty(outcome: Outcome<seq<Hit>>): seq<seq<Hit>> {
    if outcome.Answered? && outcome.value != [] then [outcome.value] else []
  }

  /** There is something to rerank exactly when some list has a hit. */
  lemma SomethingFused(k: nat, lists: seq<seq<Hit>>)
    requires k >= 1
    ensures FusedList(k, lists) != [] <==> exists l :: 0 <= l < |lists| && lists[l] != []
  {
    EachChunkOnce(k, lists);
    if FusedList(k, lists) != [] {
      var id := FusedIds(FusedList(k, lists))[0];
      assert id in FusedIds(FusedList(k, lists));
      var l :| 0 <= l < |lists| && id in Ids(lists[l]);
      assert lists[l] != [];
    }
    if l :| 0 <= l < |lists| && lists[l] != [] {
      assert Ids(lists[l])[0] in Ids(lists[l]);
      assert Ids(lists[l])[0] in FusedIds(FusedList(k, lists));
    }
  }

  /** Scores in [0, 1], best first. */
  ghost predicate Relevances(hits: seq<Hit>) {
    forall i, j | 0 <= i <= j < |hits| :: 0.0 <= hits[j].score <= hits[i].score <= 1.0
  }

  lemma RescaledAreRelevances(k: nat, lists: seq<seq<Hit>>, n: nat)
    requires k >= 1 && lists != []
    ensures Relevances(Take(Rescaled(k, |lists|, FusedList(k, lists)), n))
  {
    forall i, j | 0 <= i <= j < |FusedList(k, lists)|
      ensures var hits := Rescaled(k, |lists|, FusedList(k, lists)); 0.0 <= hits[j].score <= hits[i].score <= 1.0
    {
      RescaledInRange(k, lists, i, j);
    }
  }

  /**
   What a search counts as broken: the semantic half, when the query embedding or the vector store fails; the
   keyword store; and the reranker, which is consulted when no store was interrupted, one works and finds a hit.
  */
  lemma BrokenMeans(c: Components, k: nat, n: nat)
    requires k >= 1
    ensures c.Semantic().Failed? <==>
      c.embedding.Failed? || (c.embedding.Answered? && c.vectorStore(c.embedding.value).Failed?)
    ensures c.Semantic().Cancelled? <==>
      c.embedding.Cancelled? || (c.embedding.Answered? && c.vectorStore(c.embedding.value).Cancelled?)
    ensures c.Reranks(k) <==>
      && !c.Semantic().Cancelled? && !c.keywordStore.Cancelled? && !(c.Semantic().Failed? && c.keywordStore.Failed?)
      && ((c.Semantic().Answered? && c.Semantic().value != []) ||
          (c.keywordStore.Answered? && c.keywordStore.value != []))
    ensures c.Broken(k, n) >= 2 <==>
      || (c.Semantic().Failed? && c.keywordStore.Failed?)
      || ((c.Semantic().Failed? || c.keywordStore.Failed?) && c.Reranks(k) && c.rerank(c.Candidates(k, n)).Failed?)
    ensures c.Broken(k, n) == 0 <==>
      && !c.Semantic().Failed? && !c.keywordStore.Failed?
      && !(c.Reranks(k) && c.rerank(c.Candidates(k, n)).Failed?)
  {
    var a, b := NonEmpty(c.Semantic()), NonEmpty(c.keywordStore);
    if a != [] {
      assert c.Lists()[0] == a[0];
    }
    if b != [] {
      assert c.Lists()[|a|] == b[0];
    }
  }

  /** The reranker is given the best fused hits, at most n of them, best first. */
  lemma CandidatesAre(c: Components, k: nat, n: nat)
    requires k >= 1
    ensures var fused, given := FusedList(k, c.Lists()), c.Candidates(k, n);
      && |given| == (if n < |fused| then n else |fused|)
      && forall i | 0 <= i < |given| :: given[i] == fused[i].hit
  {}

  /** What is fused: the hits of the semantic search, then those of the keyword search, a store that failed left out. */
  lemma ListsAre(c: Components)
    requires c.embedding.Answered? && c.vectorStore(c.embedding.value).Answered? && c.keywordStore.Answered?
    ensures var semantic, keyword := c.vectorStore(c.embedding.value).value, c.keywordStore.value;
      && (semantic != [] && keyword != [] ==> c.Lists() == [semantic, keyword])
      && (semantic == [] ==> c.Lists() == if keyword == [] then [] else [keyword])
      && (keyword == [] ==> c.Lists() == if semantic == [] then [] else [semantic])
  {}

  /** _search(): at most one component may be down, and the mode names it. */
  method Search(k: nat, topK: nat, fusionCandidates: nat, c: Components) returns (reply: Reply)
    requires k >= 1
    ensures reply.Interrupted? <==>
            c.StoreCancelled() || (c.Reranks(k) && c.rerank(c.Candidates(k, fusionCandidates)).Cancelled?)
    ensures reply.Unavailable? <==> !reply.Interrupted? && c.Broken(k, fusionCandidates) >= 2
    ensures reply.Found? && reply.mode == KeywordOnly <==>
            !reply.Interrupted? && c.Semantic().Failed? && c.Broken(k, fusionCandidates) == 1
    ensures reply.Found? && reply.mode == VectorOnly <==>
            !reply.Interrupted? && c.keywordStore.Failed? && c.Broken(k, fusionCandidates) == 1
    ensures reply.Found? && reply.mode == Full <==> !reply.Interrupted? && c.Broken(k, fusionCandidates) == 0
    ensures reply.Found? && reply.mode != NoRerank ==>
            if c.Reranks(k)
            then c.rerank(c.Candidates(k, fusionCandidates)) == Answered(reply.hits) else reply.hits == []
    ensures reply.Found? && reply.mode == NoRerank ==>
            c.Lists() != [] && Relevances(reply.hits) &&
            reply.hits == Take(Rescaled(k, |c.Lists()|, FusedList(k, c.Lists())), topK)
  {
    if c.embedding.Cancelled? {
      return Interrupted;
    }
    var vectorOutcome := if c.embedding.Answered? then c.vectorStore(c.embedding.value) else Answered([]);
    var embeddingFailed := c.embedding.Failed?;
    if vectorOutcome.Cancelled? || c.keywordStore.Cancelled? {
      return Interrupted;
    }
    var semanticDown := embeddingFailed || vectorOutcome.Failed?;
    if semanticDown && c.keywordStore.Failed? {
      return Unavailable;
    }
    var mode := if semanticDown then KeywordOnly else if c.keywordStore.Failed? then VectorOnly else Full;
    var lists := NonEmpty(vectorOutcome) + NonEmpty(c.keywordStore);
    assert lists == c.Lists();
    var fused := RrfScored(k, lists);
    SomethingFused(k, lists);
    if fused == [] {
      return Found([], mode);
    }
    match c.rerank(Take(Hits(fused), fusionCandidates))
    case Cancelled => return Interrupted;
    case Answered(hits) => return Found(hits, mode);
    case Failed =>
      if mode != Full {
        return Unavailable;
      }
      RescaledAreRelevances(k, lists, topK);
      return Found(Take(Rescaled(k, |lists|, fused), topK), NoRerank);
  }
}

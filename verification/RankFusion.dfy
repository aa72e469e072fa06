/** Reciprocal Rank Fusion over any number of ranked lists, with exact scores. */
module RankFusion {
  import opened Common
  import opened Sorting

  datatype Embedding = Embedding(model: string, dimension: nat, vector: seq<real>)

  datatype Chunk = Chunk(id: string, text: string)

  datatype Hit = Hit(chunk: Chunk, score: real, embeddings: seq<Embedding>)

  // ---------------------------------------------------------------------
  // The formula
  // ---------------------------------------------------------------------

  /** What rank r (from 1) contributes. */
  function Share(k: nat, rank: nat): real
    requires k >= 1
  {
    1.0 / (k + rank) as real
  }

  /** A chunk's share from the first n hits of one list. */
  function ListScore(k: nat, hits: seq<Hit>, id: string): real
    requires k >= 1
  {
    if hits == [] then 0.0
    else
      ListScore(k, hits[..|hits| - 1], id) +
      if hits[|hits| - 1].chunk.id == id then Share(k, |hits|) else 0.0
  }

  /** The sum of 1 / (k + rank) over every list the chunk is in. */
  function FusedScore(k: nat, lists: seq<seq<Hit>>, id: string): real
    requires k >= 1
  {
    if lists == [] then 0.0
    else FusedScore(k, lists[..|lists| - 1], id) + ListScore(k, lists[|lists| - 1], id)
  }

  /** All hits, in the order the loops meet them. */
  function Flat(lists: seq<seq<Hit>>): seq<Hit> {
    if lists == [] then [] else Flat(lists[..|lists| - 1]) + lists[|lists| - 1]
  }

  /** The chunk ids in first-seen order. */
  function FirstSeen(hits: seq<Hit>): (ids: seq<string>)
    ensures forall id :: id in ids <==> exists h :: h in hits && h.chunk.id == id
  {
    if hits == [] then []
    else
      var front, id := FirstSeen(hits[..|hits| - 1]), hits[|hits| - 1].chunk.id;
      assert hits == hits[..|hits| - 1] + [hits[|hits| - 1]];
      if id in front then front else front + [id]
  }

  lemma {:induction false} FirstSeenDistinct(hits: seq<Hit>)
    ensures Distinct(FirstSeen(hits))
  {
    if hits == [] {
    } else {
      FirstSeenDistinct(hits[..|hits| - 1]);
    }
  }

  // ---------------------------------------------------------------------
  // Merging two hits of one chunk
  // ---------------------------------------------------------------------

  type EmbeddingKey = (string, nat)

  function KeyOf(e: Embedding): EmbeddingKey { (e.model, e.dimension) }

  ghost function Keys(es: seq<Embedding>): set<EmbeddingKey> { set e | e in es :: KeyOf(e) }

  /** Where es holds its embedding with this key. */
  function Position(es: seq<Embedding>, key: EmbeddingKey): Option<nat> {
    if es == [] then None
    else if KeyOf(es[|es| - 1]) == key then Some(|es| - 1) else Position(es[..|es| - 1], key)
  }

  /** Assigning a dictionary key: in place when it is there, at the end when it is new. */
  function Assign(es: seq<Embedding>, e: Embedding): seq<Embedding> {
    match Position(es, KeyOf(e))
    case None => es + [e]
    case Some(i) => if i < |es| then es[i := e] else es
  }

  /** dict.setdefault(): the embedding already there wins. */
  function SetDefault(es: seq<Embedding>, e: Embedding): seq<Embedding> {
    if Position(es, KeyOf(e)).None? then es + [e] else es
  }

  function AssignAll(es: seq<Embedding>): seq<Embedding> {
    if es == [] then [] else Assign(AssignAll(es[..|es| - 1]), es[|es| - 1])
  }

  function SetDefaultAll(es: seq<Embedding>, more: seq<Embedding>): seq<Embedding> {
    if more == [] then es else SetDefault(SetDefaultAll(es, more[..|more| - 1]), more[|more| - 1])
  }

  /** _merge_results() */
  function Merge(first: Hit, second: Hit): Hit {
    Hit(first.chunk, if second.score > first.score then second.score else first.score,
        SetDefaultAll(AssignAll(first.embeddings), second.embeddings))
  }

  lemma {:induction false} PositionFound(es: seq<Embedding>, key: EmbeddingKey)
    ensures match Position(es, key)
      case None => key !in Keys(es)
      case Some(i) => i < |es| && KeyOf(es[i]) == key
  {
    if es == [] {
    } else {
      PositionFound(es[..|es| - 1], key);
      assert es == es[..|es| - 1] + [es[|es| - 1]];
    }
  }

  /** One embedding per (model, dimension): those of either hit, the first hit's where both have one. */
  ghost predicate OnePerKey(es: seq<Embedding>) {
    forall i, j | 0 <= i < j < |es| :: KeyOf(es[i]) != KeyOf(es[j])
  }

  lemma AssignKeeps(es: seq<Embedding>, e: Embedding)
    requires OnePerKey(es)
    ensures OnePerKey(Assign(es, e)) && Keys(Assign(es, e)) == Keys(es) + {KeyOf(e)} && e in Assign(es, e)
  {
    PositionFound(es, KeyOf(e));
    var after := Assign(es, e);
    if Position(es, KeyOf(e)).Some? {
      var i := Position(es, KeyOf(e)).value;
      assert after[i] == e;
      forall x ensures x in Keys(after) <==> x in Keys(es) + {KeyOf(e)} {
        if x in Keys(es) {
          var j :| 0 <= j < |es| && KeyOf(es[j]) == x;
          assert KeyOf(after[j]) == x && after[j] in after;
        }
        if x in Keys(after) {
          var j :| 0 <= j < |after| && KeyOf(after[j]) == x;
          assert es[j] in es && KeyOf(es[j]) == x;
        }
      }
    } else {
      forall i | 0 <= i < |es| ensures KeyOf(es[i]) != KeyOf(e) {
        assert es[i] in es;
      }
    }
  }

  lemma {:induction false} AssignAllKeys(es: seq<Embedding>)
    ensures OnePerKey(AssignAll(es)) && Keys(AssignAll(es)) == Keys(es)
  {
    if es == [] {
    } else {
      AssignAllKeys(es[..|es| - 1]);
      AssignKeeps(AssignAll(es[..|es| - 1]), es[|es| - 1]);
      assert es == es[..|es| - 1] + [es[|es| - 1]];
    }
  }

  lemma SetDefaultKeeps(es: seq<Embedding>, e: Embedding)
    requires OnePerKey(es)
    ensures OnePerKey(SetDefault(es, e)) && Keys(SetDefault(es, e)) == Keys(es) + {KeyOf(e)} && es <= SetDefault(es, e)
  {
    PositionFound(es, KeyOf(e));
    if Position(es, KeyOf(e)).Some? {
      assert es[Position(es, KeyOf(e)).value] in es;
    } else {
      forall i | 0 <= i < |es| ensures KeyOf(es[i]) != KeyOf(e) {
        assert es[i] in es;
      }
    }
  }

  lemma KeysNext(es: seq<Embedding>)
    requires es != []
    ensures Keys(es) == Keys(es[..|es| - 1]) + {KeyOf(es[|es| - 1])}
  {
    assert es == es[..|es| - 1] + [es[|es| - 1]];
  }

  lemma {:induction false} SetDefaultAllKeys(es: seq<Embedding>, more: seq<Embedding>)
    requires OnePerKey(es)
    ensures OnePerKey(SetDefaultAll(es, more)) && es <= SetDefaultAll(es, more)
    ensures Keys(SetDefaultAll(es, more)) == Keys(es) + Keys(more)
  {
    if more == [] {
    } else {
      var front, e := more[..|more| - 1], more[|more| - 1];
      SetDefaultAllKeys(es, front);
      SetDefaultKeeps(SetDefaultAll(es, front), e);
      KeysNext(more);
    }
  }

  /** A merged hit keeps the first chunk, the higher score, and one embedding per model and dimension. */
  lemma MergeKeeps(first: Hit, second: Hit)
    ensures var merged := Merge(first, second);
      && merged.chunk == first.chunk
      && merged.score >= first.score && merged.score >= second.score
      && (merged.score == first.score || merged.score == second.score)
      && OnePerKey(merged.embeddings)
      && Keys(merged.embeddings) == Keys(first.embeddings) + Keys(second.embeddings)
      && (OnePerKey(first.embeddings) ==> first.embeddings <= merged.embeddings)
  {
    AssignAllKeys(first.embeddings);
    SetDefaultAllKeys(AssignAll(first.embeddings), second.embeddings);
    if OnePerKey(first.embeddings) {
      AssignAllIdle(first.embeddings);
    }
  }

  lemma {:induction false} AssignAllIdle(es: seq<Embedding>)
    requires OnePerKey(es)
    ensures AssignAll(es) == es
  {
    if es == [] {
    } else {
      var front, e := es[..|es| - 1], es[|es| - 1];
      AssignAllIdle(front);
      PositionFound(front, KeyOf(e));
      SplitLast(es);
    }
  }

  // ---------------------------------------------------------------------
  // The fusion
  // ---------------------------------------------------------------------

  /** The hit kept for a chunk: the hits of it met so far, merged in order. */
  function Kept(hits: seq<Hit>, id: string): Option<Hit> {
    if hits == [] then None
    else
      var h := hits[|hits| - 1];
      match Kept(hits[..|hits| - 1], id)
      case None => if h.chunk.id == id then Some(h) else None
      case Some(before) => if h.chunk.id == id then Some(Merge(before, h)) else Some(before)
  }

  datatype Fused = Fused(hit: Hit, score: real)

  /** dict.get() with its default. */
  function ScoreIn(scores: map<string, real>, id: string): real { if id in scores then scores[id] else 0.0 }

  function ResultIn(results: map<string, Hit>, id: string): Option<Hit> {
    if id in results then Some(results[id]) else None
  }

  /** results_by_chunk_id after these hits, with its keys in insertion order. */
  ghost predicate Collected(hits: seq<Hit>, order: seq<string>, results: map<string, Hit>) {
    && order == FirstSeen(hits) && results.Keys == (set id | id in order)
    && forall id {:trigger ResultIn(results, id)} :: ResultIn(results, id) == Kept(hits, id)
  }

  /** scores after whole lists and the first hits of the next one. */
  ghost predicate Scored(k: nat, lists: seq<seq<Hit>>, current: seq<Hit>, scores: map<string, real>)
    requires k >= 1
  {
    forall id {:trigger ScoreIn(scores, id)} ::
      ScoreIn(scores, id) == FusedScore(k, lists, id) + ListScore(k, current, id)
  }

  lemma CollectedNext(hits: seq<Hit>, order: seq<string>, results: map<string, Hit>, h: Hit)
    requires Collected(hits, order, results)
    ensures Collected(hits + [h], NextOrder(order, results, h), NextResults(results, h))
  {
    var id, more := h.chunk.id, hits + [h];
    var after := NextResults(results, h);
    assert more[..|more| - 1] == hits;
    forall i ensures ResultIn(after, i) == Kept(more, i) {
      assert ResultIn(results, i) == Kept(hits, i);
    }
  }

  lemma ScoredNext(k: nat, lists: seq<seq<Hit>>, current: seq<Hit>, scores: map<string, real>, h: Hit)
    requires k >= 1 && Scored(k, lists, current, scores)
    ensures Scored(k, lists, current + [h], NextScores(k, scores, h, |current| + 1))
  {
    assert (current + [h])[..|current + [h]| - 1] == current;
    var after := NextScores(k, scores, h, |current| + 1);
    forall id ensures ScoreIn(after, id) == FusedScore(k, lists, id) + ListScore(k, current + [h], id) {
      assert ScoreIn(scores, id) == FusedScore(k, lists, id) + ListScore(k, current, id);
    }
  }

  lemma ScoredNextList(k: nat, lists: seq<seq<Hit>>, list: seq<Hit>, scores: map<string, real>)
    requires k >= 1 && Scored(k, lists, list, scores)
    ensures Scored(k, lists + [list], [], scores)
  {
    assert (lists + [list])[..|lists + [list]| - 1] == lists;
  }

  /** The best-first list the dictionaries give. */
  function FusedList(k: nat, lists: seq<seq<Hit>>): (fused: seq<Fused>)
    requires k >= 1
  {
    var order := SortBy(FirstSeen(Flat(lists)), BestFirst(k, lists));
    seq(|order|, i requires 0 <= i < |order| => Entry(k, lists, order[i]))
  }

  function Entry(k: nat, lists: seq<seq<Hit>>, id: string): Fused
    requires k >= 1
  {
    Fused(HitOf(Kept(Flat(lists), id)), FusedScore(k, lists, id))
  }

  function HitOf(kept: Option<Hit>): Hit { if kept.Some? then kept.value else Hit(Chunk("", ""), 0.0, []) }

  function BestFirst(k: nat, lists: seq<seq<Hit>>): string -> Key
    requires k >= 1
  {
    id => Reversed(Key(FusedScore(k, lists, id), 0.0))
  }

  /** The dictionaries of _rrf_scored(), after whole lists and the first hits of the next one. */
  ghost predicate Tables(k: nat, lists: seq<seq<Hit>>, current: seq<Hit>, hits: seq<Hit>,
                         order: seq<string>, scores: map<string, real>, results: map<string, Hit>)
    requires k >= 1
  {
    Collected(hits, order, results) && scores.Keys == results.Keys && Scored(k, lists, current, scores)
  }

  /** One pass of the inner loop, as values. */
  function NextOrder(order: seq<string>, results: map<string, Hit>, h: Hit): seq<string> {
    if h.chunk.id in results then order else order + [h.chunk.id]
  }

  function NextResults(results: map<string, Hit>, h: Hit): map<string, Hit> {
    results[h.chunk.id := if h.chunk.id in results then Merge(results[h.chunk.id], h) else h]
  }

  function NextScores(k: nat, scores: map<string, real>, h: Hit, rank: nat): map<string, real>
    requires k >= 1
  {
    scores[h.chunk.id := ScoreIn(scores, h.chunk.id) + Share(k, rank)]
  }

  lemma TablesNext(k: nat, lists: seq<seq<Hit>>, current: seq<Hit>, hits: seq<Hit>, h: Hit,
                   order: seq<string>, scores: map<string, real>, results: map<string, Hit>)
    requires k >= 1 && Tables(k, lists, current, hits, order, scores, results)
    ensures Tables(k, lists, current + [h], hits + [h], NextOrder(order, results, h),
                   NextScores(k, scores, h, |current| + 1), NextResults(results, h))
  {
    CollectedNext(hits, order, results, h);
    ScoredNext(k, lists, current, scores, h);
  }

  /** _merge_results() */
  method MergeResults(first: Hit, second: Hit) returns (merged: Hit)
    ensures merged == Merge(first, second)
  {
    var embeddings: seq<Embedding> := [];
    for i := 0 to |first.embeddings|
      invariant embeddings == AssignAll(first.embeddings[..i])
    {
      embeddings := Assign(embeddings, first.embeddings[i]);
      TakeNext(first.embeddings, i);
    }
    assert first.embeddings[..|first.embeddings|] == first.embeddings;
    for i := 0 to |second.embeddings|
      invariant embeddings == SetDefaultAll(AssignAll(first.embeddings), second.embeddings[..i])
    {
      embeddings := SetDefault(embeddings, second.embeddings[i]);
      TakeNext(second.embeddings, i);
    }
    assert second.embeddings[..|second.embeddings|] == second.embeddings;
    merged := Hit(first.chunk, if second.score > first.score then second.score else first.score, embeddings);
  }

  /** The body of the inner loop: one hit at its rank. */
  method AddHit(k: nat, ghost lists: seq<seq<Hit>>, ghost current: seq<Hit>, ghost hits: seq<Hit>,
                result: Hit, rank: nat,
                order: seq<string>, scores: map<string, real>, results: map<string, Hit>)
      returns (order': seq<string>, scores': map<string, real>, results': map<string, Hit>)
    requires k >= 1 && Tables(k, lists, current, hits, order, scores, results) && rank == |current| + 1
    ensures Tables(k, lists, current + [result], hits + [result], order', scores', results')
  {
    var id := result.chunk.id;
    scores' := scores[id := ScoreIn(scores, id) + Share(k, rank)];
    if id !in results {
      order', results' := order + [id], results[id := result];
    } else {
      var merged := MergeResults(results[id], result);
      order', results' := order, results[id := merged];
    }
    assert order' == NextOrder(order, results, result);
    assert scores' == NextScores(k, scores, result, rank);
    assert results' == NextResults(results, result);
    TablesNext(k, lists, current, hits, result, order, scores, results);
  }

  /** The inner loop of _rrf_scored(): one ranked list. */
  method AddList(k: nat, ghost lists: seq<seq<Hit>>, ranked: seq<Hit>, ghost hits: seq<Hit>,
                 order: seq<string>, scores: map<string, real>, results: map<string, Hit>)
      returns (order': seq<string>, scores': map<string, real>, results': map<string, Hit>)
    requires k >= 1 && Tables(k, lists, [], hits, order, scores, results)
    ensures Tables(k, lists, ranked, hits + ranked, order', scores', results')
  {
    order', scores', results' := order, scores, results;
    ghost var seen: seq<Hit>, all := [], hits;
    for r := 0 to |ranked|
      invariant seen == ranked[..r] && all == hits + seen
      invariant Tables(k, lists, seen, all, order', scores', results')
    {
      order', scores', results' := AddHit(k, lists, seen, all, ranked[r], r + 1, order', scores', results');
      TakeNext(ranked, r);
      Regroup(hits, seen, [ranked[r]]);
      seen, all := seen + [ranked[r]], all + [ranked[r]];
    }
    assert ranked[..|ranked|] == ranked;
  }

  /** The final comprehension of _rrf_scored(). */
  method Ordered(k: nat, ghost lists: seq<seq<Hit>>, order: seq<string>,
                 scores: map<string, real>, results: map<string, Hit>) returns (fused: seq<Fused>)
    requires k >= 1 && Tables(k, lists, [], Flat(lists), order, scores, results)
    ensures fused == FusedList(k, lists)
  {
    var byScore := (id: string) => Reversed(Key(ScoreIn(scores, id), 0.0));
    var sorted := SortBy(order, byScore);
    SortedAlike(k, lists, order, scores, byScore);
    SameElements(order, byScore);
    forall id | id in sorted
      ensures id in results && id in scores && Fused(results[id], scores[id]) == Entry(k, lists, id)
    {
      EntryOf(k, lists, order, scores, results, id);
    }
    fused := Listing(k, lists, sorted, scores, results);
  }

  method Listing(k: nat, ghost lists: seq<seq<Hit>>, sorted: seq<string>,
                 scores: map<string, real>, results: map<string, Hit>) returns (fused: seq<Fused>)
    requires k >= 1
    requires forall id | id in sorted ::
      id in results && id in scores && Fused(results[id], scores[id]) == Entry(k, lists, id)
    ensures |fused| == |sorted| && forall i | 0 <= i < |sorted| :: fused[i] == Entry(k, lists, sorted[i])
  {
    fused := [];
    for i := 0 to |sorted|
      invariant |fused| == i && forall j | 0 <= j < i :: fused[j] == Entry(k, lists, sorted[j])
    {
      fused := fused + [Fused(results[sorted[i]], scores[sorted[i]])];
    }
  }

  lemma SortedAlike(k: nat, lists: seq<seq<Hit>>, order: seq<string>, scores: map<string, real>,
                    byScore: string -> Key)
    requires k >= 1 && Scored(k, lists, [], scores)
    requires forall id :: byScore(id) == Reversed(Key(ScoreIn(scores, id), 0.0))
    ensures SortBy(order, byScore) == SortBy(order, BestFirst(k, lists))
  {
    forall id ensures byScore(id) == BestFirst(k, lists)(id) {
      ScoresAre(k, lists, scores, id);
    }
    SameOrder(order, byScore, BestFirst(k, lists));
  }

  lemma EntryOf(k: nat, lists: seq<seq<Hit>>, order: seq<string>, scores: map<string, real>,
                results: map<string, Hit>, id: string)
    requires k >= 1 && Tables(k, lists, [], Flat(lists), order, scores, results) && id in order
    ensures id in results && id in scores && Fused(results[id], scores[id]) == Entry(k, lists, id)
  {
    assert ResultIn(results, id) == Kept(Flat(lists), id);
    ScoresAre(k, lists, scores, id);
  }

  lemma ScoresAre(k: nat, lists: seq<seq<Hit>>, scores: map<string, real>, id: string)
    requires k >= 1 && Scored(k, lists, [], scores)
    ensures ScoreIn(scores, id) == FusedScore(k, lists, id)
  {
    assert ScoreIn(scores, id) == FusedScore(k, lists, id) + ListScore(k, [], id);
  }

  /** _rrf_scored() */
  method RrfScored(k: nat, lists: seq<seq<Hit>>) returns (fused: seq<Fused>)
    requires k >= 1
    ensures fused == FusedList(k, lists)
  {
    var order: seq<string>, scores: map<string, real>, results: map<string, Hit> := [], map[], map[];
    for n := 0 to |lists|
      invariant Tables(k, lists[..n], [], Flat(lists[..n]), order, scores, results)
    {
      order, scores, results := AddList(k, lists[..n], lists[n], Flat(lists[..n]), order, scores, results);
      ScoredNextList(k, lists[..n], lists[n], scores);
      TakeNext(lists, n);
    }
    assert lists[..|lists|] == lists;
    fused := Ordered(k, lists, order, scores, results);
  }

  lemma {:induction false} SameOrder<T>(xs: seq<T>, f: T -> Key, g: T -> Key)
    requires forall x :: f(x) == g(x)
    ensures SortBy(xs, f) == SortBy(xs, g)
  {
    if xs == [] {
    } else {
      SameOrder(xs[..|xs| - 1], f, g);
      SameInsert(SortBy(xs[..|xs| - 1], f), xs[|xs| - 1], f, g);
    }
  }

  lemma {:induction false} SameInsert<T>(ys: seq<T>, x: T, f: T -> Key, g: T -> Key)
    requires forall x :: f(x) == g(x)
    ensures Insert(ys, x, f) == Insert(ys, x, g)
  {
    if ys == [] {
    } else {
      SameInsert(ys[..|ys| - 1], x, f, g);
    }
  }
}

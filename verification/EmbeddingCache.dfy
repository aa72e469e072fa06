/** The cached embedding provider agrees with the provider it wraps. */
module EmbeddingCache {
  import opened Common

  type Vector = seq<real>

  const KEY_PREFIX := "jurisai:cache:embed:v1:"

  const DIGEST_LENGTH := 64

  /** One cache key per model and text; the digest has a fixed length. */
  function CacheKey(digest: string -> string, model: string, text: string): string {
    KEY_PREFIX + model + ":" + digest(text)
  }

  lemma CacheKeyReads(digest: string -> string, model: string, text: string)
    ensures CacheKey(digest, model, text) == "jurisai:cache:embed:v1:" + model + ":" + digest(text)
  {}

  /** The digest as the callers meet it: no two texts in use collide. */
  ghost predicate NoCollisions(digest: string -> string, texts: set<string>) {
    && (forall t | t in texts :: |digest(t)| == DIGEST_LENGTH)
    && (forall t, u | t in texts && u in texts && digest(t) == digest(u) :: t == u)
  }

  /** Models sharing one cache never read each other's vectors, whatever characters their names hold. */
  lemma KeysAreDistinct(digest: string -> string, texts: set<string>, m: string, t: string, n: string, u: string)
    requires NoCollisions(digest, texts) && t in texts && u in texts
    requires CacheKey(digest, m, t) == CacheKey(digest, n, u)
    ensures m == n && t == u
  {
    var p := |KEY_PREFIX|;
    assert |CacheKey(digest, m, t)| == p + |m| + 1 + DIGEST_LENGTH;
    assert |CacheKey(digest, n, u)| == p + |n| + 1 + DIGEST_LENGTH;
    KeyParts(KEY_PREFIX, m, digest(t));
    KeyParts(KEY_PREFIX, n, digest(u));
  }

  lemma KeyParts(prefix: string, model: string, digest: string)
    ensures var key := prefix + model + ":" + digest;
      key[|prefix|..|prefix| + |model|] == model && key[|prefix| + |model| + 1..] == digest
  {}

  /** Any cache of vectors: it may drop whatever it holds at any call (size, expiry, restart). */
  class Cache {
    var entries: map<string, Vector>
    /** The keys looked up in vain, in order. */
    ghost var missed: seq<string>
    /** What was handed to the cache to keep, in order. */
    ghost var written: seq<(string, Vector)>

    method Get(key: string) returns (value: Option<Vector>)
      modifies this
      ensures entries.Keys <= old(entries).Keys && forall k | k in entries :: entries[k] == old(entries)[k]
      ensures value.Some? <==> key in entries
      ensures value.Some? ==> value.value == entries[key]
      ensures missed == old(missed) + (if value.None? then [key] else []) && written == old(written)
    {
      var dropped: set<string> := *;
      entries := entries - dropped;
      value := None;
      if key in entries {
        value := Some(entries[key]);
      } else {
        missed := missed + [key];
      }
    }

    method Set(key: string, value: Vector)
      modifies `entries, `written
      ensures written == old(written) + [(key, value)]
      ensures entries.Keys <= old(entries).Keys + {key}
      ensures forall k | k in entries :: entries[k] == if k == key then value else old(entries)[k]
    {
      var dropped: set<string> := *;
      entries := entries[key := value] - dropped;
      written := written + [(key, value)];
    }
  }

  /** The wrapped provider: a fixed function of the text, on every text of the batch, unless it raises. */
  class Provider {
    const model: string
    const vectorOf: string -> Vector
    ghost var calls: seq<seq<string>>
    ghost var failures: nat

    constructor (model: string, vectorOf: string -> Vector)
      ensures this.model == model && this.vectorOf == vectorOf && calls == [] && failures == 0
    {
      this.model, this.vectorOf := model, vectorOf;
      calls, failures := [], 0;
    }

    method Embed(texts: seq<string>) returns (vectors: Option<seq<Vector>>)
      modifies this
      ensures calls == old(calls) + [texts] && failures == old(failures) + if vectors.None? then 1 else 0
      ensures vectors.Some? ==> vectors.value == Mapped(vectorOf, texts)
    {
      calls := calls + [texts];
      var raises: bool := *;
      vectors := if raises then None else Some(Mapped(vectorOf, texts));
      failures := failures + if raises then 1 else 0;
    }
  }

  /** The positions of the failed lookups, in order. */
  function MissIndices(cached: seq<Option<Vector>>): (indices: seq<nat>)
    ensures |indices| <= |cached| && forall j | 0 <= j < |indices| :: indices[j] < |cached| && cached[indices[j]].None?
    ensures forall i | 0 <= i < |cached| && cached[i].None? :: i in indices
  {
    if cached == [] then []
    else
      var n := |cached| - 1;
      MissIndices(cached[..n]) + if cached[n].None? then [n] else []
  }

  function Select(texts: seq<string>, indices: seq<nat>): (picked: seq<string>)
    requires forall j | 0 <= j < |indices| :: indices[j] < |texts|
    ensures |picked| == |indices| && forall j | 0 <= j < |indices| :: picked[j] == texts[indices[j]]
  {
    seq(|indices|, j requires 0 <= j < |indices| => texts[indices[j]])
  }

  /** The texts whose lookup failed, in order, duplicates included. */
  function Misses(texts: seq<string>, cached: seq<Option<Vector>>): seq<string>
    requires |texts| == |cached|
  {
    if texts == [] then []
    else
      var n := |texts| - 1;
      Misses(texts[..n], cached[..n]) + if cached[n].None? then [texts[n]] else []
  }

  lemma {:induction false} MissesAreTexts(texts: seq<string>, cached: seq<Option<Vector>>)
    requires |texts| == |cached|
    ensures |Misses(texts, cached)| <= |texts| && forall t | t in Misses(texts, cached) :: t in texts
  {
    if texts == [] {
    } else {
      var n := |texts| - 1;
      MissesAreTexts(texts[..n], cached[..n]);
    }
  }

  lemma {:induction false} SelectedAreMisses(texts: seq<string>, cached: seq<Option<Vector>>)
    requires |texts| == |cached|
    ensures Select(texts, MissIndices(cached)) == Misses(texts, cached)
  {
    if texts == [] {
    } else {
      var n := |texts| - 1;
      SelectedAreMisses(texts[..n], cached[..n]);
      var front := MissIndices(cached[..n]);
      assert Select(texts, front) == Select(texts[..n], front);
      if cached[n].None? {
        SelectNext(texts, front, n);
      }
    }
  }

  lemma SelectNext(texts: seq<string>, indices: seq<nat>, n: nat)
    requires n < |texts| && forall j | 0 <= j < |indices| :: indices[j] < |texts|
    ensures Select(texts, indices + [n]) == Select(texts, indices) + [texts[n]]
  {}

  /** Whatever the cache holds is what the model of that key computes for the text of that key. */
  ghost predicate Holds(entries: map<string, Vector>, digest: string -> string, texts: set<string>,
                        vectorOf: (string, string) -> Vector)
  {
    forall m, t | t in texts && CacheKey(digest, m, t) in entries :: entries[CacheKey(digest, m, t)] == vectorOf(m, t)
  }

  class CachingProvider {
    const wrapped: Provider
    const cache: Cache
    const digest: string -> string
    /** Every text anyone has embedded, and every model's function: what the shared cache may hold. */
    ghost const texts: set<string>
    ghost const vectorOf: (string, string) -> Vector

    ghost predicate Valid()
      reads cache
    {
      && NoCollisions(digest, texts)
      && (forall t | t in texts :: wrapped.vectorOf(t) == vectorOf(wrapped.model, t))
      && Correct(cache.entries)
    }

    ghost predicate Correct(entries: map<string, Vector>) { Holds(entries, digest, texts, vectorOf) }

    constructor (wrapped: Provider, cache: Cache, digest: string -> string,
                 ghost texts: set<string>, ghost vectorOf: (string, string) -> Vector)
      requires NoCollisions(digest, texts) && forall t | t in texts :: wrapped.vectorOf(t) == vectorOf(wrapped.model, t)
      requires Holds(cache.entries, digest, texts, vectorOf)
      ensures Valid() && this.wrapped == wrapped && this.cache == cache && this.digest == digest
      ensures this.texts == texts && this.vectorOf == vectorOf
    {
      this.wrapped, this.cache, this.digest := wrapped, cache, digest;
      this.texts, this.vectorOf := texts, vectorOf;
    }

    function Key(text: string): string { CacheKey(digest, wrapped.model, text) }

    lemma StoringKeepsCorrect(before: map<string, Vector>, after: map<string, Vector>, text: string)
      requires NoCollisions(digest, texts) && text in texts && Correct(before)
      requires after.Keys <= before.Keys + {Key(text)}
      requires forall k | k in after :: after[k] == if k == Key(text) then vectorOf(wrapped.model, text) else before[k]
      ensures Correct(after)
    {
      forall m, t | t in texts && CacheKey(digest, m, t) in after
        ensures after[CacheKey(digest, m, t)] == vectorOf(m, t)
      {
        if CacheKey(digest, m, t) == Key(text) {
          KeysAreDistinct(digest, texts, m, t, wrapped.model, text);
        }
      }
    }

    /** What was found is right. */
    ghost predicate Right(batch: seq<string>, cached: seq<Option<Vector>>)
      requires |batch| == |cached|
    {
      forall i | 0 <= i < |batch| && cached[i].Some? :: cached[i].value == wrapped.vectorOf(batch[i])
    }

    method LookUpOne(text: string) returns (value: Option<Vector>)
      requires Valid() && text in texts
      modifies cache
      ensures Valid() && (value.Some? ==> value.value == wrapped.vectorOf(text))
      ensures cache.missed == old(cache.missed) + if value.None? then [Key(text)] else []
      ensures cache.written == old(cache.written)
    {
      value := cache.Get(Key(text));
    }

    /** The lookups, one for every text. */
    method LookUp(batch: seq<string>) returns (cached: seq<Option<Vector>>)
      requires Valid() && forall t | t in batch :: t in texts
      modifies cache
      ensures Valid() && |cached| == |batch| && Right(batch, cached)
      ensures cache.missed == old(cache.missed) + Mapped(Key, Misses(batch, cached))
      ensures cache.written == old(cache.written)
    {
      cached := [];
      ghost var misses: seq<string> := [];
      for i := 0 to |batch|
        invariant Valid() && |cached| == i && Right(batch[..i], cached)
        invariant misses == Misses(batch[..i], cached)
        invariant cache.missed == old(cache.missed) + Mapped(Key, misses) && cache.written == old(cache.written)
      {
        var value := LookUpOne(batch[i]);
        MissesNext(batch, cached, i, value);
        if value.None? {
          MissedNext(old(cache.missed), misses, batch[i]);
          misses := misses + [batch[i]];
        }
        cached := cached + [value];
      }
      assert batch[..|batch|] == batch;
    }

    lemma MissedNext(before: seq<string>, misses: seq<string>, text: string)
      ensures before + Mapped(Key, misses) + [Key(text)] == before + Mapped(Key, misses + [text])
    {
      assert Mapped(Key, misses + [text]) == Mapped(Key, misses) + [Key(text)];
    }

    /** What the cache is given for a text. */
    function Entry(text: string): (string, Vector) { (Key(text), wrapped.vectorOf(text)) }

    lemma WrittenNext(before: seq<(string, Vector)>, texts: seq<string>, j: nat)
      requires j < |texts|
      ensures before + Mapped(Entry, texts[..j + 1]) == before + Mapped(Entry, texts[..j]) + [Entry(texts[j])]
    {
      TakeNext(texts, j);
      assert Mapped(Entry, texts[..j + 1]) == Mapped(Entry, texts[..j]) + [Entry(texts[j])];
    }

    /** Back-filling by position, and into the cache. */
    method Fill(batch: seq<string>, cached: seq<Option<Vector>>, computed: seq<Vector>)
        returns (filled: seq<Option<Vector>>)
      requires Valid() && (forall t | t in batch :: t in texts) && |cached| == |batch| && Right(batch, cached)
      requires computed == Mapped(wrapped.vectorOf, Select(batch, MissIndices(cached)))
      modifies cache`entries, cache`written
      ensures Valid() && |filled| == |batch| && Right(batch, filled)
      ensures cache.written == old(cache.written) + Mapped(Entry, Select(batch, MissIndices(cached)))
      ensures forall i | 0 <= i < |filled| :: filled[i].Some?
    {
      filled := cached;
      var missing := MissIndices(cached);
      ghost var misses := Select(batch, missing);
      for j := 0 to |missing|
        invariant Valid() && |filled| == |batch| && Right(batch, filled)
        invariant FilledTo(cached, filled, missing, j)
        invariant cache.written == old(cache.written) + Mapped(Entry, misses[..j])
      {
        var index := missing[j];
        FillsNext(cached, filled, missing, j, computed[j]);
        filled := filled[index := Some(computed[j])];
        ghost var before := cache.entries;
        cache.Set(Key(batch[index]), computed[j]);
        assert batch[index] in texts;
        StoringKeepsCorrect(before, cache.entries, batch[index]);
        WrittenNext(old(cache.written), misses, j);
      }
      assert misses[..|missing|] == misses;
      forall i | 0 <= i < |batch| ensures filled[i].Some? {
        if cached[i].None? {
          var k :| 0 <= k < |missing| && missing[k] == i;
        }
      }
    }

    /** embed(): the uncached answer, from at most one call with exactly the texts the cache missed. */
    method Embed(batch: seq<string>) returns (vectors: Option<seq<Vector>>, ghost misses: seq<string>)
      requires Valid() && forall t | t in batch :: t in texts
      modifies cache, wrapped
      ensures Valid()
      ensures vectors.Some? ==> vectors.value == Mapped(wrapped.vectorOf, batch)
      ensures |misses| <= |batch| && forall t | t in misses :: t in batch
      ensures cache.missed == old(cache.missed) + Mapped(Key, misses)
      ensures wrapped.calls == old(wrapped.calls) + if batch != [] && misses == [] then [] else [misses]
      ensures wrapped.failures == old(wrapped.failures) + if vectors.None? then 1 else 0
      ensures batch != [] && misses == [] ==> vectors.Some?
      ensures cache.written == old(cache.written) + if vectors.Some? then Mapped(Entry, misses) else []
    {
      misses := [];
      if batch == [] {
        vectors := wrapped.Embed(batch);
        return;
      }
      var cached := LookUp(batch);
      SelectedAreMisses(batch, cached);
      MissesAreTexts(batch, cached);
      misses := Misses(batch, cached);
      var missing := MissIndices(cached);
      if missing != [] {
        var computed := wrapped.Embed(Select(batch, missing));
        if computed.None? {
          return None, misses;
        }
        cached := Fill(batch, cached, computed.value);
      }
      assert forall i | 0 <= i < |cached| :: cached[i].Some?;
      vectors := Some(seq(|cached|, i requires 0 <= i < |cached| && cached[i].Some? => cached[i].value));
    }

    method EmbedOne(text: string) returns (vector: Option<Vector>)
      requires Valid() && text in texts
      modifies cache, wrapped
      ensures Valid()
      ensures vector.Some? ==> vector.value == wrapped.vectorOf(text)
      ensures wrapped.failures == old(wrapped.failures) + if vector.None? then 1 else 0
      ensures wrapped.calls == old(wrapped.calls) || wrapped.calls == old(wrapped.calls) + [[text]]
      ensures vector.None? ==> wrapped.calls == old(wrapped.calls) + [[text]]
    {
      ghost var misses;
      var vectors;
      vectors, misses := Embed([text]);
      assert misses == [] || misses == [text] by {
        assert misses != [] ==> misses[0] in [text];
      }
      vector := if vectors.None? then None else Some(vectors.value[0]);
    }
  }

  /** Every hit and the first j misses are there. */
  ghost predicate FilledTo(cached: seq<Option<Vector>>, filled: seq<Option<Vector>>, missing: seq<nat>, j: nat) {
    && |filled| == |cached| && j <= |missing|
    && (forall k | 0 <= k < |missing| :: missing[k] < |cached|)
    && (forall i | 0 <= i < |cached| && cached[i].Some? :: filled[i].Some?)
    && (forall k | 0 <= k < j :: filled[missing[k]].Some?)
  }

  lemma FillsNext(cached: seq<Option<Vector>>, filled: seq<Option<Vector>>, missing: seq<nat>, j: nat, v: Vector)
    requires FilledTo(cached, filled, missing, j) && j < |missing|
    ensures FilledTo(cached, filled[missing[j] := Some(v)], missing, j + 1)
  {}

  lemma MissesNext(batch: seq<string>, cached: seq<Option<Vector>>, i: nat, value: Option<Vector>)
    requires i < |batch| && |cached| == i
    ensures Misses(batch[..i + 1], cached + [value]) ==
            Misses(batch[..i], cached) + if value.None? then [batch[i]] else []
  {
    TakeNext(batch, i);
    assert (cached + [value])[..i] == cached;
  }
}

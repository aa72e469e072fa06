/** Indexing a chunk stream in batches, each one transaction over the knowledge tables. */
module RagIndex {
  import opened Common
  import opened Text

  type Vector = seq<real>

  datatype Chunk = Chunk(id: string, text: string, metadata: map<string, string>, source: Option<string>)

  datatype SourceRow = SourceRow(filename: Option<string>, mimeType: Option<string>, storagePath: string)

  datatype ChunkRow = ChunkRow(knowledgeSourceId: string, text: string, metadata: map<string, string>)

  /** The three tables; an embedding is identified by its chunk and its model. */
  datatype Store = Store(sources: map<string, SourceRow>, chunks: map<string, ChunkRow>,
                         embeddings: map<(string, string), Vector>)
  {
    /** Every chunk id has the table's prefix, and every embedding and chunk points at an existing row. */
    ghost predicate Consistent() {
      && (forall id | id in chunks :: HasPrefix(id) && chunks[id].knowledgeSourceId in sources)
      && (forall key | key in embeddings :: key.0 in chunks)
    }
  }

  datatype Error = InvalidArgument | IndexingFailed

  /** What does not change during a run: the provider's metadata and function, and the hash and path helpers. */
  datatype Indexer = Indexer(model: string, dimension: int, batchSize: nat, vectorOf: string -> Vector,
                             digest: string -> string, baseName: string -> string)

  const CHUNK_PREFIX := "kchn_"
  const SOURCE_PREFIX := "ksrc_"
  const SOURCE_KEY := "knowledge_source_id"

  predicate HasPrefix(id: string) { CHUNK_PREFIX <= id }

  function Get(m: map<string, string>, key: string): Option<string> { if key in m then Some(m[key]) else None }

  function Take<T>(s: seq<T>, n: nat): seq<T> { if n < |s| then s[..n] else s }

  /** _knowledge_source_id(), for a non-empty identity. */
  function SourceId(ix: Indexer, sourceId: string): string {
    if SOURCE_PREFIX <= sourceId && |sourceId| <= 64 then sourceId
    else SOURCE_PREFIX + Take(ix.digest(sourceId), 59)
  }

  function SourceOf(ix: Indexer, sourceId: string, c: Chunk): SourceRow {
    var location := if c.source.Some? && c.source.value != "" then c.source.value else SourceId(ix, sourceId);
    var filename := Take(ix.baseName(location), 255);
    SourceRow(if filename == "" then None else Some(filename), Get(c.metadata, "mime_type"), location)
  }

  function RowOf(ix: Indexer, sourceId: string, c: Chunk): ChunkRow {
    ChunkRow(SourceId(ix, sourceId), c.text, c.metadata[SOURCE_KEY := SourceId(ix, sourceId)])
  }

  // ---------------------------------------------------------------------
  // What indexing some chunks makes of the tables
  // ---------------------------------------------------------------------

  function AddSource(ix: Indexer, sourceId: string, s: Store, c: Chunk): Store {
    if SourceId(ix, sourceId) in s.sources then s
    else s.(sources := s.sources[SourceId(ix, sourceId) := SourceOf(ix, sourceId, c)])
  }

  function PutRow(ix: Indexer, sourceId: string, s: Store, c: Chunk): Store {
    s.(chunks := s.chunks[c.id := RowOf(ix, sourceId, c)],
       embeddings := s.embeddings[(c.id, ix.model) := ix.vectorOf(c.text)])
  }

  /** One chunk after another: batches do not show. */
  function Put(ix: Indexer, sourceId: string, s: Store, cs: seq<Chunk>): Store {
    if cs == [] then s
    else
      var c := cs[|cs| - 1];
      PutRow(ix, sourceId, AddSource(ix, sourceId, Put(ix, sourceId, s, cs[..|cs| - 1]), c), c)
  }

  lemma {:induction false} PutAppends(ix: Indexer, sourceId: string, s: Store, cs: seq<Chunk>, more: seq<Chunk>)
    ensures Put(ix, sourceId, s, cs + more) == Put(ix, sourceId, Put(ix, sourceId, s, cs), more)
  {
    if more == [] {
      assert cs + more == cs;
    } else {
      var front := more[..|more| - 1];
      PutAppends(ix, sourceId, s, cs, front);
      assert (cs + more)[..|cs + more| - 1] == cs + front;
    }
  }

  /** The last row written for each id. */
  ghost function Rows(ix: Indexer, sourceId: string, cs: seq<Chunk>): map<string, ChunkRow> {
    if cs == [] then map[]
    else Rows(ix, sourceId, cs[..|cs| - 1])[cs[|cs| - 1].id := RowOf(ix, sourceId, cs[|cs| - 1])]
  }

  ghost function Vectors(ix: Indexer, cs: seq<Chunk>): map<(string, string), Vector> {
    if cs == [] then map[]
    else Vectors(ix, cs[..|cs| - 1])[(cs[|cs| - 1].id, ix.model) := ix.vectorOf(cs[|cs| - 1].text)]
  }

  /** Indexing overlays the last version of every chunk; the source row is made once, from the first chunk. */
  lemma {:induction false} PutChunks(ix: Indexer, sourceId: string, s: Store, cs: seq<Chunk>)
    ensures Put(ix, sourceId, s, cs).chunks == s.chunks + Rows(ix, sourceId, cs)
  {
    if cs == [] {
      assert s.chunks + map[] == s.chunks;
    } else {
      PutChunks(ix, sourceId, s, cs[..|cs| - 1]);
      OverlayNext(s.chunks, Rows(ix, sourceId, cs[..|cs| - 1]), cs[|cs| - 1].id, RowOf(ix, sourceId, cs[|cs| - 1]));
    }
  }

  lemma {:induction false} PutEmbeddings(ix: Indexer, sourceId: string, s: Store, cs: seq<Chunk>)
    ensures Put(ix, sourceId, s, cs).embeddings == s.embeddings + Vectors(ix, cs)
  {
    if cs == [] {
      assert s.embeddings + map[] == s.embeddings;
    } else {
      var c := cs[|cs| - 1];
      PutEmbeddings(ix, sourceId, s, cs[..|cs| - 1]);
      OverlayNext(s.embeddings, Vectors(ix, cs[..|cs| - 1]), (c.id, ix.model), ix.vectorOf(c.text));
    }
  }

  lemma {:induction false} PutSources(ix: Indexer, sourceId: string, s: Store, cs: seq<Chunk>)
    ensures Put(ix, sourceId, s, cs).sources ==
            if cs == [] then s.sources else AddSource(ix, sourceId, s, cs[0]).sources
  {
    if cs == [] {
    } else {
      PutSources(ix, sourceId, s, cs[..|cs| - 1]);
    }
  }

  lemma OverlayNext<K, V>(m: map<K, V>, part: map<K, V>, k: K, v: V)
    ensures (m + part)[k := v] == m + part[k := v]
  {}

  lemma {:induction false} RowsGrow(ix: Indexer, sourceId: string, cs: seq<Chunk>, n: nat)
    requires n <= |cs|
    ensures Rows(ix, sourceId, cs[..n]).Keys <= Rows(ix, sourceId, cs).Keys
    ensures Vectors(ix, cs[..n]).Keys <= Vectors(ix, cs).Keys
  {
    if n < |cs| {
      RowsGrow(ix, sourceId, cs[..|cs| - 1], n);
      assert cs[..|cs| - 1][..n] == cs[..n];
    } else {
      assert cs[..n] == cs;
    }
  }

  /** A run that stopped anywhere is absorbed by a complete one. */
  lemma PutAbsorbs(ix: Indexer, sourceId: string, s: Store, cs: seq<Chunk>, n: nat)
    requires n <= |cs|
    ensures Put(ix, sourceId, Put(ix, sourceId, s, cs[..n]), cs) == Put(ix, sourceId, s, cs)
  {
    var part := Put(ix, sourceId, s, cs[..n]);
    RowsGrow(ix, sourceId, cs, n);
    ChunksAbsorbed(ix, sourceId, s, cs, n);
    EmbeddingsAbsorbed(ix, sourceId, s, cs, n);
    PutSources(ix, sourceId, s, cs[..n]);
    PutSources(ix, sourceId, part, cs);
    PutSources(ix, sourceId, s, cs);
  }

  lemma ChunksAbsorbed(ix: Indexer, sourceId: string, s: Store, cs: seq<Chunk>, n: nat)
    requires n <= |cs| && Rows(ix, sourceId, cs[..n]).Keys <= Rows(ix, sourceId, cs).Keys
    ensures Put(ix, sourceId, Put(ix, sourceId, s, cs[..n]), cs).chunks == Put(ix, sourceId, s, cs).chunks
  {
    PutChunks(ix, sourceId, s, cs[..n]);
    PutChunks(ix, sourceId, Put(ix, sourceId, s, cs[..n]), cs);
    PutChunks(ix, sourceId, s, cs);
    Overlaid(s.chunks, Rows(ix, sourceId, cs[..n]), Rows(ix, sourceId, cs));
  }

  lemma EmbeddingsAbsorbed(ix: Indexer, sourceId: string, s: Store, cs: seq<Chunk>, n: nat)
    requires n <= |cs| && Vectors(ix, cs[..n]).Keys <= Vectors(ix, cs).Keys
    ensures Put(ix, sourceId, Put(ix, sourceId, s, cs[..n]), cs).embeddings == Put(ix, sourceId, s, cs).embeddings
  {
    PutEmbeddings(ix, sourceId, s, cs[..n]);
    PutEmbeddings(ix, sourceId, Put(ix, sourceId, s, cs[..n]), cs);
    PutEmbeddings(ix, sourceId, s, cs);
    Overlaid(s.embeddings, Vectors(ix, cs[..n]), Vectors(ix, cs));
  }

  lemma Overlaid<K, V>(m: map<K, V>, part: map<K, V>, all: map<K, V>)
    requires part.Keys <= all.Keys
    ensures m + part + all == m + all
  {}

  /** The tables after runs that each stopped after some of the chunks. */
  function AfterFailures(ix: Indexer, sourceId: string, s: Store, cs: seq<Chunk>, stops: seq<nat>): Store {
    if stops == [] then s
    else Put(ix, sourceId, AfterFailures(ix, sourceId, s, cs, stops[..|stops| - 1]), Take(cs, stops[|stops| - 1]))
  }

  /** However often indexing was interrupted, and wherever, a complete run gives what one uninterrupted run gives. */
  lemma {:induction false} InterruptedIndexingConverges(ix: Indexer, sourceId: string, s: Store, cs: seq<Chunk>,
                                                        stops: seq<nat>)
    ensures Put(ix, sourceId, AfterFailures(ix, sourceId, s, cs, stops), cs) == Put(ix, sourceId, s, cs)
  {
    if stops == [] {
    } else {
      var n, before := stops[|stops| - 1], AfterFailures(ix, sourceId, s, cs, stops[..|stops| - 1]);
      InterruptedIndexingConverges(ix, sourceId, s, cs, stops[..|stops| - 1]);
      assert Take(cs, n) == cs[..if n < |cs| then n else |cs|];
      PutAbsorbs(ix, sourceId, before, cs, if n < |cs| then n else |cs|);
    }
  }

  // ---------------------------------------------------------------------
  // Which batches are accepted
  // ---------------------------------------------------------------------

  /** _validate_chunk() */
  predicate ChunkOk(sourceId: string, c: Chunk) {
    Get(c.metadata, SOURCE_KEY) == Some(sourceId) && !IsBlank(c.id)
  }

  predicate AllOk(sourceId: string, batch: seq<Chunk>) { forall i | 0 <= i < |batch| :: ChunkOk(sourceId, batch[i]) }

  lemma AllOkNext(sourceId: string, batch: seq<Chunk>, c: Chunk)
    requires AllOk(sourceId, batch) && ChunkOk(sourceId, c)
    ensures AllOk(sourceId, batch + [c])
  {}

  /** The validation before the transaction, and the foreign key inside it. */
  predicate BatchOk(ix: Indexer, sourceId: string, batch: seq<Chunk>) {
    && !IsBlank(ix.model) && ix.dimension > 0 && sourceId != ""
    && forall i | 0 <= i < |batch| :: |ix.vectorOf(batch[i].text)| == ix.dimension && HasPrefix(batch[i].id)
  }

  function Searchable(chunks: seq<Chunk>): seq<Chunk> {
    if chunks == [] then []
    else
      var n := |chunks| - 1;
      Searchable(chunks[..n]) + if IsBlank(chunks[n].text) then [] else [chunks[n]]
  }

  /** The searchable chunks are those whose text is not blank, as often as they were read. */
  lemma {:induction false} SearchableAre(chunks: seq<Chunk>, c: Chunk)
    ensures multiset(Searchable(chunks))[c] == if IsBlank(c.text) then 0 else multiset(chunks)[c]
  {
    if chunks == [] {
    } else {
      SearchableAre(chunks[..|chunks| - 1], c);
      assert chunks == chunks[..|chunks| - 1] + [chunks[|chunks| - 1]];
    }
  }

  /** Where a stored chunk's row and vector come from. */
  ghost predicate StoredFrom(ix: Indexer, sourceId: string, t: Store, c: Chunk) {
    && c.id in t.chunks && t.chunks[c.id].text == c.text
    && t.chunks[c.id].knowledgeSourceId == SourceId(ix, sourceId)
    && t.chunks[c.id].metadata == c.metadata["knowledge_source_id" := SourceId(ix, sourceId)]
    && (c.id, ix.model) in t.embeddings && t.embeddings[(c.id, ix.model)] == ix.vectorOf(c.text)
  }

  lemma PutNext(ix: Indexer, sourceId: string, s: Store, cs: seq<Chunk>, c: Chunk)
    ensures Put(ix, sourceId, s, cs + [c]) ==
            PutRow(ix, sourceId, AddSource(ix, sourceId, Put(ix, sourceId, s, cs), c), c)
  {
    assert (cs + [c])[..|cs|] == cs;
  }

  lemma StoredNext(ix: Indexer, sourceId: string, t: Store, c: Chunk, d: Chunk)
    requires c == d || (StoredFrom(ix, sourceId, t, c) && c.id != d.id)
    ensures StoredFrom(ix, sourceId, PutRow(ix, sourceId, AddSource(ix, sourceId, t, d), d), c)
  {}

  /**
   After the chunks are indexed, every stored id among them has the text, metadata and vector of its last chunk
   that was not blank.
  */
  lemma {:induction false} LastChunkIsStored(ix: Indexer, sourceId: string, s: Store, chunks: seq<Chunk>, i: nat)
    requires i < |chunks| && !IsBlank(chunks[i].text)
    requires forall j | i < j < |chunks| && !IsBlank(chunks[j].text) :: chunks[j].id != chunks[i].id
    ensures StoredFrom(ix, sourceId, Put(ix, sourceId, s, Searchable(chunks)), chunks[i])
    decreases |chunks|
  {
    var n := |chunks| - 1;
    var front := chunks[..n];
    if i < n {
      assert front[i] == chunks[i];
      LastChunkIsStored(ix, sourceId, s, front, i);
    }
    if IsBlank(chunks[n].text) {
      assert Searchable(chunks) == Searchable(front);
    } else {
      PutNext(ix, sourceId, s, Searchable(front), chunks[n]);
      StoredNext(ix, sourceId, Put(ix, sourceId, s, Searchable(front)), chunks[i], chunks[n]);
    }
  }

  /** Ids that were not indexed, and other models' vectors, are left as they were. */
  lemma {:induction false} OthersAreUntouched(ix: Indexer, sourceId: string, s: Store, cs: seq<Chunk>, id: string,
                                              model: string)
    ensures var t := Put(ix, sourceId, s, cs);
      && ((forall c | c in cs :: c.id != id) ==> (id in t.chunks <==> id in s.chunks))
      && ((forall c | c in cs :: c.id != id) && id in s.chunks ==> t.chunks[id] == s.chunks[id])
      && ((forall c | c in cs :: c.id != id) || model != ix.model ==>
            ((id, model) in t.embeddings <==> (id, model) in s.embeddings)
            && ((id, model) in s.embeddings ==> t.embeddings[(id, model)] == s.embeddings[(id, model)]))
  {
    if cs == [] {
    } else {
      OthersAreUntouched(ix, sourceId, s, cs[..|cs| - 1], id, model);
      assert cs[|cs| - 1] in cs;
    }
  }

  /** A source id is kept when it fits the column, and otherwise replaced by one that does, once and for all. */
  lemma SourceIdFits(ix: Indexer, sourceId: string)
    ensures var id := SourceId(ix, sourceId);
      && "ksrc_" <= id && |id| <= 64 && SourceId(ix, id) == id
      && ("ksrc_" <= sourceId && |sourceId| <= 64 ==> id == sourceId)
  {}

  /** The source row: made once, from the first chunk; an existing one is left as it was. */
  lemma SourceIsFirst(ix: Indexer, sourceId: string, s: Store, cs: seq<Chunk>)
    requires cs != []
    ensures var id, t := SourceId(ix, sourceId), Put(ix, sourceId, s, cs);
      && id in t.sources
      && (id in s.sources ==> t.sources == s.sources)
      && (id !in s.sources ==>
            && t.sources[id].storagePath ==
               (if cs[0].source.Some? && cs[0].source.value != "" then cs[0].source.value else id)
            && t.sources[id].mimeType ==
               (if "mime_type" in cs[0].metadata then Some(cs[0].metadata["mime_type"]) else None)
            && (t.sources[id].filename.None? <==> ix.baseName(t.sources[id].storagePath) == "")
            && (t.sources[id].filename.Some? ==>
                  && t.sources[id].filename.value <= ix.baseName(t.sources[id].storagePath)
                  && |t.sources[id].filename.value| <= 255)
            && forall other | other != id :: other in t.sources <==> other in s.sources)
  {
    PutSources(ix, sourceId, s, cs);
  }

  /** How many chunks are read before one is refused. */
  function Leading(sourceId: string, chunks: seq<Chunk>): (n: nat)
    ensures n <= |chunks| && (forall i | 0 <= i < n :: ChunkOk(sourceId, chunks[i]))
    ensures n < |chunks| ==> !ChunkOk(sourceId, chunks[n])
  {
    if chunks == [] then 0
    else
      var n := |chunks| - 1;
      var front := Leading(sourceId, chunks[..n]);
      if front == n && ChunkOk(sourceId, chunks[n]) then n + 1 else front
  }

  /** A chunk is read when it belongs to this source and has an id, and the first that does not stops the stream. */
  lemma ReadMeans(sourceId: string, chunks: seq<Chunk>, i: nat)
    requires i < |chunks| && i <= Leading(sourceId, chunks)
    ensures i < Leading(sourceId, chunks) <==>
      && "knowledge_source_id" in chunks[i].metadata && chunks[i].metadata["knowledge_source_id"] == sourceId
      && !IsBlank(chunks[i].id)
  {}

  lemma LeadingAt(sourceId: string, chunks: seq<Chunk>, i: nat)
    requires i <= Leading(sourceId, chunks) && i < |chunks|
    ensures ChunkOk(sourceId, chunks[i]) <==> i < Leading(sourceId, chunks)
  {}

  function Concat(batches: seq<seq<Chunk>>): seq<Chunk> {
    if batches == [] then [] else Concat(batches[..|batches| - 1]) + batches[|batches| - 1]
  }

  // ---------------------------------------------------------------------
  // The tables and their transaction
  // ---------------------------------------------------------------------

  /** The session after the source row and the first i chunks; the source row is written first. */
  function Session(ix: Indexer, sourceId: string, before: Store, batch: seq<Chunk>, i: nat): Store
    requires i <= |batch| && batch != []
  {
    AddSource(ix, sourceId, Put(ix, sourceId, before, batch[..i]), batch[0])
  }

  lemma SessionNext(ix: Indexer, sourceId: string, before: Store, batch: seq<Chunk>, i: nat)
    requires i < |batch|
    ensures Session(ix, sourceId, before, batch, i + 1) ==
            PutRow(ix, sourceId, Session(ix, sourceId, before, batch, i), batch[i])
  {
    TakeNext(batch, i);
    PutSources(ix, sourceId, before, batch[..i]);
    if i > 0 {
      assert batch[..i][0] == batch[0];
    }
  }

  lemma RowConsistent(ix: Indexer, sourceId: string, s: Store, c: Chunk)
    requires s.Consistent() && SourceId(ix, sourceId) in s.sources && HasPrefix(c.id)
    ensures PutRow(ix, sourceId, s, c).Consistent()
  {}

  ghost predicate AllPrefixed(batch: seq<Chunk>, n: nat)
    requires n <= |batch|
  {
    forall j | 0 <= j < n :: HasPrefix(batch[j].id)
  }

  lemma PrefixedNext(batch: seq<Chunk>, i: nat)
    requires i < |batch| && AllPrefixed(batch, i) && HasPrefix(batch[i].id)
    ensures AllPrefixed(batch, i + 1)
  {}

  /** The loop inside the transaction: get_by_id, create or update, then the embedding. */
  method WriteRows(ix: Indexer, sourceId: string, before: Store, batch: seq<Chunk>) returns (ok: bool, session: Store)
    requires before.Consistent() && batch != []
    ensures ok <==> AllPrefixed(batch, |batch|)
    ensures ok ==> session == Put(ix, sourceId, before, batch) && session.Consistent()
  {
    session := AddSource(ix, sourceId, before, batch[0]);
    for i := 0 to |batch|
      invariant session == Session(ix, sourceId, before, batch, i)
      invariant session.Consistent() && SourceId(ix, sourceId) in session.sources
      invariant AllPrefixed(batch, i)
    {
      var chunk := batch[i];
      if chunk.id !in session.chunks && !HasPrefix(chunk.id) {
        // The row would be created under a prefixed id, which the embedding's foreign key does not name.
        return false, before;
      }
      PrefixedNext(batch, i);
      SessionNext(ix, sourceId, before, batch, i);
      RowConsistent(ix, sourceId, session, chunk);
      session := PutRow(ix, sourceId, session, chunk);
    }
    assert batch[..|batch|] == batch;
    ok := true;
  }

  class Database {
    var store: Store

    ghost predicate Valid()
      reads this
    {
      store.Consistent()
    }

    constructor ()
      ensures Valid() && store == Store(map[], map[], map[])
    {
      store := Store(map[], map[], map[]);
    }

    /** persist(): every row of the batch, or none. broken: the database fails anywhere in the transaction. */
    method Persist(ix: Indexer, batch: seq<Chunk>, vectors: seq<Vector>, broken: bool) returns (ok: bool)
      requires Valid() && (|vectors| == |batch| ==> vectors == Mapped((c: Chunk) => ix.vectorOf(c.text), batch))
      modifies this
      ensures Valid()
      ensures batch == [] ==> ok
      ensures batch != [] ==>
        (ok <==> && !broken && |vectors| == |batch| && !IsBlank(ix.model) && ix.dimension > 0
                 && "knowledge_source_id" in batch[0].metadata && batch[0].metadata["knowledge_source_id"] != ""
                 && forall i | 0 <= i < |batch| :: |vectors[i]| == ix.dimension && "kchn_" <= batch[i].id)
      ensures store ==
              if ok && batch != [] then Put(ix, batch[0].metadata[SOURCE_KEY], old(store), batch) else old(store)
    {
      if batch == [] {
        return true;
      }
      if |batch| != |vectors| {
        return false;
      }
      if IsBlank(ix.model) || ix.dimension <= 0 {
        return false;
      }
      if i :| 0 <= i < |vectors| && |vectors[i]| != ix.dimension {
        return false;
      }
      if SOURCE_KEY !in batch[0].metadata || batch[0].metadata[SOURCE_KEY] == "" {
        return false;
      }
      var sourceId := batch[0].metadata[SOURCE_KEY];
      var written, session := WriteRows(ix, sourceId, store, batch);
      if !written {
        return false;
      }
      ok := !broken;
      if ok {
        store := session;
      }
    }
  }

  // ---------------------------------------------------------------------
  // The indexer
  // ---------------------------------------------------------------------

  /** Why a run stopped: the next batch was refused, or the stream ended badly with less than a batch pending. */
  ghost predicate Stopped(ix: Indexer, sourceId: string, kept: seq<Chunk>, ended: bool, broken: nat -> bool,
                          batches: seq<seq<Chunk>>)
    requires Concat(batches) <= kept
  {
    var next := kept[|Concat(batches)|..];
    if ended || |next| >= ix.batchSize then
      next != [] && (broken(|batches|) || !BatchOk(ix, sourceId, Take(next, ix.batchSize)))
    else true
  }

  ghost predicate Accepted(ix: Indexer, sourceId: string, broken: nat -> bool, batches: seq<seq<Chunk>>) {
    forall j | 0 <= j < |batches| :: !broken(j) && BatchOk(ix, sourceId, batches[j])
  }

  ghost predicate WholeBatches(ix: Indexer, batches: seq<seq<Chunk>>) {
    forall j | 0 <= j < |batches| :: |batches[j]| == ix.batchSize
  }

  /** The tables hold the accepted whole batches and nothing else new. */
  ghost predicate Committed(ix: Indexer, sourceId: string, broken: nat -> bool, before: Store, after: Store,
                            batches: seq<seq<Chunk>>)
  {
    && after == Put(ix, sourceId, before, Concat(batches))
    && Accepted(ix, sourceId, broken, batches) && WholeBatches(ix, batches)
  }

  /** _index_batch(): embed, validate, upsert. */
  method IndexBatch(db: Database, ix: Indexer, sourceId: string, batch: seq<Chunk>, broken: bool)
      returns (r: Result<nat, Error>)
    requires db.Valid() && AllOk(sourceId, batch)
    modifies db
    ensures db.Valid()
    ensures r.Ok? <==> batch == [] || (!broken && BatchOk(ix, sourceId, batch))
    ensures r.Ok? ==> r.value == |batch|
    ensures db.store == if r.Ok? then Put(ix, sourceId, old(db.store), batch) else old(db.store)
  {
    if batch == [] {
      return Ok(0);
    }
    if broken {
      return Err(IndexingFailed);
    }
    var vectors := Mapped((c: Chunk) => ix.vectorOf(c.text), batch);
    if i :| 0 <= i < |vectors| && |vectors[i]| != ix.dimension {
      return Err(IndexingFailed);
    }
    assert ChunkOk(sourceId, batch[0]);
    var ok := db.Persist(ix, batch, vectors, broken);
    r := if ok then Ok(|batch|) else Err(IndexingFailed);
  }

  lemma {:induction false} SearchableGrows(chunks: seq<Chunk>, i: nat, j: nat)
    requires i <= j <= |chunks|
    ensures Searchable(chunks[..i]) <= Searchable(chunks[..j])
  {
    if i < j {
      SearchableGrows(chunks, i, j - 1);
      assert chunks[..j][..j - 1] == chunks[..j - 1];
    }
  }

  lemma SearchableNext(chunks: seq<Chunk>, i: nat)
    requires i < |chunks|
    ensures Searchable(chunks[..i + 1]) == Searchable(chunks[..i]) + if IsBlank(chunks[i].text) then [] else [chunks[i]]
  {
    TakeNext(chunks, i);
  }

  lemma ConcatNext(batches: seq<seq<Chunk>>, batch: seq<Chunk>)
    ensures Concat(batches + [batch]) == Concat(batches) + batch
  {
    assert (batches + [batch])[..|batches|] == batches;
  }

  /** One transaction after the committed ones. */
  method Flush(db: Database, ix: Indexer, sourceId: string, ghost before: Store, batches: seq<seq<Chunk>>,
               batch: seq<Chunk>, broken: nat -> bool) returns (ok: bool, batches': seq<seq<Chunk>>)
    requires db.Valid() && batch != [] && AllOk(sourceId, batch)
    requires db.store == Put(ix, sourceId, before, Concat(batches)) && Accepted(ix, sourceId, broken, batches)
    modifies db
    ensures db.Valid() && db.store == Put(ix, sourceId, before, Concat(batches'))
    ensures Accepted(ix, sourceId, broken, batches')
    ensures WholeBatches(ix, batches) && (|batch| == ix.batchSize || !ok) ==> WholeBatches(ix, batches')
    ensures ok ==> batches' == batches + [batch] && Concat(batches') == Concat(batches) + batch
    ensures !ok ==> batches' == batches && (broken(|batches|) || !BatchOk(ix, sourceId, batch))
  {
    var indexed := IndexBatch(db, ix, sourceId, batch, broken(|batches|));
    ok, batches' := indexed.Ok?, batches;
    if ok {
      batches' := batches + [batch];
      ConcatNext(batches, batch);
      PutAppends(ix, sourceId, before, Concat(batches), batch);
      AcceptedNext(ix, sourceId, broken, batches, batch);
    }
  }

  lemma AcceptedNext(ix: Indexer, sourceId: string, broken: nat -> bool, batches: seq<seq<Chunk>>, batch: seq<Chunk>)
    requires Accepted(ix, sourceId, broken, batches) && !broken(|batches|) && BatchOk(ix, sourceId, batch)
    ensures Accepted(ix, sourceId, broken, batches + [batch])
    ensures WholeBatches(ix, batches) && |batch| == ix.batchSize ==> WholeBatches(ix, batches + [batch])
  {}

  /** The batch is the next whole batch of everything the stream would have given. */
  lemma NextBatch(ix: Indexer, stored: seq<Chunk>, batch: seq<Chunk>, kept: seq<Chunk>)
    requires stored + batch <= kept && |batch| == ix.batchSize
    ensures stored <= kept && |kept[|stored|..]| >= ix.batchSize && Take(kept[|stored|..], ix.batchSize) == batch
  {
    var rest := kept[|stored|..];
    assert kept == stored + rest;
    assert (stored + batch)[|stored|..] == batch;
    assert kept[..|stored + batch|] == stored + batch;
    assert rest[..|batch|] == kept[..|stored + batch|][|stored|..];
  }

  lemma ShortBatch(ix: Indexer, sourceId: string, kept: seq<Chunk>, broken: nat -> bool,
                   batches: seq<seq<Chunk>>, batch: seq<Chunk>)
    requires Concat(batches) + batch == kept && |batch| < ix.batchSize
    ensures Concat(batches) <= kept && Stopped(ix, sourceId, kept, false, broken, batches)
  {}

  /** Less than a batch is left when the stream ends. */
  lemma LastBatch(ix: Indexer, stored: seq<Chunk>, batch: seq<Chunk>, kept: seq<Chunk>)
    requires stored + batch == kept && |batch| < ix.batchSize
    ensures stored <= kept && kept[|stored|..] == batch && Take(batch, ix.batchSize) == batch
  {}

  /** A searchable chunk joins the batch; a full batch is committed and cleared. */
  method AddChunk(db: Database, ix: Indexer, sourceId: string, ghost before: Store, batches: seq<seq<Chunk>>,
                  batch: seq<Chunk>, chunk: Chunk, broken: nat -> bool)
      returns (ok: bool, indexed: nat, batches': seq<seq<Chunk>>, batch': seq<Chunk>)
    requires db.Valid() && |batch| < ix.batchSize && AllOk(sourceId, batch) && ChunkOk(sourceId, chunk)
    requires Committed(ix, sourceId, broken, before, db.store, batches)
    modifies db
    ensures db.Valid() && Committed(ix, sourceId, broken, before, db.store, batches')
    ensures ok ==> |batch'| < ix.batchSize && AllOk(sourceId, batch')
    ensures ok ==> Concat(batches') + batch' == Concat(batches) + batch + [chunk]
    ensures ok ==> indexed == |Concat(batches')| - |Concat(batches)|
    ensures !ok ==> batches' == batches && |batch + [chunk]| == ix.batchSize
    ensures !ok ==> broken(|batches|) || !BatchOk(ix, sourceId, batch + [chunk])
  {
    Regroup(Concat(batches), batch, [chunk]);
    AllOkNext(sourceId, batch, chunk);
    ok, indexed, batches', batch' := true, 0, batches, batch + [chunk];
    if |batch'| >= ix.batchSize {
      ok, batches' := Flush(db, ix, sourceId, before, batches, batch', broken);
      if ok {
        indexed, batch' := |batch'|, [];
      }
    }
  }

  /** The first i chunks have been read: whole batches committed, the rest pending. */
  ghost predicate Reading(ix: Indexer, sourceId: string, chunks: seq<Chunk>, i: nat, broken: nat -> bool,
                          before: Store, after: Store, batches: seq<seq<Chunk>>, batch: seq<Chunk>)
    requires i <= |chunks|
  {
    && i <= Leading(sourceId, chunks) && |batch| < ix.batchSize && AllOk(sourceId, batch)
    && Concat(batches) + batch == Searchable(chunks[..i])
    && Committed(ix, sourceId, broken, before, after, batches)
  }

  /** Reading stopped at a refused chunk or a refused batch. */
  ghost predicate Halted(ix: Indexer, sourceId: string, chunks: seq<Chunk>, broken: nat -> bool,
                         before: Store, after: Store, batches: seq<seq<Chunk>>)
  {
    var lead := Leading(sourceId, chunks);
    && Committed(ix, sourceId, broken, before, after, batches)
    && Concat(batches) <= Searchable(chunks[..lead])
    && Stopped(ix, sourceId, Searchable(chunks[..lead]), lead == |chunks|, broken, batches)
  }

  /** One pass of the loop of index(): validate, skip a blank chunk, add it to the batch. */
  method ReadChunk(db: Database, ix: Indexer, sourceId: string, chunks: seq<Chunk>, i: nat, broken: nat -> bool,
                   ghost before: Store, batches: seq<seq<Chunk>>, batch: seq<Chunk>)
      returns (ok: bool, indexed: nat, batches': seq<seq<Chunk>>, batch': seq<Chunk>)
    requires db.Valid() && i < |chunks| && Reading(ix, sourceId, chunks, i, broken, before, db.store, batches, batch)
    modifies db
    ensures db.Valid()
    ensures ok ==> Reading(ix, sourceId, chunks, i + 1, broken, before, db.store, batches', batch')
    ensures ok ==> indexed == |Concat(batches')| - |Concat(batches)|
    ensures !ok ==> Halted(ix, sourceId, chunks, broken, before, db.store, batches')
  {
    ok, indexed, batches', batch' := true, 0, batches, batch;
    var chunk := chunks[i];
    LeadingAt(sourceId, chunks, i);
    if !ChunkOk(sourceId, chunk) {
      ShortBatch(ix, sourceId, Searchable(chunks[..i]), broken, batches, batch);
      return false, 0, batches, batch;
    }
    SearchableNext(chunks, i);
    if !IsBlank(chunk.text) {
      ok, indexed, batches', batch' := AddChunk(db, ix, sourceId, before, batches, batch, chunk, broken);
      if !ok {
        Regroup(Concat(batches), batch, [chunk]);
        SearchableGrows(chunks, i + 1, Leading(sourceId, chunks));
        NextBatch(ix, Concat(batches), batch + [chunk], Searchable(chunks[..Leading(sourceId, chunks)]));
      }
    }
  }

  /** The loop of index(). broken(j): the provider or the database fails on batch j. */
  method ReadStream(db: Database, ix: Indexer, sourceId: string, chunks: seq<Chunk>, broken: nat -> bool)
      returns (ok: bool, chunkCount: nat, batches: seq<seq<Chunk>>, batch: seq<Chunk>)
    requires db.Valid() && ix.batchSize >= 1
    modifies db
    ensures db.Valid()
    ensures ok ==> Reading(ix, sourceId, chunks, |chunks|, broken, old(db.store), db.store, batches, batch)
    ensures ok ==> chunkCount == |Concat(batches)|
    ensures !ok ==> Halted(ix, sourceId, chunks, broken, old(db.store), db.store, batches)
  {
    chunkCount, batches, batch := 0, [], [];
    for i := 0 to |chunks|
      invariant db.Valid() && Reading(ix, sourceId, chunks, i, broken, old(db.store), db.store, batches, batch)
      invariant chunkCount == |Concat(batches)|
    {
      var indexed;
      ok, indexed, batches, batch := ReadChunk(db, ix, sourceId, chunks, i, broken, old(db.store), batches, batch);
      if !ok {
        return false, chunkCount, batches, batch;
      }
      chunkCount := chunkCount + indexed;
    }
    ok := true;
  }

  /** index(). raises: the stream itself fails after its last chunk. batches: the transactions committed. */
  method Index(db: Database, ix: Indexer, sourceId: string, chunks: seq<Chunk>, raises: bool, broken: nat -> bool)
      returns (r: Result<nat, Error>, batches: seq<seq<Chunk>>)
    requires db.Valid() && ix.batchSize >= 1
    modifies db
    ensures db.Valid() && db.store == Put(ix, sourceId, old(db.store), Concat(batches))
    ensures Accepted(ix, sourceId, broken, batches)
    ensures r == Err(InvalidArgument) <==> sourceId != "" && IsBlank(sourceId)
    ensures r == Err(InvalidArgument) ==> batches == []
    ensures Concat(batches) <= Searchable(chunks)
    ensures r.Ok? ==> Leading(sourceId, chunks) == |chunks| && !raises
    ensures r.Ok? ==> Concat(batches) == Searchable(chunks) && r.value == |Searchable(chunks)|
    ensures r == Err(IndexingFailed) ==> WholeBatches(ix, batches)
    ensures r == Err(IndexingFailed) ==>
      var lead := Leading(sourceId, chunks);
      && Concat(batches) <= Searchable(chunks[..lead])
      && Stopped(ix, sourceId, Searchable(chunks[..lead]), lead == |chunks| && !raises, broken, batches)
  {
    batches := [];
    if sourceId != "" && IsBlank(sourceId) {
      return Err(InvalidArgument), batches;
    }
    var ok, chunkCount, batch;
    ok, chunkCount, batches, batch := ReadStream(db, ix, sourceId, chunks, broken);
    assert chunks[..|chunks|] == chunks;
    if !ok {
      SearchableGrows(chunks, Leading(sourceId, chunks), |chunks|);
      return Err(IndexingFailed), batches;
    }
    assert chunks[..|chunks|] == chunks;
    LastBatch(ix, Concat(batches), batch, Searchable(chunks));
    if raises {
      return Err(IndexingFailed), batches;
    }
    if batch != [] {
      ok, batches := Flush(db, ix, sourceId, old(db.store), batches, batch, broken);
      if !ok {
        return Err(IndexingFailed), batches;
      }
      chunkCount := chunkCount + |batch|;
    }
    r := Ok(chunkCount);
  }

  // ---------------------------------------------------------------------
  // Running again until it succeeds
  // ---------------------------------------------------------------------

  /** One run over the stream: it breaks off after this many chunks, and the provider or the database may fail. */
  datatype Attempt = Attempt(read: nat, broken: nat -> bool)

  /** The chunks a run gets to see, and whether its stream then raises. */
  function Seen(chunks: seq<Chunk>, a: Attempt): seq<Chunk> { Take(chunks, a.read) }

  lemma SeenIsStored(chunks: seq<Chunk>, a: Attempt, stored: seq<Chunk>)
    requires stored <= Searchable(Seen(chunks, a))
    ensures stored == Take(Searchable(chunks), |stored|)
  {
    var n := if a.read < |chunks| then a.read else |chunks|;
    assert Seen(chunks, a) == chunks[..n] && chunks[..|chunks|] == chunks;
    SearchableGrows(chunks, n, |chunks|);
  }

  /** One run of index(): complete, or stored up to some chunk. */
  method RunOnce(db: Database, ix: Indexer, sourceId: string, chunks: seq<Chunk>, a: Attempt)
      returns (r: Result<nat, Error>, ghost n: nat)
    requires db.Valid() && ix.batchSize >= 1
    modifies db
    ensures db.Valid()
    ensures r.Ok? ==>
      r.value == |Searchable(chunks)| && db.store == Put(ix, sourceId, old(db.store), Searchable(chunks))
    ensures r.Err? ==> db.store == Put(ix, sourceId, old(db.store), Take(Searchable(chunks), n))
  {
    var batches;
    var seen := Seen(chunks, a);
    r, batches := Index(db, ix, sourceId, seen, a.read < |chunks|, a.broken);
    n := |Concat(batches)|;
    SeenIsStored(chunks, a, Concat(batches));
    assert r.Ok? ==> seen == chunks;
  }

  /**
   index() called again after every failure. However many runs failed, and wherever, the tables after a
   successful one are those of one uninterrupted run; until then they hold first chunks only.
  */
  method IndexUntilDone(db: Database, ix: Indexer, sourceId: string, chunks: seq<Chunk>, attempts: seq<Attempt>)
      returns (r: Result<nat, Error>, ghost stops: seq<nat>)
    requires db.Valid() && ix.batchSize >= 1
    modifies db
    ensures db.Valid()
    ensures r.Ok? ==>
      r.value == |Searchable(chunks)| && db.store == Put(ix, sourceId, old(db.store), Searchable(chunks))
    ensures r.Err? ==> db.store == AfterFailures(ix, sourceId, old(db.store), Searchable(chunks), stops)
  {
    r, stops := Err(IndexingFailed), [];
    for i := 0 to |attempts|
      invariant db.Valid() && r.Err?
      invariant db.store == AfterFailures(ix, sourceId, old(db.store), Searchable(chunks), stops)
    {
      ghost var n;
      r, n := RunOnce(db, ix, sourceId, chunks, attempts[i]);
      if r.Ok? {
        InterruptedIndexingConverges(ix, sourceId, old(db.store), Searchable(chunks), stops);
        return;
      }
      assert (stops + [n])[..|stops + [n]| - 1] == stops;
      stops := stops + [n];
    }
  }
}

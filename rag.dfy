/** `SimpleRAG`: splits a document into chunks, embeds each chunk and adds
    it to a vector store; answers a query with the store's nearest records.
    The splitter, the embedder and the store's similarity search are
    external and stay abstract. */
module Rag {
  import opened Outcomes
  import opened Json

  type Embedding = seq<real>

  type Metadata = Record

  /** `RecursiveCharacterTextSplitter`'s options. */
  datatype SplitterConfig = SplitterConfig(chunkSize: int, chunkOverlap: int)

  /** The configuration `addDocument` always uses. */
  const DocumentSplitter: SplitterConfig := SplitterConfig(1024, 100)

  /** `splitText` under a configuration (abstract). */
  type Splitter = (SplitterConfig, string) -> seq<string>

  /** `cactusLM.embed`: `None` when it rejects. */
  type Embedder = string -> Option<Embedding>

  datatype VectorRecord = VectorRecord(embedding: Embedding, metadata: Metadata)

  /** One answer of the store's `query`. */
  datatype QueryHit = QueryHit(id: string, metadata: Metadata, similarity: real)

  datatype SearchResult = SearchResult(id: string, metadata: Metadata, distance: real)

  const StoreName: string := "rag-db-v3"
  const EmbedFailed: string := "embedding failed"
  const AddFailed: string := "store add failed"
  const ContentKey: string := "content"

  /** The `OPSQLiteVectorStore` the class talks to.  Which records `add`
      refuses (throws for) and what `query` answers over the stored records
      are properties of the store that the model does not fix. */
  class VectorStore {
    const name: string
    var records: seq<VectorRecord>
    const rejects: VectorRecord -> bool
    const knn: (Embedding, int, seq<VectorRecord>) -> Option<seq<QueryHit>>

    constructor (name: string, persisted: seq<VectorRecord>, rejects: VectorRecord -> bool,
                 knn: (Embedding, int, seq<VectorRecord>) -> Option<seq<QueryHit>>)
      ensures this.name == name && records == persisted
      ensures this.rejects == rejects && this.knn == knn
    {
      this.name := name;
      this.records := persisted;
      this.rejects := rejects;
      this.knn := knn;
    }

    /** `add`: appends the record, or throws and stores nothing. */
    method Add(record: VectorRecord) returns (ok: bool)
      modifies this
      ensures ok == !rejects(record)
      ensures records == if ok then old(records) + [record] else old(records)
    {
      ok := !rejects(record);
      if ok {
        records := records + [record];
      }
    }

    /** `query({queryEmbedding, nResults})`: `None` when it throws. */
    function Query(embedding: Embedding, nResults: int): Option<seq<QueryHit>>
      reads this
    {
      knn(embedding, nResults, records)
    }
  }

  /** `{ ...metadata, content: chunk }`: the caller's entries, with `content`
      set to the chunk whatever the caller put there. */
  function WithContent(metadata: Option<Metadata>, chunk: string): (m: Metadata)
    ensures ContentKey in m && m[ContentKey] == Str(chunk)
    ensures forall k :: k != ContentKey ==> (k in m <==> metadata.Some? && k in metadata.value)
    ensures forall k :: k != ContentKey && k in m ==> m[k] == metadata.value[k]
  {
    metadata.GetOr(map[])[ContentKey := Str(chunk)]
  }

  /** What ingesting `chunks` in order stores before it stops, and the error
      it stops with, if any.  Built from the back, as the loop runs. */
  function Ingested(embed: Embedder, rejects: VectorRecord -> bool, metadata: Option<Metadata>,
                    chunks: seq<string>): (seq<VectorRecord>, Option<string>)
  {
    if chunks == [] then ([], None)
    else
      var prev := Ingested(embed, rejects, metadata, chunks[..|chunks| - 1]);
      var chunk := chunks[|chunks| - 1];
      if prev.1.Some? then prev
      else match embed(chunk)
        case None => (prev.0, Some(EmbedFailed))
        case Some(e) =>
          var record := VectorRecord(e, WithContent(metadata, chunk));
          if rejects(record) then (prev.0, Some(AddFailed)) else (prev.0 + [record], None)
  }

  /** Chunk `i` fails when embedding it rejects or the store refuses it. */
  predicate ChunkFails(embed: Embedder, rejects: VectorRecord -> bool, metadata: Option<Metadata>, chunk: string) {
    embed(chunk).None? || rejects(VectorRecord(embed(chunk).value, WithContent(metadata, chunk)))
  }

  /** Ingest stores a prefix of the chunks, each exactly once and in order,
      as `embed(chunk)` with the chunk as content; it stops at the first
      failing chunk, and stores every chunk when none fails. */
  lemma {:induction false} IngestedPrefix(embed: Embedder, rejects: VectorRecord -> bool,
                                          metadata: Option<Metadata>, chunks: seq<string>)
    ensures var (stored, failed) := Ingested(embed, rejects, metadata, chunks);
      && |stored| <= |chunks|
      && (forall i :: 0 <= i < |stored| ==>
            && !ChunkFails(embed, rejects, metadata, chunks[i])
            && stored[i] == VectorRecord(embed(chunks[i]).value, WithContent(metadata, chunks[i])))
      && (failed.None? <==> |stored| == |chunks|)
      && (failed.Some? ==> ChunkFails(embed, rejects, metadata, chunks[|stored|]))
  {
    if chunks != [] {
      var front := chunks[..|chunks| - 1];
      IngestedPrefix(embed, rejects, metadata, front);
      forall i | 0 <= i < |front| ensures front[i] == chunks[i] { }
    }
  }

  /** `SimpleRAG`. */
  class SimpleRag {
    const embed: Embedder
    var vectorStore: VectorStore?

    /** The constructor opens the store named `rag-db-v3`, whose records are
        whatever was persisted under that name before. */
    constructor (embed: Embedder, persisted: seq<VectorRecord>, rejects: VectorRecord -> bool,
                 knn: (Embedding, int, seq<VectorRecord>) -> Option<seq<QueryHit>>)
      ensures this.embed == embed
      ensures vectorStore != null && fresh(vectorStore)
      ensures vectorStore.name == StoreName && vectorStore.records == persisted
      ensures vectorStore.rejects == rejects && vectorStore.knn == knn
    {
      this.embed := embed;
      vectorStore := new VectorStore(StoreName, persisted, rejects, knn);
    }

    /** `addDocument`: -1 when there is no store; otherwise the chunks are
        embedded and added one by one and the chunk count is returned, or
        the first failure propagates with the earlier chunks kept.
        `embedded` lists the texts passed to the embedder, in call order. */
    method AddDocument(text: string, metadata: Option<Metadata>, split: Splitter)
      returns (r: Result<int, string>, embedded: seq<string>)
      modifies vectorStore
      ensures vectorStore == old(vectorStore)
      ensures vectorStore == null ==> r == Success(-1) && embedded == []
      ensures vectorStore != null ==>
        var chunks := split(DocumentSplitter, text);
        var (stored, failed) := Ingested(embed, vectorStore.rejects, metadata, chunks);
        && vectorStore.records == old(vectorStore.records) + stored
        && r == (if failed.Some? then Failure(failed.value) else Success(|chunks|))
        && embedded <= chunks
        && |embedded| == |stored| + (if failed.Some? then 1 else 0)
    {
      var chunks := split(DocumentSplitter, text);
      var store := vectorStore;
      embedded := [];
      if store == null {
        return Success(-1), embedded;
      }
      var i := 0;
      while i < |chunks|
        invariant 0 <= i <= |chunks|
        invariant Ingested(embed, store.rejects, metadata, chunks[..i]).1.None?
        invariant |Ingested(embed, store.rejects, metadata, chunks[..i]).0| == i
        invariant store.records == old(store.records) + Ingested(embed, store.rejects, metadata, chunks[..i]).0
        invariant embedded == chunks[..i]
      {
        IngestStep(embed, store.rejects, metadata, chunks, i);
        var chunk := chunks[i];
        var embedding := embed(chunk);
        embedded := embedded + [chunk];
        assert embedded == chunks[..i + 1];
        if embedding.None? {
          IngestStopsAt(embed, store.rejects, metadata, chunks, i);
          return Failure(EmbedFailed), embedded;
        }
        var ok := store.Add(VectorRecord(embedding.value, WithContent(metadata, chunk)));
        if !ok {
          IngestStopsAt(embed, store.rejects, metadata, chunks, i);
          return Failure(AddFailed), embedded;
        }
        i := i + 1;
      }
      assert chunks[..i] == chunks;
      return Success(|chunks|), embedded;
    }

    /** `search`: embeds the query once, asks the store for `limit` results
        (5 by default) and turns each similarity into a distance.
        `embedded` lists the texts passed to the embedder. */
    method Search(query: string, limit: Option<int>) returns (r: Result<seq<SearchResult>, string>, embedded: seq<string>)
      ensures embedded == [query]
      ensures embed(query).None? ==> r == Failure(EmbedFailed)
      ensures embed(query).Some? && vectorStore == null ==> r == Success([])
      ensures embed(query).Some? && vectorStore != null ==>
        match vectorStore.Query(embed(query).value, limit.GetOr(5))
        case None => r.Failure?
        case Some(hits) => r == Success(ToResults(hits))
    {
      var store := vectorStore;
      var embedding := embed(query);
      embedded := [query];
      if embedding.None? {
        return Failure(EmbedFailed), embedded;
      }
      if store == null {
        return Success([]), embedded;
      }
      var results := store.Query(embedding.value, limit.GetOr(5));
      if results.None? {
        return Failure("query failed"), embedded;
      }
      return Success(ToResults(results.value)), embedded;
    }
  }

  /** Ingesting one more chunk, while no chunk has failed yet: the chunk's
      embedding is stored, or ingest stops with the embedding or store error. */
  lemma IngestStep(embed: Embedder, rejects: VectorRecord -> bool, metadata: Option<Metadata>,
                   chunks: seq<string>, i: nat)
    requires i < |chunks| && Ingested(embed, rejects, metadata, chunks[..i]).1.None?
    ensures var prev := Ingested(embed, rejects, metadata, chunks[..i]).0;
      Ingested(embed, rejects, metadata, chunks[..i + 1]) ==
        match embed(chunks[i])
        case None => (prev, Some(EmbedFailed))
        case Some(e) =>
          var record := VectorRecord(e, WithContent(metadata, chunks[i]));
          if rejects(record) then (prev, Some(AddFailed)) else (prev + [record], None)
  {
    assert chunks[..i + 1][..i] == chunks[..i];
  }

  /** Once ingest has failed on chunk `i`, the result for the whole list is
      the result for the first `i + 1` chunks. */
  lemma {:induction false} IngestStopsAt(embed: Embedder, rejects: VectorRecord -> bool,
                                         metadata: Option<Metadata>, chunks: seq<string>, i: nat)
    requires i < |chunks|
    requires Ingested(embed, rejects, metadata, chunks[..i + 1]).1.Some?
    ensures Ingested(embed, rejects, metadata, chunks) == Ingested(embed, rejects, metadata, chunks[..i + 1])
    decreases |chunks| - i
  {
    if i + 1 < |chunks| {
      var front := chunks[..|chunks| - 1];
      assert front[..i + 1] == chunks[..i + 1];
      IngestStopsAt(embed, rejects, metadata, front, i);
    } else {
      assert chunks[..i + 1] == chunks;
    }
  }

  function ToResult(hit: QueryHit): SearchResult {
    SearchResult(hit.id, hit.metadata, 1.0 - hit.similarity)
  }

  /** The store's answers, one result each, in the same order. */
  function ToResults(hits: seq<QueryHit>): (rs: seq<SearchResult>)
    ensures |rs| == |hits|
    ensures forall i :: 0 <= i < |hits| ==>
      rs[i].id == hits[i].id && rs[i].metadata == hits[i].metadata && rs[i].distance == 1.0 - hits[i].similarity
  {
    if hits == [] then [] else [ToResult(hits[0])] + ToResults(hits[1..])
  }

  predicate SimilarityDescending(hits: seq<QueryHit>) {
    forall i, j :: 0 <= i < j < |hits| ==> hits[i].similarity >= hits[j].similarity
  }

  predicate DistanceAscending(rs: seq<SearchResult>) {
    forall i, j :: 0 <= i < j < |rs| ==> rs[i].distance <= rs[j].distance
  }

  /** The mapping loses nothing: the similarity is recovered from the
      distance, and a best-first answer stays best-first. */
  lemma ResultsPreserveRanking(hits: seq<QueryHit>)
    ensures forall i :: 0 <= i < |hits| ==> 1.0 - ToResults(hits)[i].distance == hits[i].similarity
    ensures SimilarityDescending(hits) <==> DistanceAscending(ToResults(hits))
  {
    var rs := ToResults(hits);
    if DistanceAscending(rs) {
      forall i, j | 0 <= i < j < |hits| ensures hits[i].similarity >= hits[j].similarity {
        assert rs[i].distance <= rs[j].distance;
      }
    }
  }
}

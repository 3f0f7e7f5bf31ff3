/** The context commands of context.rs: the process-wide slot holding the
    optional `SmartContextManager`, its initialisation with configuration
    defaults, its reset, and the commands that go through it. */
module Context {
  import opened Base
  import opened CodeChunks
  import opened ContextManager

  const NotInitialized: string := "Context manager not initialized"

  /** `ContextConfig` as `init_context_manager` builds it. */
  datatype ContextConfig = ContextConfig(maxFiles: nat, maxEmbeddings: nat, dbPath: string,
                                         watchFiles: Option<bool>, chunkSize: Option<nat>,
                                         minChunkOverlap: Option<nat>)

  /** The configuration with the optional settings defaulted: files are
      not watched, chunks are 512 long with an overlap of 32; supplied
      values are kept. */
  function MakeConfig(dbPath: string, maxFiles: nat, maxEmbeddings: nat,
                      watchFiles: Option<bool>, chunkSize: Option<nat>, minChunkOverlap: Option<nat>): (c: ContextConfig)
    ensures c.maxFiles == maxFiles && c.maxEmbeddings == maxEmbeddings && c.dbPath == dbPath
    ensures c.watchFiles == Some(if watchFiles.Some? then watchFiles.value else false)
    ensures c.chunkSize == Some(if chunkSize.Some? then chunkSize.value else 512)
    ensures c.minChunkOverlap == Some(if minChunkOverlap.Some? then minChunkOverlap.value else 32)
  {
    ContextConfig(maxFiles, maxEmbeddings, dbPath,
                  Some(match watchFiles case Some(w) => w case None => false),
                  Some(match chunkSize case Some(n) => n case None => 512),
                  Some(match minChunkOverlap case Some(n) => n case None => 32))
  }

  /** The limit `search_similar_code` passes on: five unless given. */
  function SearchLimit(limit: Option<nat>): (n: nat)
    ensures limit.Some? ==> n == limit.value
    ensures limit.None? ==> n == 5
  {
    match limit
    case Some(n) => n
    case None => 5
  }

  /** `read_context_file`: the file's text, or the read error prefixed with
      the path. */
  function ReadContextFile(path: string, read: Result<string, string>): (r: Result<string, string>)
    ensures read.Ok? ==> r == Ok(read.value)
    ensures read.Err? ==> r == Err("Failed to read file " + path + ": " + read.error)
  {
    match read
    case Ok(text) => Ok(text)
    case Err(e) => Err("Failed to read file " + path + ": " + e)
  }

  /** `GlobalState`: the slot behind `GLOBAL_STATE`. */
  class GlobalState {
    var manager: Option<SmartContextManager>

    ghost predicate Valid()
      reads this, if manager.Some? then {manager.value} else {}
    {
      manager.Some? ==> manager.value.Valid()
    }

    /** `GlobalState::new`: no manager. */
    constructor ()
      ensures Valid() && manager.None?
    {
      manager := None;
    }

    /** `get_manager`: the held manager, or "Context manager not
        initialized". */
    function GetManager(): (r: Result<SmartContextManager, string>)
      reads this
      ensures r.Ok? <==> manager.Some?
      ensures r.Ok? ==> r.value == manager.value
      ensures r.Err? ==> r.error == NotInitialized
    {
      match manager
      case Some(m) => Ok(m)
      case None => Err(NotInitialized)
    }

    /** `reset`: the slot is emptied. */
    method Reset() returns (r: Result<(), string>)
      modifies this
      ensures r.Ok? && manager.None? && Valid()
    {
      manager := None;
      r := Ok(());
    }

    /** `init_context_manager`. `connect` is the outcome of connecting to
        the database and opening or creating the table: its rows when the
        table existed, None when it was created, or the error. */
    method InitContextManager(dbPath: string, maxFiles: nat, maxEmbeddings: nat,
                              watchFiles: Option<bool>, chunkSize: Option<nat>, minChunkOverlap: Option<nat>,
                              connect: Result<Option<seq<Row>>, string>)
      returns (r: Result<(), string>)
      requires Valid()
      requires manager.None? && connect.Ok? ==> maxFiles > 0
      modifies this
      ensures Valid()
      ensures old(manager).Some? ==> r.Ok? && manager == old(manager)
      ensures old(manager).None? && connect.Err? ==>
        r == Err("Failed to create SmartContextManager: " + connect.error) && manager.None?
      ensures old(manager).None? && connect.Ok? ==>
        && r.Ok? && manager.Some? && fresh(manager.value)
        && manager.value.capacity == maxFiles && manager.value.basePath == dbPath
        && manager.value.rows == (if connect.value.Some? then connect.value.value else [])
        && manager.value.cache == EmptyCache
    {
      var config := MakeConfig(dbPath, maxFiles, maxEmbeddings, watchFiles, chunkSize, minChunkOverlap);
      if manager.Some? {
        return Ok(());
      }
      match connect
      case Err(e) =>
        return Err("Failed to create SmartContextManager: " + e);
      case Ok(existing) =>
        var m := new SmartContextManager(config.dbPath, config.maxFiles, existing);
        manager := Some(m);
        r := Ok(());
    }

    /** `add_to_context`: `add_file` on the held manager, its metadata
        dropped. */
    method AddToContext(path: string, content: string, embeddings: Result<seq<Embedding>, string>,
                        ids: seq<string>, fileId: string, now: int) returns (r: Result<(), string>)
      requires Valid()
      requires |ids| >= ChunkCount(|Lines(content)|)
      requires embeddings.Ok? ==> forall e :: e in embeddings.value ==> |e| == EmbeddingDim
      modifies if manager.Some? then {manager.value} else {}
      ensures Valid()
      ensures old(manager).None? ==> r == Err(NotInitialized)
      ensures old(manager).Some? && HasFile(old(manager.value.rows), path) ==>
        && r == Err("File " + path + " is already in context")
        && manager.value.rows == old(manager.value.rows) && manager.value.cache == old(manager.value.cache)
      ensures old(manager).Some? && !HasFile(old(manager.value.rows), path) && embeddings.Err? ==>
        && r == Err(embeddings.error)
        && manager.value.rows == old(manager.value.rows) && manager.value.cache == old(manager.value.cache)
      ensures old(manager).Some? && !HasFile(old(manager.value.rows), path) && embeddings.Ok? ==>
        && r == Ok(())
        && manager.value.rows == old(manager.value.rows) + NewRows(path, content, embeddings.value, ids)
        && manager.value.cache == CachePut(old(manager.value.cache), manager.value.capacity, path,
                                           FileContext(content, FileSymbols(path, content), FileImports(content)))
    {
      if manager.None? {
        return Err(NotInitialized);
      }
      var m := manager.value;
      var added := m.AddFile(path, content, embeddings, ids, fileId, now);
      match added
      case Ok(_) =>
        r := Ok(());
      case Err(e) =>
        r := Err(e);
    }

    /** `is_file_in_context`: whether the table holds rows of `path`. */
    method IsFileInContext(path: string) returns (r: Result<bool, string>)
      ensures manager.None? ==> r == Err(NotInitialized)
      ensures manager.Some? ==> r == Ok(HasFile(manager.value.rows, path))
    {
      var got := GetManager();
      if got.Err? {
        return Err(got.error);
      }
      r := Ok(HasFile(got.value.rows, path));
    }

    /** `search_similar_code`: the nearest chunks, wrapped with a fixed
        relevance of 0.85, an execution time of 0, the first chunk's file
        as source and the chunk count. */
    method SearchSimilarCode(limit: Option<nat>, queryEmbedding: Result<Embedding, string>,
                             results: Result<seq<seq<Row>>, string>, now: int)
      returns (r: Result<QueryContext, string>)
      requires manager.Some? && results.Ok? ==>
        forall b, row :: b in results.value && row in b ==> row in manager.value.rows
      ensures manager.None? ==> r == Err(NotInitialized)
      ensures manager.Some? && queryEmbedding.Err? ==> r == Err(queryEmbedding.error)
      ensures manager.Some? && queryEmbedding.Ok? && results.Err? ==> r == Err(results.error)
      ensures manager.Some? && queryEmbedding.Ok? && results.Ok? ==>
        r.Ok? && r.value.chunks == ChunksOfRows(Flatten(results.value))
      ensures r.Ok? ==>
        && r.value.relevanceScore == 0.85
        && r.value.metadata == QueryMetadata(now, 0, |r.value.chunks|)
        && (|r.value.chunks| > 0 ==> r.value.sourceFile == Some(r.value.chunks[0].filePath))
        && (|r.value.chunks| == 0 ==> r.value.sourceFile == None)
    {
      var got := GetManager();
      if got.Err? {
        return Err(got.error);
      }
      var m := got.value;
      var _ := SearchLimit(limit);
      var found := m.SearchSimilar(queryEmbedding, results);
      if found.Err? {
        return Err(found.error);
      }
      var chunks := found.value;
      var sourceFile := if |chunks| > 0 then Some(chunks[0].filePath) else None;
      r := Ok(QueryContext(chunks, 0.85, sourceFile, QueryMetadata(now, 0, |chunks|)));
    }

    /** `get_context` and `get_file_context`: `get_context` on the held
        manager. */
    method GetContextCommand(queryEmbedding: Result<Embedding, string>, results: Result<seq<seq<Row>>, string>,
                             now: int, elapsedMs: nat) returns (r: Result<QueryContext, string>)
      requires manager.Some? && results.Ok? ==>
        forall b, row :: b in results.value && row in b ==> row in manager.value.rows
      ensures manager.None? ==> r == Err(NotInitialized)
      ensures manager.Some? && queryEmbedding.Ok? && results.Ok? ==>
        r.Ok? && r.value.chunks == ChunksOfRows(Flatten(results.value))
      ensures manager.Some? && queryEmbedding.Err? ==> r == Err(queryEmbedding.error)
      ensures manager.Some? && queryEmbedding.Ok? && results.Err? ==> r == Err(results.error)
      ensures r.Ok? ==> r.value.metadata == QueryMetadata(now, elapsedMs, |r.value.chunks|)
      ensures r.Ok? ==> (r.value.relevanceScore == 0.0 <==> |r.value.chunks| == 0)
      ensures r.Ok? && |r.value.chunks| > 0 ==>
        r.value.relevanceScore == 0.85 && r.value.sourceFile == Some(r.value.chunks[0].filePath)
      ensures r.Ok? && |r.value.chunks| == 0 ==> r.value.sourceFile == None
    {
      var got := GetManager();
      if got.Err? {
        return Err(got.error);
      }
      r := got.value.GetContext(queryEmbedding, results, now, elapsedMs);
    }

    /** `get_context_stats`: `get_stats` on the held manager. */
    method GetContextStats(scan: Result<seq<seq<Row>>, string>) returns (r: Result<ContextStats, string>)
      requires Valid()
      requires manager.Some? && scan.Ok? ==> Flatten(scan.value) == manager.value.rows
      ensures manager.None? ==> r == Err(NotInitialized)
      ensures manager.Some? && scan.Ok? ==>
        r == Ok(ContextStats(|manager.value.rows|, |manager.value.cache.entries|, ContentBytes(manager.value.rows)))
      ensures manager.Some? && scan.Err? ==> r == Err(scan.error)
    {
      var got := GetManager();
      if got.Err? {
        return Err(got.error);
      }
      r := got.value.GetStats(scan);
    }

    /** `generate_embeddings`: the embedding model's answer through the
        held manager. */
    method GenerateEmbeddings(embedding: Result<Embedding, string>) returns (r: Result<Embedding, string>)
      ensures manager.None? ==> r == Err(NotInitialized)
      ensures manager.Some? ==> r == embedding
    {
      var got := GetManager();
      if got.Err? {
        return Err(got.error);
      }
      r := embedding;
    }
  }
}

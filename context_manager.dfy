/** `SmartContextManager` (context_manager.rs): the `context_chunks` table
    as a sequence of rows, the LRU file cache, adding a file, vector search
    read-back, query shaping and statistics. The embedding model, the vector
    index, UUIDs and clocks are oracles passed in as parameters. */
module ContextManager {
  import opened Base
  import opened CodeChunks
  import Utf8

  /** `EMBEDDING_DIM`: the width of every stored embedding. */
  const EmbeddingDim: nat := 1024

  const TwoTo31: int := 0x8000_0000
  const TwoTo32: int := 0x1_0000_0000
  const TwoTo64: int := 0x1_0000_0000_0000_0000

  type i32 = x: int | -0x8000_0000 <= x < 0x8000_0000

  /** An embedding vector; its `f32` values are never inspected here. */
  type Embedding = seq<real>

  /** One row of `context_chunks`, in the column order of its schema. */
  datatype Row = Row(id: string, filePath: string, content: string, embedding: Embedding,
                     startLine: i32, endLine: i32, symbolKind: Option<string>)

  datatype FileMetadata = FileMetadata(id: string, path: string, lastUpdated: int)

  datatype ContextStats = ContextStats(totalFiles: nat, activeFiles: nat, totalSize: nat)

  datatype QueryMetadata = QueryMetadata(timestamp: int, executionTimeMs: nat, totalChunksSearched: nat)

  datatype QueryContext = QueryContext(chunks: seq<ChunkInfo>, relevanceScore: real,
                                       sourceFile: Option<string>, metadata: QueryMetadata)

  // ---------------------------------------------------------------------------
  // Line numbers through the Int32 columns

  /** `n as i32` for a `usize`: the low 32 bits read in two's complement. */
  function ToI32(n: nat): (r: i32)
    ensures (r - n) % TwoTo32 == 0
  {
    var m := n % TwoTo32;
    if m < TwoTo31 then m else m - TwoTo32
  }

  /** `v as usize` for an `i32` on a 64-bit target: sign extension. */
  function ToUsize(v: i32): (r: nat)
    ensures r < TwoTo64 && (r - v) % TwoTo64 == 0
  {
    if v < 0 then v + TwoTo64 else v
  }

  /** For line numbers that fit in 32 bits, the trip through the Int32
      column is exact precisely below 2^31; from 2^31 on the number comes
      back sign-extended. */
  lemma LineNumberRoundTrip(n: nat)
    requires n < TwoTo32
    ensures ToUsize(ToI32(n)) == n <==> n < TwoTo31
  {
    if n >= TwoTo31 {
      assert ToI32(n) == n - TwoTo32;
    }
  }

  /** The row `add_file` stores for a chunk and its embedding. */
  function RowOf(id: string, c: ChunkInfo, e: Embedding): Row
  {
    Row(id, c.filePath, c.content, e, ToI32(c.startLine), ToI32(c.endLine), Some(FormatKind(c.symbolKind)))
  }

  /** The chunk `search_similar` reads back from a row. */
  function ChunkOf(r: Row): ChunkInfo
  {
    ChunkInfo(r.content, ToUsize(r.startLine), ToUsize(r.endLine), r.filePath, ParseKindCell(r.symbolKind))
  }

  /** A stored chunk reads back unchanged when its line numbers are below 2^31. */
  lemma ChunkRowRoundTrip(id: string, c: ChunkInfo, e: Embedding)
    requires c.startLine < TwoTo31 && c.endLine < TwoTo31
    ensures ChunkOf(RowOf(id, c, e)) == c
  {
    KindRoundTrip(c.symbolKind);
  }

  function ChunksOfRows(rows: seq<Row>): (r: seq<ChunkInfo>)
    ensures |r| == |rows|
    ensures forall i :: 0 <= i < |rows| ==> r[i] == ChunkOf(rows[i])
  {
    seq(|rows|, i requires 0 <= i < |rows| => ChunkOf(rows[i]))
  }

  /** The rows of a stream of record batches, in order. */
  function Flatten(batches: seq<seq<Row>>): seq<Row>
    decreases |batches|
  {
    if |batches| == 0 then [] else Flatten(batches[..|batches| - 1]) + batches[|batches| - 1]
  }

  /** Reading one more batch appends its rows. */
  lemma FlattenStep(batches: seq<seq<Row>>, b: nat)
    requires b < |batches|
    ensures Flatten(batches[..b + 1]) == Flatten(batches[..b]) + batches[b]
  {
    assert batches[..b + 1][..b] == batches[..b];
  }

  // ---------------------------------------------------------------------------
  // Building the record batch

  /** The row-building loop of `add_file`: chunks zipped with their
      embeddings (the shorter list decides), one fresh id per row, gathered
      column by column and then assembled into a batch. */
  method BuildRows(chunks: seq<ChunkInfo>, embeddings: seq<Embedding>, ids: seq<string>) returns (rows: seq<Row>)
    requires |ids| >= |chunks|
    ensures |rows| == Min(|chunks|, |embeddings|)
    ensures forall i :: 0 <= i < |rows| ==> rows[i] == RowOf(ids[i], chunks[i], embeddings[i])
  {
    var n := Min(|chunks|, |embeddings|);
    var idCol: seq<string> := [];
    var pathCol: seq<string> := [];
    var contentCol: seq<string> := [];
    var embeddingCol: seq<Embedding> := [];
    var startCol: seq<i32> := [];
    var endCol: seq<i32> := [];
    var kindCol: seq<string> := [];
    var i := 0;
    while i < n
      invariant 0 <= i <= n
      invariant |idCol| == |pathCol| == |contentCol| == |embeddingCol| == |startCol| == |endCol| == |kindCol| == i
      invariant forall j :: 0 <= j < i ==>
        && idCol[j] == ids[j] && pathCol[j] == chunks[j].filePath && contentCol[j] == chunks[j].content
        && embeddingCol[j] == embeddings[j] && startCol[j] == ToI32(chunks[j].startLine)
        && endCol[j] == ToI32(chunks[j].endLine) && kindCol[j] == FormatKind(chunks[j].symbolKind)
    {
      idCol := idCol + [ids[i]];
      pathCol := pathCol + [chunks[i].filePath];
      contentCol := contentCol + [chunks[i].content];
      startCol := startCol + [ToI32(chunks[i].startLine)];
      endCol := endCol + [ToI32(chunks[i].endLine)];
      kindCol := kindCol + [FormatKind(chunks[i].symbolKind)];
      embeddingCol := embeddingCol + [embeddings[i]];
      i := i + 1;
    }
    rows := seq(n, j requires 0 <= j < n =>
      Row(idCol[j], pathCol[j], contentCol[j], embeddingCol[j], startCol[j], endCol[j], Some(kindCol[j])));
  }

  /** The rows `add_file` builds for a file, as a value. */
  function NewRows(path: string, content: string, embeddings: seq<Embedding>, ids: seq<string>): (r: seq<Row>)
    requires |ids| >= ChunkCount(|Lines(content)|)
    ensures |r| == Min(ChunkCount(|Lines(content)|), |embeddings|)
  {
    var chunks := FileChunks(path, content);
    seq(Min(|chunks|, |embeddings|), i requires 0 <= i < Min(|chunks|, |embeddings|) =>
      RowOf(ids[i], chunks[i], embeddings[i]))
  }

  /** What is stored can be read back: for files of fewer than 2^31 lines,
      searching the new rows yields the file's chunks, in order (all of them
      when the embedding model returned one vector per chunk). */
  lemma StoredChunksReadBack(path: string, content: string, embeddings: seq<Embedding>, ids: seq<string>)
    requires |ids| >= ChunkCount(|Lines(content)|)
    requires |Lines(content)| < TwoTo31
    ensures var rows := NewRows(path, content, embeddings, ids);
      ChunksOfRows(rows) == FileChunks(path, content)[..|rows|]
  {
    var rows := NewRows(path, content, embeddings, ids);
    var chunks := FileChunks(path, content);
    forall i | 0 <= i < |rows| ensures ChunkOf(rows[i]) == chunks[i] {
      FileChunkBounds(path, content, i);
      ChunkRowRoundTrip(ids[i], chunks[i], embeddings[i]);
    }
  }

  // ---------------------------------------------------------------------------
  // has_file

  /** A row of the table belongs to `path`: what `has_file` is meant to ask. */
  predicate HasFile(rows: seq<Row>, path: string)
  {
    exists i :: 0 <= i < |rows| && rows[i].filePath == path
  }

  /** `has_file` as written: an unfiltered query over the whole table, true
      as soon as the stream yields any batch, i.e. whenever the table has a
      row -- whatever `path` is. */
  predicate HasFileAsWritten(rows: seq<Row>, path: string)
  {
    |rows| > 0
  }

  /** As written, one stored file makes every other path look present, so
      `add_file` of a new file fails with "already in context". */
  lemma HasFileIgnoresPath()
    ensures var rows := [Row("id", "a.rs", "fn a() {}", [], 0, 1, Some(""))];
      HasFileAsWritten(rows, "b.rs") && !HasFile(rows, "b.rs")
  {
    var rows := [Row("id", "a.rs", "fn a() {}", [], 0, 1, Some(""))];
    assert rows[0].filePath != "b.rs";
  }

  /** After a file is added with at least one row, it is present; other
      paths are present exactly when they were before. */
  lemma HasFileAfterAdd(rows: seq<Row>, path: string, content: string, embeddings: seq<Embedding>,
                        ids: seq<string>, other: string)
    requires |ids| >= ChunkCount(|Lines(content)|)
    ensures var added := NewRows(path, content, embeddings, ids);
      |added| > 0 ==> HasFile(rows + added, path)
    ensures other != path ==>
      (HasFile(rows + NewRows(path, content, embeddings, ids), other) <==> HasFile(rows, other))
  {
    var added := NewRows(path, content, embeddings, ids);
    var all := rows + added;
    if |added| > 0 {
      assert all[|rows|].filePath == path;
    }
    if other != path && HasFile(all, other) {
      var i :| 0 <= i < |all| && all[i].filePath == other;
      assert i < |rows|;
      assert rows[i].filePath == other;
    }
    if HasFile(rows, other) {
      var i :| 0 <= i < |rows| && rows[i].filePath == other;
      assert all[i].filePath == other;
    }
  }

  // ---------------------------------------------------------------------------
  // table.add

  /** The table after `add_file` as written: `self.table.add(batch)` builds
      an insert that is never executed, so nothing is stored. */
  function TableAfterAddAsWritten(rows: seq<Row>, added: seq<Row>): seq<Row>
  {
    rows
  }

  /** As written, a successfully added file is not in the table afterwards,
      whereas inserting the batch makes it present. */
  lemma AddedFileMissingAsWritten(rows: seq<Row>, added: seq<Row>, path: string)
    requires !HasFile(rows, path) && |added| > 0 && added[0].filePath == path
    ensures !HasFile(TableAfterAddAsWritten(rows, added), path)
    ensures HasFile(rows + added, path)
  {
    assert (rows + added)[|rows|] == added[0];
  }

  // ---------------------------------------------------------------------------
  // The LRU file cache

  /** `LruCache<String, FileContext>`: keys from least to most recently
      used, and the entries. */
  datatype FileCache = FileCache(order: seq<string>, entries: map<string, FileContext>)

  const EmptyCache: FileCache := FileCache([], map[])

  predicate Distinct(s: seq<string>)
  {
    forall i, j :: 0 <= i < j < |s| ==> s[i] != s[j]
  }

  ghost predicate CacheValid(c: FileCache)
  {
    Distinct(c.order) && (forall k :: k in c.entries <==> k in c.order)
  }

  function Remove(s: seq<string>, x: string): (r: seq<string>)
    ensures forall y :: y in r <==> (y in s && y != x)
    ensures Distinct(s) ==> Distinct(r) && |r| == if x in s then |s| - 1 else |s|
    decreases |s|
  {
    if |s| == 0 then []
    else if s[0] == x then
      assert Distinct(s) ==> x !in s[1..];
      Remove(s[1..], x)
    else
      var rest := Remove(s[1..], x);
      assert Distinct(s) ==> s[0] !in rest;
      [s[0]] + rest
  }

  lemma {:induction false} DistinctCard(s: seq<string>)
    requires Distinct(s)
    ensures |set x | x in s| == |s|
    decreases |s|
  {
    if |s| > 0 {
      DistinctCard(s[1..]);
      assert (set x | x in s) == {s[0]} + (set x | x in s[1..]);
      assert s[0] !in (set x | x in s[1..]);
    }
  }

  /** A consistent cache holds as many entries as its recency list has keys. */
  lemma CacheSize(c: FileCache)
    requires CacheValid(c)
    ensures |c.entries| == |c.order|
  {
    assert c.entries.Keys == set x | x in c.order;
    DistinctCard(c.order);
  }

  /** `LruCache::put`: the key becomes the most recently used; a new key in
      a full cache first evicts the least recently used one. */
  function CachePut(c: FileCache, capacity: nat, key: string, value: FileContext): FileCache
  {
    if key in c.entries then FileCache(Remove(c.order, key) + [key], c.entries[key := value])
    else if 0 < |c.order| && capacity <= |c.order| then
      FileCache(c.order[1..] + [key], (c.entries - {c.order[0]})[key := value])
    else FileCache(c.order + [key], c.entries[key := value])
  }

  lemma DistinctSnoc(s: seq<string>, x: string)
    requires Distinct(s) && x !in s
    ensures Distinct(s + [x])
  {
    forall i, j | 0 <= i < j < |s + [x]| ensures (s + [x])[i] != (s + [x])[j] {
      assert (s + [x])[i] == s[i];
      if j < |s| { assert (s + [x])[j] == s[j]; }
    }
  }

  /** What `put` promises of the cache `d` it leaves. */
  ghost predicate PutKeeps(c: FileCache, d: FileCache, capacity: nat, key: string, value: FileContext)
  {
    && CacheValid(d) && |d.order| <= capacity
    && key in d.entries && d.entries[key] == value && d.order[|d.order| - 1] == key
    && (forall k :: k in d.entries && k != key ==> k in c.entries && d.entries[k] == c.entries[k])
    && |d.entries| == if key in c.entries then |c.entries| else Min(|c.entries| + 1, capacity)
  }

  /** `put` of a key already cached moves it to the most recent end. */
  lemma CachePutPresent(c: FileCache, capacity: nat, key: string, value: FileContext)
    requires CacheValid(c) && 0 < capacity && |c.order| <= capacity && key in c.entries
    ensures PutKeeps(c, CachePut(c, capacity, key, value), capacity, key, value)
  {
    var d := CachePut(c, capacity, key, value);
    CacheSize(c);
    DistinctSnoc(Remove(c.order, key), key);
    CacheSize(d);
  }

  /** Dropping the least recently used key and appending a new one keeps
      the cache consistent. */
  lemma EvictValid(c: FileCache, key: string, value: FileContext)
    requires CacheValid(c) && 0 < |c.order| && key !in c.entries
    ensures CacheValid(FileCache(c.order[1..] + [key], (c.entries - {c.order[0]})[key := value]))
  {
    var oldest, tail := c.order[0], c.order[1..];
    var order, entries := tail + [key], (c.entries - {oldest})[key := value];
    assert c.order == [oldest] + tail;
    assert Distinct(tail) && oldest !in tail;
    DistinctSnoc(tail, key);
    forall k ensures k in entries <==> k in order {
      assert k in order <==> k in tail || k == key;
      assert k in c.order <==> k == oldest || k in tail;
    }
  }

  /** Eviction keeps every other surviving entry. */
  lemma EvictKeepsOthers(c: FileCache, key: string, value: FileContext)
    requires 0 < |c.order|
    ensures var e := (c.entries - {c.order[0]})[key := value];
      forall k :: k in e && k != key ==> k in c.entries && e[k] == c.entries[k]
  {
  }

  /** A full cache stays full after an eviction. */
  lemma EvictSize(c: FileCache, capacity: nat, key: string, value: FileContext)
    requires CacheValid(c) && |c.order| == capacity && 0 < capacity && key !in c.entries
    ensures |(c.entries - {c.order[0]})[key := value]| == Min(|c.entries| + 1, capacity)
  {
    EvictValid(c, key, value);
    CacheSize(c);
    CacheSize(FileCache(c.order[1..] + [key], (c.entries - {c.order[0]})[key := value]));
  }

  /** `put` of a new key into a full cache evicts the least recently used. */
  lemma CachePutEvicting(c: FileCache, capacity: nat, key: string, value: FileContext)
    requires CacheValid(c) && 0 < capacity && |c.order| <= capacity && key !in c.entries
    requires 0 < |c.order| && capacity <= |c.order|
    ensures PutKeeps(c, CachePut(c, capacity, key, value), capacity, key, value)
  {
    assert CachePut(c, capacity, key, value) == FileCache(c.order[1..] + [key], (c.entries - {c.order[0]})[key := value]);
    EvictValid(c, key, value);
    EvictKeepsOthers(c, key, value);
    EvictSize(c, capacity, key, value);
  }

  /** Appending a new key keeps the cache consistent and one larger. */
  lemma AppendValid(c: FileCache, key: string, value: FileContext)
    requires CacheValid(c) && key !in c.entries
    ensures CacheValid(FileCache(c.order + [key], c.entries[key := value]))
    ensures |c.entries[key := value]| == |c.entries| + 1
  {
    DistinctSnoc(c.order, key);
  }

  /** `put` of a new key into a cache with room appends it. */
  lemma CachePutAppending(c: FileCache, capacity: nat, key: string, value: FileContext)
    requires CacheValid(c) && 0 < capacity && |c.order| <= capacity && key !in c.entries
    requires !(0 < |c.order| && capacity <= |c.order|)
    ensures PutKeeps(c, CachePut(c, capacity, key, value), capacity, key, value)
  {
    assert CachePut(c, capacity, key, value) == FileCache(c.order + [key], c.entries[key := value]);
    AppendValid(c, key, value);
    CacheSize(c);
  }

  /** `put` keeps the cache consistent and within `max_files` entries, maps
      the key to the new value as the most recently used, drops at most one
      other entry (only when the key is new and the cache full), and leaves
      every remaining entry as it was. */
  lemma CachePutSpec(c: FileCache, capacity: nat, key: string, value: FileContext)
    requires CacheValid(c) && 0 < capacity && |c.order| <= capacity
    ensures var d := CachePut(c, capacity, key, value);
      && CacheValid(d) && |d.order| <= capacity
      && key in d.entries && d.entries[key] == value && d.order[|d.order| - 1] == key
      && (forall k :: k in d.entries && k != key ==> k in c.entries && d.entries[k] == c.entries[k])
      && |d.entries| == if key in c.entries then |c.entries| else Min(|c.entries| + 1, capacity)
  {
    if key in c.entries {
      CachePutPresent(c, capacity, key, value);
    } else if 0 < |c.order| && capacity <= |c.order| {
      CachePutEvicting(c, capacity, key, value);
    } else {
      CachePutAppending(c, capacity, key, value);
    }
  }

  // ---------------------------------------------------------------------------
  // Sizes

  /** The sum of the UTF-8 lengths (`str::len`) of the rows' contents. */
  function ContentBytes(rows: seq<Row>): nat
    decreases |rows|
  {
    if |rows| == 0 then 0 else ContentBytes(rows[..|rows| - 1]) + |Utf8.Encode(rows[|rows| - 1].content)|
  }

  function ContentChars(rows: seq<Row>): nat
    decreases |rows|
  {
    if |rows| == 0 then 0 else ContentChars(rows[..|rows| - 1]) + |rows[|rows| - 1].content|
  }

  lemma {:induction false} ContentBytesAppend(a: seq<Row>, b: seq<Row>)
    ensures ContentBytes(a + b) == ContentBytes(a) + ContentBytes(b)
    decreases |b|
  {
    if |b| == 0 {
      assert a + b == a;
    } else {
      assert (a + b)[..|a + b| - 1] == a + b[..|b| - 1];
      ContentBytesAppend(a, b[..|b| - 1]);
    }
  }

  lemma ContentBytesStep(rows: seq<Row>, i: nat)
    requires i < |rows|
    ensures ContentBytes(rows[..i + 1]) == ContentBytes(rows[..i]) + |Utf8.Encode(rows[i].content)|
  {
    assert rows[..i + 1][..i] == rows[..i];
  }

  /** The reported size counts bytes, not characters: between one and four
      bytes per character of content. */
  lemma {:induction false} ContentBytesBounds(rows: seq<Row>)
    ensures ContentChars(rows) <= ContentBytes(rows) <= 4 * ContentChars(rows)
    decreases |rows|
  {
    if |rows| > 0 {
      ContentBytesBounds(rows[..|rows| - 1]);
      Utf8.EncodeLength(rows[|rows| - 1].content);
    }
  }

  // ---------------------------------------------------------------------------
  // The search loop as written

  /** The chunks `search_similar` has collected after `n` iterations of its
      loop as written: every iteration calls `execute()` again and reads the
      first batch of the new stream, so the loop goes on as long as the
      search has any result at all. */
  function SearchLoopAsWritten(results: seq<seq<Row>>, n: nat): seq<ChunkInfo>
    decreases n
  {
    if n == 0 || |results| == 0 then [] else SearchLoopAsWritten(results, n - 1) + ChunksOfRows(results[0])
  }

  /** One stored row suffices: as written, after any number of iterations
      the loop has collected that row's chunk once per iteration and its
      guard still holds, whereas one pass over the results returns it once. */
  lemma {:induction false} SearchLoopRepeatsFirstBatch(row: Row, n: nat)
    ensures |[[row]]| > 0
    ensures SearchLoopAsWritten([[row]], n) == seq(n, _ => ChunkOf(row))
    ensures ChunksOfRows(Flatten([[row]])) == [ChunkOf(row)]
    decreases n
  {
    if n > 0 {
      SearchLoopRepeatsFirstBatch(row, n - 1);
      assert seq(n, _ => ChunkOf(row)) == seq(n - 1, _ => ChunkOf(row)) + [ChunkOf(row)];
    }
    assert Flatten([[row]]) == Flatten([]) + [row];
  }

  // ---------------------------------------------------------------------------
  // The manager

  class SmartContextManager {
    /** The `context_chunks` table. */
    var rows: seq<Row>
    /** `file_cache`. */
    var cache: FileCache
    /** `max_files`, the cache's capacity. */
    const capacity: nat
    /** `base_path`, the database directory. */
    const basePath: string

    ghost predicate Valid()
      reads this
    {
      0 < capacity && CacheValid(cache) && |cache.order| <= capacity
    }

    /** `new` once the database is connected: the rows of the table if it
        could be opened, an empty table if it had to be created, and an
        empty cache of `max_files` entries. */
    constructor (dbPath: string, maxFiles: nat, existing: Option<seq<Row>>)
      requires maxFiles > 0
      ensures Valid()
      ensures rows == (if existing.Some? then existing.value else []) && cache == EmptyCache
      ensures capacity == maxFiles && basePath == dbPath
    {
      rows := if existing.Some? then existing.value else [];
      cache := EmptyCache;
      capacity := maxFiles;
      basePath := dbPath;
    }

    /** `cleanup`: the cache is cleared, the table kept. */
    method Cleanup()
      requires Valid()
      modifies this
      ensures Valid() && cache == EmptyCache && rows == old(rows)
    {
      cache := EmptyCache;
    }

    /** `add_file` with `has_file` asking for rows of `path` and the batch
        inserted into the table. `embeddings` is the embedding model's answer
        (one vector per chunk), `ids` the row UUIDs, `fileId` and `now` the
        metadata's UUID and timestamp. */
    method AddFile(path: string, content: string, embeddings: Result<seq<Embedding>, string>,
                   ids: seq<string>, fileId: string, now: int) returns (r: Result<FileMetadata, string>)
      requires Valid()
      requires |ids| >= ChunkCount(|Lines(content)|)
      requires embeddings.Ok? ==> forall e :: e in embeddings.value ==> |e| == EmbeddingDim
      modifies this
      ensures Valid()
      ensures HasFile(old(rows), path) ==>
        r == Err("File " + path + " is already in context") && rows == old(rows) && cache == old(cache)
      ensures !HasFile(old(rows), path) && embeddings.Err? ==>
        r == Err(embeddings.error) && rows == old(rows) && cache == old(cache)
      ensures !HasFile(old(rows), path) && embeddings.Ok? ==>
        && r == Ok(FileMetadata(fileId, path, now))
        && rows == old(rows) + NewRows(path, content, embeddings.value, ids)
        && cache == CachePut(old(cache), capacity, path,
                             FileContext(content, FileSymbols(path, content), FileImports(content)))
    {
      if HasFile(rows, path) {
        return Err("File " + path + " is already in context");
      }
      var chunks, symbols := ProcessFile(path, content);
      FileChunksUnique(path, content, chunks);
      if embeddings.Err? {
        return Err(embeddings.error);
      }
      var added := BuildRows(chunks, embeddings.value, ids);
      assert added == NewRows(path, content, embeddings.value, ids);
      rows := rows + added;
      var imports := ExtractImports(content);
      var fileContext := FileContext(content, symbols, imports);
      CachePutSpec(cache, capacity, path, fileContext);
      cache := CachePut(cache, capacity, path, fileContext);
      r := Ok(FileMetadata(fileId, path, now));
    }

    /** `search_similar` with its read loop corrected to go once over the
        result stream: every row of every batch, in order, read back as a
        chunk. `queryEmbedding` is the embedding model's answer and
        `results` the vector search's batches (or the index or query
        failure); the source ignores its `limit` argument. */
    method SearchSimilar(queryEmbedding: Result<Embedding, string>, results: Result<seq<seq<Row>>, string>)
      returns (r: Result<seq<ChunkInfo>, string>)
      requires results.Ok? ==> forall b, row :: b in results.value && row in b ==> row in rows
      ensures queryEmbedding.Err? ==> r == Err(queryEmbedding.error)
      ensures queryEmbedding.Ok? && results.Err? ==> r == Err(results.error)
      ensures queryEmbedding.Ok? && results.Ok? ==> r == Ok(ChunksOfRows(Flatten(results.value)))
      ensures r.Ok? ==> forall c :: c in r.value ==> exists row :: row in rows && c == ChunkOf(row)
    {
      if queryEmbedding.Err? {
        return Err(queryEmbedding.error);
      }
      if results.Err? {
        return Err(results.error);
      }
      var batches := results.value;
      var chunks: seq<ChunkInfo> := [];
      var b := 0;
      while b < |batches|
        invariant 0 <= b <= |batches|
        invariant chunks == ChunksOfRows(Flatten(batches[..b]))
        invariant forall row :: row in Flatten(batches[..b]) ==> row in rows
      {
        var batch := batches[b];
        var i := 0;
        while i < |batch|
          invariant 0 <= i <= |batch|
          invariant chunks == ChunksOfRows(Flatten(batches[..b]) + batch[..i])
        {
          chunks := chunks + [ChunkOf(batch[i])];
          i := i + 1;
          assert Flatten(batches[..b]) + batch[..i] == (Flatten(batches[..b]) + batch[..i - 1]) + [batch[i - 1]];
        }
        assert batch[..i] == batch;
        FlattenStep(batches, b);
        forall row | row in batch ensures row in rows {
          assert batch in batches;
        }
        b := b + 1;
      }
      assert batches[..b] == batches;
      r := Ok(chunks);
      forall c | c in chunks ensures exists row :: row in rows && c == ChunkOf(row) {
        var k :| 0 <= k < |chunks| && chunks[k] == c;
        assert Flatten(batches)[k] in rows;
      }
    }

    /** `get_context`: a search for the five nearest chunks, wrapped with
        a relevance of 0.85 when anything was found and 0.0 otherwise, the
        first chunk's file as source, and the chunk count. */
    method GetContext(queryEmbedding: Result<Embedding, string>, results: Result<seq<seq<Row>>, string>,
                      now: int, elapsedMs: nat) returns (r: Result<QueryContext, string>)
      requires results.Ok? ==> forall b, row :: b in results.value && row in b ==> row in rows
      ensures queryEmbedding.Err? ==> r == Err(queryEmbedding.error)
      ensures queryEmbedding.Ok? && results.Err? ==> r == Err(results.error)
      ensures queryEmbedding.Ok? && results.Ok? ==> r.Ok? && r.value.chunks == ChunksOfRows(Flatten(results.value))
      ensures r.Ok? ==> r.value.metadata == QueryMetadata(now, elapsedMs, |r.value.chunks|)
      ensures r.Ok? ==> (r.value.relevanceScore == 0.0 <==> |r.value.chunks| == 0)
      ensures r.Ok? && |r.value.chunks| > 0 ==>
        r.value.relevanceScore == 0.85 && r.value.sourceFile == Some(r.value.chunks[0].filePath)
      ensures r.Ok? && |r.value.chunks| == 0 ==> r.value.sourceFile == None
    {
      var found := SearchSimilar(queryEmbedding, results);
      if found.Err? {
        return Err(found.error);
      }
      var chunks := found.value;
      var sourceFile := if |chunks| > 0 then Some(chunks[0].filePath) else None;
      var relevance := if |chunks| == 0 then 0.0 else 0.85;
      r := Ok(QueryContext(chunks, relevance, sourceFile, QueryMetadata(now, elapsedMs, |chunks|)));
    }

    /** `calculate_total_size`: the UTF-8 byte lengths of every row's
        content, read batch by batch from a full scan of the table. */
    method CalculateTotalSize(batches: seq<seq<Row>>) returns (total: nat)
      requires Flatten(batches) == rows
      ensures total == ContentBytes(rows)
    {
      total := 0;
      var b := 0;
      while b < |batches|
        invariant 0 <= b <= |batches|
        invariant total == ContentBytes(Flatten(batches[..b]))
      {
        var batch := batches[b];
        ghost var before := total;
        var i := 0;
        while i < |batch|
          invariant 0 <= i <= |batch|
          invariant total == before + ContentBytes(batch[..i])
        {
          ContentBytesStep(batch, i);
          total := total + |Utf8.Encode(batch[i].content)|;
          i := i + 1;
        }
        assert batch[..i] == batch;
        FlattenStep(batches, b);
        ContentBytesAppend(Flatten(batches[..b]), batch);
        b := b + 1;
      }
      assert batches[..b] == batches;
    }

    /** `get_stats`: the number of rows (reported as `totalFiles`), the
        number of cached files, never more than `max_files`, and the total
        content size in bytes. `scan` is the full table scan, or the
        failure of counting or scanning. */
    method GetStats(scan: Result<seq<seq<Row>>, string>) returns (r: Result<ContextStats, string>)
      requires Valid()
      requires scan.Ok? ==> Flatten(scan.value) == rows
      ensures scan.Err? ==> r == Err(scan.error)
      ensures scan.Ok? ==> r == Ok(ContextStats(|rows|, |cache.entries|, ContentBytes(rows)))
      ensures r.Ok? ==> r.value.activeFiles <= capacity
    {
      if scan.Err? {
        return Err(scan.error);
      }
      var totalSize := CalculateTotalSize(scan.value);
      CacheSize(cache);
      r := Ok(ContextStats(|rows|, |cache.entries|, totalSize));
    }
  }
}

# MightyDev backend core in Dafny

This project models the Rust backend of MightyDev, a desktop coding-assistant shell built on Tauri, and proves properties of that model. It covers eight parts of the backend:

- **Code context** (`context/context_manager.rs`): the `SmartContextManager`. It splits a file into 50-line chunks and extracts `class`/`fn`/`struct` symbols and `use` imports. It turns chunks into rows of the vector table and back, and keeps a bounded LRU cache of file contexts. It also answers context queries and statistics. Modules: `CodeChunks`, `ContextManager`.
- **Context commands** (`context/context.rs`): the global slot that holds an optional manager, configuration defaulting, and the commands that go through the slot. Module: `Context`.
- **File-system commands** (`commands/fs.rs`):
  - path resolution against the project root;
  - the nearest-ancestor project-root search;
  - the directory listing, with its error codes and its sort (directories first, then names compared case-insensitively);
  - the guards of read, write, create, delete and rename;
  - the watcher's mapping from events to change messages.

  Modules: `FsPaths`, `Fs`.
- **Process manager** (`commands/process_manager.rs`): which processes count as other instances, how many were killed, the lock-file path, and how the commands shape their results. Module: `ProcessManagement`.
- **Storage** (`commands/storage.rs`): the `STORAGE_MANAGER` slot and its lifecycle, over a RocksDB database modelled as a sorted sequence of byte-string pairs. It covers put, get, delete, prefix scan and cleanup, with their error codes. Module: `Storage`.
- **Terminal sessions** (`commands/terminal_session.rs`): the session map and the default-shell rule. Module: `TerminalSession`.
- **CORS handler** (`plugins/cors.rs`): the `mycors` request handler and the response-builder checks it relies on. Module: `Cors`.
- **Auth token** (`commands/auth.rs`): the single optional token cell. Module: `Auth`.

Two support modules sit underneath:

- `Base` holds Option/Result, ASCII case folding, substring search, trimming, lexicographic order and decimal numbers.
- `Utf8` holds Rust's `as_bytes`, `String::from_utf8` and `String::from_utf8_lossy` on the char sequence Dafny uses for strings.

## How the world is modelled

- **Outside calls are inputs.** Every call to the outside world becomes a parameter that carries its outcome: the database, the vector table, the PTY, the OS process list, the clock, UUIDs, the embedding model and file-system effects. A method that may fail receives a `Result` for each step, and its contract says which error surfaces for each combination.
- **The file system** is a set of existing paths and a set of directories.
- **The vector table** is the sequence of its rows.
- **A query result** is a sequence of record batches.

## Where the code departs from what its comments or names suggest

The model follows the code in each of these cases:

- `read_file` reports a missing file as `FILE_NOT_FOUND` / "File not found". The other commands use `PATH_NOT_FOUND` (`Fs.ReadFile`).
- `ProcessManager::initialize` is documented as also cleaning lock files. It only terminates other instances, and always returns Ok (`ProcessManagement.ProcessManager.Initialize`).
- `search_similar` takes a `limit`, and `search_similar_code` defaults it to 5. The search never uses it (`ContextManager.SmartContextManager.SearchSimilar`).
- `create_session` takes a `TerminalConfig` but ignores it. The shell always comes from `get_default_shell` (`TerminalSession.SessionManager.CreateSession`).
- `get_stats` names its first field `totalFiles`, but it counts table rows (chunks), not files (`ContextManager.SmartContextManager.GetStats`).
- `cleanup_storage` has an error branch for a failed shutdown. `StorageManager::shutdown` always returns Ok, so the branch is unreachable and the model has no such error (`Storage.StorageSlot.Cleanup`).

## Model

| member | source | states |
|---|---|---|
| Base.ContainsIff | src-tauri/src/commands/process_manager.rs:94 | `contains` holds exactly when the needle occurs at some position of the haystack |
| Base.LexLeTotal | src-tauri/src/commands/fs.rs:151-156 | the byte-wise string order used for names is total |
| Base.LexLeTransitive | src-tauri/src/commands/fs.rs:151-156 | the byte-wise string order used for names is transitive |
| Base.LexLeAntisymmetric | src-tauri/src/commands/fs.rs:151-156 | two names each ordered before the other are equal |
| Base.NatToStringRoundTrip | src-tauri/src/commands/process_manager.rs:198 | the decimal rendering of a count parses back to that count |
| Utf8.EncodeAppend | src-tauri/src/commands/storage.rs:126 | `as_bytes` of a concatenation is the concatenation of the encodings |
| Utf8.EncodeLength | src-tauri/src/context/context_manager.rs:562 | a string's UTF-8 length lies between its char count and four times it, and equals the char count for ASCII text |
| Utf8.DecodeEncode | src-tauri/src/commands/storage.rs:207-210 | `String::from_utf8` accepts every encoded string and returns that string |
| Utf8.EncodeDecode | src-tauri/src/commands/storage.rs:207-210 | whatever `String::from_utf8` accepts re-encodes to the very same bytes |
| Utf8.DecodeLossyEncode | src-tauri/src/commands/storage.rs:150 | `from_utf8_lossy` of a stored string's bytes gives the string back unchanged |
| CodeChunks.KindRoundTrip | src-tauri/src/context/context_manager.rs:218-222 | the symbol-kind text written to a row, Debug name or "" for none, parses back to the same optional kind |
| CodeChunks.ParseKindSpellings | src-tauri/src/context/context_manager.rs:394-405 | a string parses to kind k iff its lowercase is one of k's spellings (including the aliases fn, var and use); it parses to None iff it is no kind's spelling |
| CodeChunks.LinesJoin | src-tauri/src/context/context_manager.rs:423 | for text without carriage returns, joining `lines()` with "\n" gives the text back, minus one trailing newline |
| CodeChunks.ChunkLines | src-tauri/src/context/context_manager.rs:426-437 | there are ceil(n/50) chunks; chunk k covers lines [50k, min(50k+50, n)), holds those lines joined by "\n", the file's path and no symbol kind |
| CodeChunks.FileChunksUnique | src-tauri/src/context/context_manager.rs:426-437 | the chunk list is fully determined by the path and the content |
| CodeChunks.ChunksPartitionLines | src-tauri/src/context/context_manager.rs:426-428 | the chunks partition the lines in order: consecutive, non-empty, 50 lines each except possibly the last, and their ranges concatenate to all the lines |
| CodeChunks.KeywordMatchAt | src-tauri/src/context/context_manager.rs:441-443 | a match of `kw\s+(\w+)` at i is the keyword at i, then at least one whitespace, then a maximal non-empty run of word characters, which is the capture |
| CodeChunks.KeywordCapturesSound | src-tauri/src/context/context_manager.rs:448 | every captured name is the capture of a pattern match at some position of the text |
| CodeChunks.KeywordCapturesComplete | src-tauri/src/context/context_manager.rs:448 | when no match starts in [i, p) and one starts at p, the scan from i yields that match's capture first and then continues from the end of that match: the leftmost non-overlapping matches, in order |
| CodeChunks.KeywordCapturesNone | src-tauri/src/context/context_manager.rs:448 | when no match starts at or after i, the scan from i captures nothing |
| CodeChunks.SymbolPatternsInOrder | src-tauri/src/context/context_manager.rs:440-445 | running the pattern table yields all `class` symbols, then all `fn` symbols, then all `struct` symbols tagged Class |
| CodeChunks.AppendSymbols | src-tauri/src/context/context_manager.rs:448-462 | the capture loop appends one symbol per name, in order, located in the file at line and column 0, with no related symbols |
| CodeChunks.ExtractSymbols | src-tauri/src/context/context_manager.rs:440-463 | the symbols are the `class` captures, then the `fn` captures, then the `struct` captures tagged Class |
| CodeChunks.UseMatchAt | src-tauri/src/context/context_manager.rs:471 | a match of `use\s+([^;]+);` ends at a semicolon and captures a non-empty text free of semicolons |
| CodeChunks.UseCapturesSound | src-tauri/src/context/context_manager.rs:471 | every import capture is the group of a `use` match at some position of the text |
| CodeChunks.UseCapturesComplete | src-tauri/src/context/context_manager.rs:471 | when no `use` match starts in [i, p) and one starts at p, the scan yields that match's group first and then continues from the end of that match |
| CodeChunks.UseCapturesNone | src-tauri/src/context/context_manager.rs:471 | when no `use` match starts at or after i, the scan captures nothing |
| CodeChunks.UseCaptureTrimmed | src-tauri/src/context/context_manager.rs:472-473 | the trimmed capture is the trimmed text between `use` and the semicolon |
| CodeChunks.ExtractImports | src-tauri/src/context/context_manager.rs:469-476 | one import per `use` match, in order, each the trimmed capture |
| CodeChunks.ProcessFile | src-tauri/src/context/context_manager.rs:418-466 | a file gives its 50-line chunks and its class/fn/struct symbols, as stated above |
| ContextManager.ToI32 | src-tauri/src/context/context_manager.rs:215 | `as i32` keeps the value modulo 2^32 |
| ContextManager.LineNumberRoundTrip | src-tauri/src/context/context_manager.rs:391 | a line number below 2^32 survives `as i32` then `as usize` iff it is below 2^31 |
| ContextManager.ChunkRowRoundTrip | src-tauri/src/context/context_manager.rs:388-409 | a chunk written as a row reads back unchanged when its line numbers are below 2^31 |
| ContextManager.BuildRows | src-tauri/src/context/context_manager.rs:203-233 | the zip loop builds min(#chunks, #embeddings) rows; row i pairs chunk i with embedding i and id i, with its Debug kind text |
| ContextManager.StoredChunksReadBack | src-tauri/src/context/context_manager.rs:211-225 | the rows built for a file read back as the file's chunks, in order |
| ContextManager.HasFileIgnoresPath | src-tauri/src/context/context_manager.rs:297-307 | as written, a table holding only "a.rs" answers true for "b.rs" |
| ContextManager.HasFileAfterAdd | src-tauri/src/context/context_manager.rs:190-194 | after inserting a file's rows, the file is present and every other path's presence is unchanged |
| ContextManager.AddedFileMissingAsWritten | src-tauri/src/context/context_manager.rs:278 | as written, the table is unchanged after `add_file`, so the added file is absent; inserting the batch makes it present |
| ContextManager.CacheSize | src-tauri/src/context/context_manager.rs:536 | a well-formed cache has as many entries as recency slots |
| ContextManager.CachePutSpec | src-tauri/src/context/context_manager.rs:292 | `put` keeps the cache well formed and within capacity; it maps the key to the new value as most recent, evicts at most the least recent other entry and only when full, and keeps the other entries |
| ContextManager.ContentBytesAppend | src-tauri/src/context/context_manager.rs:561-563 | the total content size is additive over row sequences |
| ContextManager.ContentBytesBounds | src-tauri/src/context/context_manager.rs:562 | the total size in bytes lies between the total char count and four times it |
| ContextManager.SearchLoopRepeatsFirstBatch | src-tauri/src/context/context_manager.rs:349 | as written, with one result row, n rounds of the loop return that row's chunk n times and the guard still holds; one pass returns it once |
| ContextManager.SmartContextManager.constructor | src-tauri/src/context/context_manager.rs:133-187 | the table is the existing rows, or empty when it had to be created; the cache is empty with capacity `max_files` |
| ContextManager.SmartContextManager.Cleanup | src-tauri/src/context/context_manager.rs:125-130 | the cache is emptied and the table is untouched |
| ContextManager.SmartContextManager.AddFile | src-tauri/src/context/context_manager.rs:190-295 | a present file gives "File p is already in context" and nothing changes; an embedding failure changes nothing; otherwise the file's rows are appended, the file context is put in the cache, and the metadata is returned; guard and insert are the corrected ones of the Findings table |
| ContextManager.SmartContextManager.SearchSimilar | src-tauri/src/context/context_manager.rs:310-415 | embedding or query failures are returned; otherwise every row of every batch, in order, read back as a chunk, each from a row of the table |
| ContextManager.SmartContextManager.GetContext | src-tauri/src/context/context_manager.rs:505-530 | the chunks found; relevance 0.0 iff none, else 0.85; the source file is the first chunk's; `total_chunks_searched` is the chunk count |
| ContextManager.SmartContextManager.CalculateTotalSize | src-tauri/src/context/context_manager.rs:547-567 | the batch loop sums the UTF-8 byte lengths of all rows' contents |
| ContextManager.SmartContextManager.GetStats | src-tauri/src/context/context_manager.rs:533-544 | the row count, the number of cached files (at most `max_files`) and the total content bytes, or the scan error |
| Context.MakeConfig | src-tauri/src/context/context.rs:61-68 | supplied settings are kept; missing ones default to watch false, chunk size 512, overlap 32 |
| Context.SearchLimit | src-tauri/src/context/context.rs:138 | the search limit defaults to 5 |
| Context.ReadContextFile | src-tauri/src/context/context.rs:112-116 | the file's text, or "Failed to read file p: e" |
| Context.GlobalState.constructor | src-tauri/src/context/context.rs:20-25 | the slot starts empty |
| Context.GlobalState.GetManager | src-tauri/src/context/context.rs:27-33 | the held manager, or exactly "Context manager not initialized" when the slot is empty |
| Context.GlobalState.Reset | src-tauri/src/context/context.rs:35-40 | the slot is emptied and Ok returned |
| Context.GlobalState.InitContextManager | src-tauri/src/context/context.rs:51-86 | a held manager is kept and Ok returned; a connection error gives "Failed to create SmartContextManager: e" with the slot still empty; otherwise a new manager over the table is installed |
| Context.GlobalState.AddToContext | src-tauri/src/context/context.rs:119-127 | no manager gives the not-initialized error; otherwise `add_file`'s outcome with the metadata dropped: "File p is already in context" or the embedding error with rows and cache unchanged, or Ok with the file's rows appended and its context put in the LRU cache |
| Context.GlobalState.IsFileInContext | src-tauri/src/context/context.rs:162-166 | no manager gives the not-initialized error; otherwise whether rows of the path are stored, using the corrected `has_file` (see Left out and Findings) |
| Context.GlobalState.SearchSimilarCode | src-tauri/src/context/context.rs:130-152 | the chunks found, relevance 0.85 whatever was found, execution time 0, the first chunk's file as source and the chunk count |
| Context.GlobalState.GetContextCommand | src-tauri/src/context/context.rs:95-99 | no manager gives the not-initialized error; otherwise the embedding or search error, or the chunks found with relevance 0.0 iff none and 0.85 otherwise, the first chunk's file as source, and the timestamp, elapsed time and chunk count |
| Context.GlobalState.GetContextStats | src-tauri/src/context/context.rs:169-173 | no manager gives the not-initialized error; otherwise `get_stats`'s answer |
| Context.GlobalState.GenerateEmbeddings | src-tauri/src/context/context.rs:102-109 | no manager gives the not-initialized error; otherwise the model's answer |
| FsPaths.StripPrefixJoin | src-tauri/src/commands/fs.rs:126-130 | stripping the root and joining it back gives the path; a relative path joined onto the root strips back to itself |
| FsPaths.Resolve | src-tauri/src/commands/fs.rs:102-106 | absolute paths are kept as given; relative ones are joined onto the project root |
| FsPaths.RelativePath | src-tauri/src/commands/fs.rs:126-130 | the path with the root stripped when under the root, otherwise the full path |
| FsPaths.RelativePathUnderRoot | src-tauri/src/commands/fs.rs:126-130 | an entry under the root is reported by its components relative to the root |
| FsPaths.GetProjectRoot | src-tauri/src/commands/fs.rs:55-75 | the upward walk returns the nearest marked ancestor, never examining the file-system root, or the working directory |
| FsPaths.ProjectRootIsNearest | src-tauri/src/commands/fs.rs:55-75 | the project root is a marked ancestor with no marked ancestor nearer to the working directory, or the working directory when no ancestor is marked |
| FsPaths.ChangeMessagesSpec | src-tauri/src/commands/fs.rs:267-285 | create/modify/remove events give "create"/"modify"/"delete" messages, one per path under the root, in order, each naming the path relative to the root; other events give none |
| Fs.ErrorNew | src-tauri/src/commands/fs.rs:37-43 | an error without a path |
| Fs.ErrorWithPath | src-tauri/src/commands/fs.rs:45-51 | an error carrying the rendered path |
| Fs.NodeForShape | src-tauri/src/commands/fs.rs:135-146 | a node is "directory" iff its entry is a directory, else "file"; its id is its path, it has no children, and its path is relative to the root |
| Fs.CompareKey | src-tauri/src/commands/fs.rs:151-156 | the comparator orders by type (directories first), then by lowercase name; it says Equal iff both agree |
| Fs.KeyLeTotal | src-tauri/src/commands/fs.rs:151-156 | the comparator's order is total |
| Fs.KeyLeTransitive | src-tauri/src/commands/fs.rs:151-156 | the comparator's order is transitive |
| Fs.SortNodes | src-tauri/src/commands/fs.rs:151-156 | the sort returns a permutation of its input |
| Fs.InsertSorted | src-tauri/src/commands/fs.rs:151-156 | inserting a node into a sorted list keeps it sorted |
| Fs.SortNodesSorted | src-tauri/src/commands/fs.rs:151-156 | the sorted list is ordered by the comparator |
| Fs.InsertStable | src-tauri/src/commands/fs.rs:151-156 | insertion puts a node after every node that compares equal to it |
| Fs.SortNodesStable | src-tauri/src/commands/fs.rs:151-156 | nodes that compare equal keep their relative order |
| Fs.SortNodesSpec | src-tauri/src/commands/fs.rs:151-156 | the sort is a stable permutation with directories first and names non-decreasing in lowercase within a type |
| Fs.Listing | src-tauri/src/commands/fs.rs:120-147 | a listing succeeds with one node per entry, in order, built from the entry and its metadata |
| Fs.ListingStopsAtError | src-tauri/src/commands/fs.rs:121-133 | the first failing entry decides the listing's error |
| Fs.ReadDirectoryOrdered | src-tauri/src/commands/fs.rs:100-159 | a missing directory gives PATH_NOT_FOUND; a successful listing has one node per entry, directories first, names ordered within a type, ids equal to paths and no children |
| Fs.ListEntries | src-tauri/src/commands/fs.rs:116-150 | the loop over the entries gives the listing: the first entry or metadata error, otherwise one node per entry in listing order |
| Fs.ReadDirectory | src-tauri/src/commands/fs.rs:100-159 | the loop and sort give exactly the listing's result: the directory errors, the first entry or metadata error, or the sorted nodes |
| Fs.ReadFile | src-tauri/src/commands/fs.rs:162-176 | a missing file gives FILE_NOT_FOUND "File not found" with the path; a read error gives READ_ERROR; otherwise the contents |
| Fs.WriteFile | src-tauri/src/commands/fs.rs:179-191 | a failed parent creation gives CREATE_DIR_ERROR on the parent; a failed write gives WRITE_ERROR on the path |
| Fs.CreateDirectory | src-tauri/src/commands/fs.rs:194-200 | succeeds iff the creation does; else CREATE_ERROR with the path |
| Fs.DeletePath | src-tauri/src/commands/fs.rs:203-221 | a missing path gives PATH_NOT_FOUND "Path not found"; a directory is removed recursively, a file singly; a failure gives DELETE_ERROR |
| Fs.RenamePath | src-tauri/src/commands/fs.rs:224-245 | a missing source gives PATH_NOT_FOUND "Source path not found"; then CREATE_DIR_ERROR on the target's parent; then RENAME_ERROR with the old path |
| Fs.MissingTargetFails | src-tauri/src/commands/fs.rs:162-245 | read, delete and rename of a missing target fail with a not-found code before touching the file system, rename naming the source |
| ProcessManagement.DefaultOptions | src-tauri/src/commands/process_manager.rs:18-25 | three retries and a 1000 ms delay |
| ProcessManagement.TargetsSpec | src-tauri/src/commands/process_manager.rs:84-111 | a process is a target iff its lowercase name contains the lowercase app name and it is not the current process; the kill count is at most the number of targets, and equal when every kill succeeds |
| ProcessManagement.LockFilePath | src-tauri/src/commands/process_manager.rs:120 | the lock file is `LOCK` inside the database directory |
| ProcessManagement.ProcessManager.constructor | src-tauri/src/commands/process_manager.rs:48-59 | app name, path, retries and delay are copied from the arguments |
| ProcessManagement.ProcessManager.TerminateOtherInstances | src-tauri/src/commands/process_manager.rs:84-111 | the count is the number of targets whose kill succeeded |
| ProcessManagement.ProcessManager.Initialize | src-tauri/src/commands/process_manager.rs:71-76 | initialisation always succeeds |
| ProcessManagement.ProcessManager.CleanupDbLocks | src-tauri/src/commands/process_manager.rs:119-132 | an absent lock file is Ok with nothing removed; otherwise only the lock file is removed, or the error "Failed to remove lock file at \"path\"" |
| ProcessManagement.DbPath | src-tauri/src/commands/process_manager.rs:158 | `DB_PATH` or "storage/storage.db" |
| ProcessManagement.TerminatedMessageReadsBack | src-tauri/src/commands/process_manager.rs:198 | the count can be read back from "Terminated n other instance(s)" |
| ProcessManagement.InitializeProcessManager | src-tauri/src/commands/process_manager.rs:154-174 | a manager for "mighty" on the database path, with the given or default options, and Ok |
| ProcessManagement.KillOtherInstances | src-tauri/src/commands/process_manager.rs:183-200 | reports the number of successful kills n and "Terminated n other instance(s)" |
| ProcessManagement.LockCleanupResult | src-tauri/src/commands/process_manager.rs:218-224 | 0 kills and "Successfully cleaned up lock files." on success, or "Failed to clean up lock files: e" |
| ProcessManagement.ForceCleanupLocks | src-tauri/src/commands/process_manager.rs:209-225 | succeeds iff the lock is absent or its removal succeeds; on success the lock is gone and 0 kills are reported |
| ProcessManagement.CleanupProcessManager | src-tauri/src/commands/process_manager.rs:230-246 | the same body as `force_cleanup_locks`: succeeds iff the lock is absent or its removal succeeds; on success the lock is gone and 0 kills are reported |
| Storage.DisplayReadsBack | src-tauri/src/commands/storage.rs:22-25 | "code: message" splits back into the code and the message at the first colon |
| Storage.LookupPut | src-tauri/src/commands/storage.rs:124-126 | after a put the key maps to the value and other keys are unchanged |
| Storage.LookupRemove | src-tauri/src/commands/storage.rs:180 | after a delete the key is absent and other keys are unchanged |
| Storage.PutSorted | src-tauri/src/commands/storage.rs:124-126 | a put keeps the database's keys strictly sorted |
| Storage.RemoveSorted | src-tauri/src/commands/storage.rs:180 | a delete keeps the database's keys strictly sorted |
| Storage.ScanStopsAtError | src-tauri/src/commands/storage.rs:215-220 | the first iterator error decides the scan's result, discarding the pairs found so far |
| Storage.ScanSpec | src-tauri/src/commands/storage.rs:204-214 | without an error, the result holds exactly the visited pairs whose key and value are valid UTF-8, decoded |
| Storage.WithPrefixSpec | src-tauri/src/commands/storage.rs:202 | the corrected, prefix-bounded iterator visits exactly the pairs whose key starts with the prefix (see Findings) |
| Storage.PrefixScanSpec | src-tauri/src/commands/storage.rs:201-225 | a scan over the corrected iterator returns exactly the stored string pairs whose key starts with the prefix |
| Storage.ScanRunsPastPrefix | src-tauri/src/commands/storage.rs:202 | as written, a scan for "a:" over keys "a:1" and "b:1" also returns ("b:1", "y") |
| Storage.ScanStaysInPrefix | src-tauri/src/commands/storage.rs:202 | the prefix-bounded scan of the same database returns only ("a:1", "x") |
| Storage.StorageSlot.constructor | src-tauri/src/commands/storage.rs:34 | the slot starts neither created nor holding a manager |
| Storage.StorageSlot.Initialize | src-tauri/src/commands/storage.rs:69-84 | a held manager is kept and Ok returned; otherwise a parent-directory or open error leaves the slot empty, or the opened database is installed |
| Storage.StorageSlot.Store | src-tauri/src/commands/storage.rs:110-131 | NOT_INITIALIZED without a manager, WRITE_ERROR on a failed write, otherwise the pair is put |
| Storage.StorageSlot.Get | src-tauri/src/commands/storage.rs:134-163 | NOT_INITIALIZED without a manager, READ_ERROR on a failed read, otherwise the stored value decoded lossily, or None |
| Storage.StorageSlot.Delete | src-tauri/src/commands/storage.rs:166-184 | NOT_INITIALIZED without a manager, DELETE_ERROR on a failed delete, otherwise the key is removed |
| Storage.ScanItems | src-tauri/src/commands/storage.rs:204-225 | the loop gives the scan of its items: the first iterator error as SCAN_ERROR, otherwise the pairs valid as UTF-8 on both sides, decoded, in order |
| Storage.StorageSlot.ScanPrefix | src-tauri/src/commands/storage.rs:187-226 | NOT_INITIALIZED without a manager; otherwise the loop's result is the scan of the pairs under the prefix, which is the corrected iterator of the Findings table |
| Storage.StorageSlot.Cleanup | src-tauri/src/commands/storage.rs:229-246 | the slot is emptied; a held manager reports `cleaned_locks` true with the success message, else false with "Storage manager was not initialized." |
| Storage.StoreThenGet | src-tauri/src/commands/storage.rs:124-157 | get after store returns the stored string; get after delete returns None; other keys are untouched |
| TerminalSession.DefaultShell | src-tauri/src/commands/terminal_session.rs:100-115 | "cmd.exe" with ["/C", "cmd.exe"] on Windows; otherwise SHELL or "/bin/bash", with args exactly [shell] |
| TerminalSession.SessionManager.constructor | src-tauri/src/commands/terminal_session.rs:25-29 | no sessions |
| TerminalSession.SessionManager.CreateSession | src-tauri/src/commands/terminal_session.rs:31-83 | the first failing step's error, in the order openpty, spawn, pid, writer, with the map unchanged; on success exactly the new id is added, mapped to the default shell in a 24x80 terminal |
| TerminalSession.SessionManager.GetSession | src-tauri/src/commands/terminal_session.rs:85-87 | Some iff the id is a key, with its terminal |
| TerminalSession.SessionManager.RemoveSession | src-tauri/src/commands/terminal_session.rs:89-91 | returns and removes only that entry when present; otherwise None and no change |
| TerminalSession.CreateThenRemove | src-tauri/src/commands/terminal_session.rs:31-91 | on a session manager, a successful creation under a fresh id is found by `get_session` with the default shell in a 24x80 terminal; `remove_session` hands back that terminal and leaves the map as it was |
| Cors.Build | src-tauri/src/plugins/cors.rs:15-24 | the builder succeeds iff the status is within 100..999 and every header name and value is valid |
| Cors.HandleRequest | src-tauri/src/plugins/cors.rs:13-45 | OPTIONS gets the preflight response and anything else the echo response; a failed builder falls back to an empty 500 |
| Cors.AllowHeadersValid | src-tauri/src/plugins/cors.rs:21 | the allowed-headers value is a valid header value |
| Cors.PreflightHeadersValid | src-tauri/src/plugins/cors.rs:17-23 | all four preflight headers are valid |
| Cors.HandleRequestSpec | src-tauri/src/plugins/cors.rs:13-45 | the fallback is never taken: OPTIONS gives 204 with exactly the four CORS headers and an empty body; anything else gives 200 with the allow-origin header and the request body byte for byte |
| Auth.AppState.constructor | src-tauri/src/commands/auth.rs:10-14 | a fresh state holds no token |
| Auth.AppState.StoreToken | src-tauri/src/commands/auth.rs:16-19 | the stored token replaces any previous one |
| Auth.AppState.GetToken | src-tauri/src/commands/auth.rs:21-24 | the stored token, read without changing the state |
| Auth.AppState.HasAuthToken | src-tauri/src/commands/auth.rs:39-41 | true iff `get_token` is Some |
| Auth.StoreThenGet | src-tauri/src/commands/auth.rs:10-41 | a fresh state has no token; after `store_token(t)`, `get_token` is Some(t) and `has_auth_token` is true; a second store replaces the token |

## Left out

- I/O and foreign libraries are modelled only through their outcomes, passed in as parameters. This covers:
  - the file-system calls of fs.rs (read, write, create, rename, remove, metadata), the watcher thread and its channel;
  - RocksDB, LanceDB and Arrow, including the schema, the `RecordBatch` building and the IVF-PQ index creation;
  - the PTY, OS process enumeration and `kill`;
  - the Python embedding model;
  - clocks and UUIDs.
- The mutexes, the `RwLock` and the async runtime are left out. Each operation is modelled as atomic, and lock poisoning is not modelled.
- Strings are parsed into paths nowhere in the model. Paths are values made of an absolute flag and components, and rendering joins the components with "/".
- `get_metadata`'s timestamps and permissions are opaque values.
- Unicode case folding is not modelled. `to_lowercase` is ASCII-only lowering, which is exact for the symbol-kind parser's ASCII inputs but not for non-ASCII file names in the directory sort.
- `{:?}` formatting of paths is modelled as double quotes around the path, without Rust's escaping of special characters.
- The regex engine is modelled only for the four patterns used, as hand scanners. `\s` and `\w` are ASCII classes, where the regex crate uses Unicode classes.
- The error text of library errors (`io::Error`, RocksDB, LanceDB, anyhow contexts other than those written in the source) is an opaque input string.
- ContextManager.SmartContextManager.AddFile: it requires one id per chunk and embeddings of exactly 1024 floats. The source panics on the `assert_eq!` when the model returns vectors of another length, which is not modelled as an outcome.
- ContextManager.SmartContextManager.constructor: it requires `max_files > 0`, because the source panics on `NonZeroUsize::new(0).unwrap()`.
- Context.GlobalState.InitContextManager: likewise, it requires `max_files > 0` when a new manager would be built.
- Errors of `has_file`'s query and of reading the table schema in `add_file` are not modelled: `has_file` is a predicate over the rows.
- ContextManager.SmartContextManager.AddFile: it models the corrected behaviour of the Findings table, not the code as written. The presence guard is the path-filtered `has_file`, where the source answers true for any non-empty table. The rows are inserted, where the source never executes the insert.
- Context.GlobalState.IsFileInContext: it answers with the corrected, path-filtered `has_file`. As written, the command answers Ok(true) for any path once the table holds a row (`ContextManager.HasFileIgnoresPath`).
- Context.GlobalState.AddToContext: it inherits the corrected guard and insert of `AddFile`.
- Storage.WithPrefixSpec: it states the prefix-bounded iterator of the Findings table. As written, `prefix_iterator` without a prefix extractor runs on past the prefix (`Storage.ScanRunsPastPrefix`).
- Storage.PrefixScanSpec: it describes the scan over that prefix-bounded iterator, not the as-written scan.
- Storage.StorageSlot.ScanPrefix: it scans only the pairs under the prefix, which is the corrected behaviour. As written, it would also return the later pairs of the database.
- ContextManager.SmartContextManager.SearchSimilar: the corrected one-pass loop is modelled, not the as-written non-terminating loop, which is stated separately. The row set it reads from is given as batches.
- The order of the LRU cache's internal list is modelled as a recency sequence. The cache's `get` is never called by the source, so only `put` and `clear` are modelled.
- HashMap iteration order (the process table) is modelled as the order of the input sequence.
- The in-place `sort_by` of `read_directory` is modelled as a value-level stable insertion sort, Rust's `sort_by` being stable. The in-place update itself is not modelled.
- Cors.Build: header names are not lowercased as the `http` crate stores them, and the header map is a list in insertion order.
- `max_retries` and `retry_delay` are stored but never used by the source, so no retry behaviour is modelled.
- `TerminalConfig` is accepted by `create_session` but never read, so it has no effect in the model.
- Auth.AppState.GetToken: the `Mutex` clone is modelled as a read of the field.

## Findings

| source | as written | input that shows it | evidently intended | confidence | as-written member | corrected member |
|---|---|---|---|---|---|---|
| src-tauri/src/context/context_manager.rs:297-307 | `has_file` runs an unfiltered query and returns true as soon as any batch comes back, ignoring `path` | a table holding a chunk of "a.rs"; `has_file("b.rs")` is true, so `add_file("b.rs", ..)` fails with "already in context" | true only when a row of that path is stored | high, not executed | ContextManager.HasFileIgnoresPath | ContextManager.HasFileAfterAdd |
| src-tauri/src/context/context_manager.rs:278 | `self.table.add(iter_batch)` builds the insert but never `.execute().await`s it, so nothing is stored | any successful `add_file`: the table is unchanged afterwards and the file is not in context | the batch is inserted into the table | high, not executed | ContextManager.AddedFileMissingAsWritten | ContextManager.SmartContextManager.AddFile |
| src-tauri/src/context/context_manager.rs:349 | the `while let` condition calls `copy.execute()` afresh each round and reads the first batch of the new stream, so the loop repeats while the search has any result | a table with one row: every round pushes the same chunk again and the loop never ends | one pass over the result stream | high, not executed | ContextManager.SearchLoopRepeatsFirstBatch | ContextManager.SmartContextManager.SearchSimilar |
| src-tauri/src/commands/storage.rs:202 | `prefix_iterator` without a prefix extractor configured only seeks to the prefix and then runs to the end of the database | keys "a:1"→"x" and "b:1"→"y"; `scan_prefix("a:")` also returns ("b:1", "y") | only pairs whose key starts with the prefix | medium, not executed | Storage.ScanRunsPastPrefix | Storage.StorageSlot.ScanPrefix |

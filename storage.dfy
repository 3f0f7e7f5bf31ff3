/** The key-value storage of storage.rs: the process-wide `STORAGE_MANAGER`
    slot (a once-initialised cell holding an optional manager) and the
    commands over it. The RocksDB database is modelled as its ordered
    contents, a sequence of byte-string pairs sorted by key; the outcome of
    every database call that can fail is an input. */
module Storage {
  import opened Base
  import opened Utf8

  /** `StorageError`. */
  datatype StorageError = StorageError(code: string, message: string)

  /** `impl Display for StorageError`: "code: message". */
  function Display(e: StorageError): string
  {
    e.code + ": " + e.message
  }

  /** The code and the message can be read back from the display when the
      code holds no colon, as every code used here does. */
  lemma DisplayReadsBack(e: StorageError, i: nat)
    requires forall k :: 0 <= k < |e.code| ==> e.code[k] != ':'
    requires i < |Display(e)| && Display(e)[i] == ':' && (forall k :: 0 <= k < i ==> Display(e)[k] != ':')
    ensures i == |e.code| && Display(e)[..i] == e.code && Display(e)[i + 2..] == e.message
  {
    var d := Display(e);
    assert d[|e.code|] == ':';
  }

  function NotInitialized(): StorageError
  {
    StorageError("NOT_INITIALIZED", "Storage manager not initialized")
  }

  // ---------------------------------------------------------------------------
  // The database contents

  type Pair = (Bytes, Bytes)

  /** Keys strictly increasing in byte order, as RocksDB keeps them. */
  ghost predicate SortedKeys(pairs: seq<Pair>)
  {
    forall i, j :: 0 <= i < j < |pairs| ==> LexLt(pairs[i].0, pairs[j].0)
  }

  /** `db.get(key)`. */
  function Lookup(pairs: seq<Pair>, key: Bytes): Option<Bytes>
    decreases |pairs|
  {
    if |pairs| == 0 then None
    else if pairs[0].0 == key then Some(pairs[0].1)
    else Lookup(pairs[1..], key)
  }

  /** `db.put(key, value)`: the pair replaces the one with the same key, or
      is inserted at its place in key order. */
  function Put(pairs: seq<Pair>, key: Bytes, value: Bytes): seq<Pair>
    decreases |pairs|
  {
    if |pairs| == 0 then [(key, value)]
    else if pairs[0].0 == key then [(key, value)] + pairs[1..]
    else if LexLe(key, pairs[0].0) then [(key, value)] + pairs
    else [pairs[0]] + Put(pairs[1..], key, value)
  }

  /** `db.delete(key)`. */
  function Remove(pairs: seq<Pair>, key: Bytes): seq<Pair>
    decreases |pairs|
  {
    if |pairs| == 0 then []
    else if pairs[0].0 == key then Remove(pairs[1..], key)
    else [pairs[0]] + Remove(pairs[1..], key)
  }

  /** A stored value is read back under its key; every other key reads as
      before. */
  lemma {:induction false} LookupPut(pairs: seq<Pair>, key: Bytes, value: Bytes, other: Bytes)
    ensures Lookup(Put(pairs, key, value), key) == Some(value)
    ensures other != key ==> Lookup(Put(pairs, key, value), other) == Lookup(pairs, other)
    decreases |pairs|
  {
    if |pairs| > 0 && pairs[0].0 != key && !LexLe(key, pairs[0].0) {
      LookupPut(pairs[1..], key, value, other);
    }
  }

  /** A deleted key reads as absent; every other key reads as before. */
  lemma {:induction false} LookupRemove(pairs: seq<Pair>, key: Bytes, other: Bytes)
    ensures Lookup(Remove(pairs, key), key) == None
    ensures other != key ==> Lookup(Remove(pairs, key), other) == Lookup(pairs, other)
    decreases |pairs|
  {
    if |pairs| > 0 {
      LookupRemove(pairs[1..], key, other);
    }
  }

  lemma {:induction false} PutKeys(pairs: seq<Pair>, key: Bytes, value: Bytes)
    ensures forall q :: q in Put(pairs, key, value) ==> q == (key, value) || q in pairs
    decreases |pairs|
  {
    if |pairs| > 0 && pairs[0].0 != key && !LexLe(key, pairs[0].0) {
      PutKeys(pairs[1..], key, value);
    }
  }

  lemma LexLtTransitive(a: seq<int>, b: seq<int>, c: seq<int>)
    requires LexLt(a, b) && LexLe(b, c)
    ensures LexLt(a, c)
  {
    LexLeTransitive(a, b, c);
    if a == c {
      LexLeAntisymmetric(a, b);
    }
  }

  /** Writing keeps the keys sorted. */
  lemma {:induction false} PutSorted(pairs: seq<Pair>, key: Bytes, value: Bytes)
    requires SortedKeys(pairs)
    ensures SortedKeys(Put(pairs, key, value))
    decreases |pairs|
  {
    if |pairs| > 0 {
      var first := pairs[0];
      var r := Put(pairs, key, value);
      if first.0 == key {
        forall i, j | 0 <= i < j < |r| ensures LexLt(r[i].0, r[j].0) {
          assert r[i].0 == pairs[i].0 && r[j].0 == pairs[j].0;
        }
      } else if LexLe(key, first.0) {
        forall i, j | 0 <= i < j < |r| ensures LexLt(r[i].0, r[j].0) {
          if i == 0 && j > 1 {
            LexLtTransitive(key, first.0, pairs[j - 1].0);
          }
        }
      } else {
        var tail := Put(pairs[1..], key, value);
        PutSorted(pairs[1..], key, value);
        PutKeys(pairs[1..], key, value);
        LexLeTotal(key, first.0);
        forall j | 0 <= j < |tail| ensures LexLt(first.0, tail[j].0) {
          assert tail[j] in tail;
          if tail[j] != (key, value) {
            var m :| 0 <= m < |pairs[1..]| && pairs[1..][m] == tail[j];
            assert pairs[m + 1] == tail[j];
          }
        }
        assert r == [first] + tail;
      }
    }
  }

  lemma {:induction false} RemoveSubseq(pairs: seq<Pair>, key: Bytes)
    ensures forall q :: q in Remove(pairs, key) ==> q in pairs
    decreases |pairs|
  {
    if |pairs| > 0 {
      RemoveSubseq(pairs[1..], key);
    }
  }

  /** Deleting keeps the keys sorted. */
  lemma {:induction false} RemoveSorted(pairs: seq<Pair>, key: Bytes)
    requires SortedKeys(pairs)
    ensures SortedKeys(Remove(pairs, key))
    decreases |pairs|
  {
    if |pairs| > 0 {
      var tail := Remove(pairs[1..], key);
      RemoveSorted(pairs[1..], key);
      RemoveSubseq(pairs[1..], key);
      if pairs[0].0 != key {
        forall j | 0 <= j < |tail| ensures LexLt(pairs[0].0, tail[j].0) {
          assert tail[j] in tail;
          var m :| 0 <= m < |pairs[1..]| && pairs[1..][m] == tail[j];
          assert pairs[m + 1] == tail[j];
        }
      }
    }
  }

  // ---------------------------------------------------------------------------
  // Prefix iteration

  /** The pairs whose key starts with `prefix`, in key order: what a prefix
      scan is meant to visit. */
  function WithPrefix(pairs: seq<Pair>, prefix: Bytes): seq<Pair>
    decreases |pairs|
  {
    if |pairs| == 0 then []
    else (if IsPrefix(prefix, pairs[0].0) then [pairs[0]] else []) + WithPrefix(pairs[1..], prefix)
  }

  /** The pairs from the first key not below `prefix` to the end of the
      database: what `prefix_iterator` visits when the database has no
      prefix extractor configured, as here. */
  function SeekFrom(pairs: seq<Pair>, prefix: Bytes): seq<Pair>
    decreases |pairs|
  {
    if |pairs| == 0 then []
    else (if LexLe(prefix, pairs[0].0) then [pairs[0]] else []) + SeekFrom(pairs[1..], prefix)
  }

  /** The iterator's items: the visited pairs, cut short by an error at
      position `failure.0` when there is one. */
  function Items(visited: seq<Pair>, failure: Option<(nat, string)>): seq<Result<Pair, string>>
  {
    var n := if failure.Some? && failure.value.0 < |visited| then failure.value.0 else |visited|;
    seq(n, i requires 0 <= i < n => Ok(visited[i]))
      + (if failure.Some? && failure.value.0 <= |visited| then [Err(failure.value.1)] else [])
  }

  /** The pairs a scan returns for the items: the error of the first failed
      item, or every pair whose key and value are both valid UTF-8,
      decoded, in order. */
  function ScanResult(items: seq<Result<Pair, string>>): Result<seq<(string, string)>, StorageError>
    decreases |items|
  {
    if |items| == 0 then Ok([])
    else match ScanResult(items[..|items| - 1])
      case Err(e) => Err(e)
      case Ok(found) =>
        match items[|items| - 1]
        case Err(msg) => Err(StorageError("SCAN_ERROR", msg))
        case Ok(kv) =>
          match (Decode(kv.0), Decode(kv.1))
          case (Some(k), Some(v)) => Ok(found + [(k, v)])
          case _ => Ok(found)
  }

  /** One more item after a successful prefix: its error, or the pair
      decoded when both sides are valid UTF-8, or nothing more. */
  lemma ScanStep(items: seq<Result<Pair, string>>, i: nat, found: seq<(string, string)>)
    requires i < |items| && ScanResult(items[..i]) == Ok(found)
    ensures items[i].Err? ==> ScanResult(items[..i + 1]) == Err(StorageError("SCAN_ERROR", items[i].error))
    ensures items[i].Ok? && Decode(items[i].value.0).Some? && Decode(items[i].value.1).Some? ==>
      ScanResult(items[..i + 1]) == Ok(found + [(Decode(items[i].value.0).value, Decode(items[i].value.1).value)])
    ensures items[i].Ok? && !(Decode(items[i].value.0).Some? && Decode(items[i].value.1).Some?) ==>
      ScanResult(items[..i + 1]) == Ok(found)
  {
    assert items[..i + 1][..i] == items[..i];
  }

  /** The scan loop of `scan_prefix` over the iterator's items. */
  method ScanItems(items: seq<Result<Pair, string>>) returns (r: Result<seq<(string, string)>, StorageError>)
    ensures r == ScanResult(items)
  {
    var results: seq<(string, string)> := [];
    var i := 0;
    while i < |items|
      invariant 0 <= i <= |items|
      invariant ScanResult(items[..i]) == Ok(results)
    {
      ScanStep(items, i, results);
      match items[i]
      case Err(msg) =>
        ScanStopsAtError(items, i + 1);
        return Err(StorageError("SCAN_ERROR", msg));
      case Ok(kv) =>
        var k := Decode(kv.0);
        var v := Decode(kv.1);
        if k.Some? && v.Some? {
          results := results + [(k.value, v.value)];
        }
      i := i + 1;
    }
    assert items[..i] == items;
    r := Ok(results);
  }

  /** The first failed item decides the scan. */
  lemma {:induction false} ScanStopsAtError(items: seq<Result<Pair, string>>, k: nat)
    requires k <= |items| && ScanResult(items[..k]).Err?
    ensures ScanResult(items) == ScanResult(items[..k])
    decreases |items| - k
  {
    if k < |items| {
      assert items[..|items| - 1][..k] == items[..k];
      ScanStopsAtError(items[..|items| - 1], k);
    } else {
      assert items[..k] == items;
    }
  }

  /** The pair decodes, key and value, to `k` and `v`. */
  predicate DecodesTo(q: Pair, k: string, v: string)
  {
    Decode(q.0) == Some(k) && Decode(q.1) == Some(v)
  }

  /** A scan without failures returns exactly the visited pairs that are
      valid UTF-8 on both sides, decoded: every returned pair is the
      decoding of a visited pair, and every visited pair that decodes is
      returned. */
  lemma {:induction false} ScanSpec(visited: seq<Pair>)
    ensures ScanResult(Items(visited, None)).Ok?
    ensures forall k, v :: (k, v) in ScanResult(Items(visited, None)).value <==>
      exists q :: q in visited && DecodesTo(q, k, v)
    decreases |visited|
  {
    if |visited| > 0 {
      var init := visited[..|visited| - 1];
      var last := visited[|visited| - 1];
      assert visited == init + [last];
      ScanSpec(init);
      var items := Items(visited, None);
      assert items[..|items| - 1] == Items(init, None);
      assert items[|items| - 1] == Ok(last);
      var before := ScanResult(Items(init, None)).value;
      var found := ScanResult(items).value;
      assert forall k, v :: (k, v) in found <==> (k, v) in before || DecodesTo(last, k, v);
    }
  }

  lemma {:induction false} WithPrefixSpec(pairs: seq<Pair>, prefix: Bytes)
    ensures forall q :: q in WithPrefix(pairs, prefix) <==> q in pairs && IsPrefix(prefix, q.0)
    decreases |pairs|
  {
    if |pairs| > 0 {
      WithPrefixSpec(pairs[1..], prefix);
      assert pairs == [pairs[0]] + pairs[1..];
    }
  }

  /** A prefix scan returns exactly the stored entries whose key starts
      with the prefix and whose key and value are valid UTF-8. */
  lemma PrefixScanSpec(pairs: seq<Pair>, prefix: string)
    ensures ScanResult(Items(WithPrefix(pairs, Encode(prefix)), None)).Ok?
    ensures var found := ScanResult(Items(WithPrefix(pairs, Encode(prefix)), None)).value;
      forall k, v :: (k, v) in found <==> (Encode(k), Encode(v)) in pairs && IsPrefix(Encode(prefix), Encode(k))
  {
    var visited := WithPrefix(pairs, Encode(prefix));
    ScanSpec(visited);
    WithPrefixSpec(pairs, Encode(prefix));
    var found := ScanResult(Items(visited, None)).value;
    forall k, v ensures (k, v) in found <==> (Encode(k), Encode(v)) in pairs && IsPrefix(Encode(prefix), Encode(k)) {
      if (k, v) in found {
        var q :| q in visited && DecodesTo(q, k, v);
        EncodeDecode(q.0);
        EncodeDecode(q.1);
      }
      if (Encode(k), Encode(v)) in pairs && IsPrefix(Encode(prefix), Encode(k)) {
        DecodeEncode(k);
        DecodeEncode(v);
        assert DecodesTo((Encode(k), Encode(v)), k, v);
      }
    }
  }

  lemma EncodeAscii3(s: string)
    requires |s| == 3 && s[0] < '\U{0080}' && s[1] < '\U{0080}' && s[2] < '\U{0080}'
    ensures Encode(s) == [s[0] as int, s[1] as int, s[2] as int]
  {
    assert s[1..][1..][1..] == [];
    assert Encode(s[1..][1..]) == EncodeChar(s[2]);
  }

  lemma ScanAppendDecoded(items: seq<Result<Pair, string>>, found: seq<(string, string)>, q: Pair, k: string, v: string)
    requires ScanResult(items) == Ok(found) && DecodesTo(q, k, v)
    ensures ScanResult(items + [Ok(q)]) == Ok(found + [(k, v)])
  {
    assert (items + [Ok(q)])[..|items|] == items;
  }

  lemma ItemsOne(q: Pair)
    ensures Items([q], None) == [Ok(q)]
  {
  }

  lemma ScanOne(q: Pair, k: string, v: string)
    requires DecodesTo(q, k, v)
    ensures ScanResult([Ok(q)]) == Ok([(k, v)])
  {
    var items: seq<Result<Pair, string>> := [Ok(q)];
    var none: seq<(string, string)> := [];
    assert items[..0] == [];
    assert ScanResult(items[..0]) == Ok(none);
    assert none + [(k, v)] == [(k, v)];
  }

  /** The example database of the two lemmas below: "a:1" maps to "x" and
      "b:1" to "y". */
  function ExampleDb(): seq<Pair>
  {
    [([97, 58, 49], [120]), ([98, 58, 49], [121])]
  }

  lemma ExampleDbDecodes()
    ensures DecodesTo(ExampleDb()[0], "a:1", "x") && DecodesTo(ExampleDb()[1], "b:1", "y")
  {
    EncodeAscii3("a:1");
    EncodeAscii3("b:1");
    DecodeEncode("a:1");
    DecodeEncode("b:1");
    DecodeEncode("x");
    DecodeEncode("y");
    assert Encode("x") == [120] && Encode("y") == [121];
  }

  /** The scan as written: with keys "a:1" and "b:1" stored, a scan for
      "a:" also returns the pair under "b:1", because the iterator runs from
      the prefix to the end of the database. */
  lemma ScanRunsPastPrefix()
    ensures ScanResult(Items(SeekFrom(ExampleDb(), [97, 58]), None)) == Ok([("a:1", "x"), ("b:1", "y")])
  {
    var db: seq<Pair> := ExampleDb();
    assert SeekFrom(db, [97, 58]) == db;
    var none: seq<Result<Pair, string>> := [];
    var one := none + [Ok(db[0])];
    assert Items(db, None) == one + [Ok(db[1])];
    ExampleDbDecodes();
    var found0: seq<(string, string)> := [];
    var found1 := found0 + [("a:1", "x")];
    ScanAppendDecoded(none, found0, db[0], "a:1", "x");
    ScanAppendDecoded(one, found1, db[1], "b:1", "y");
    assert found1 + [("b:1", "y")] == [("a:1", "x"), ("b:1", "y")];
  }

  lemma ExampleWithPrefix()
    ensures WithPrefix(ExampleDb(), [97, 58]) == [ExampleDb()[0]]
  {
    var db: seq<Pair> := ExampleDb();
    assert !IsPrefix([97, 58], db[1].0) by {
      assert db[1].0[..2][0] == 98;
    }
    assert IsPrefix([97, 58], db[0].0) by {
      assert db[0].0[..2] == [97, 58];
    }
    var rest := db[1..];
    assert rest[1..] == [];
  }

  /** The same database through the corrected scan: only the pair under
      "a:1" is returned. */
  lemma ScanStaysInPrefix()
    ensures ScanResult(Items(WithPrefix(ExampleDb(), [97, 58]), None)) == Ok([("a:1", "x")])
  {
    ExampleWithPrefix();
    ItemsOne(ExampleDb()[0]);
    ExampleDbDecodes();
    ScanOne(ExampleDb()[0], "a:1", "x");
  }

  // ---------------------------------------------------------------------------
  // The manager slot

  /** `StorageManager`: the open database (its contents) and its path. */
  datatype Manager = Manager(dbPath: string, db: seq<Pair>)

  /** `StorageCleanupResult`. */
  datatype CleanupResult = CleanupResult(cleanedLocks: bool, message: string)

  /** `STORAGE_MANAGER`: `created` says whether the cell has been
      initialised, `manager` what its lock holds. */
  class StorageSlot {
    var created: bool
    var manager: Option<Manager>

    ghost predicate Valid()
      reads this
    {
      (manager.Some? ==> created) && (manager.Some? ==> SortedKeys(manager.value.db))
    }

    /** The slot before any command has run. */
    constructor ()
      ensures Valid() && !created && manager.None?
    {
      created := false;
      manager := None;
    }

    /** `StorageManager::initialize` (through `initialize_storage`): a held
        manager is kept without opening anything; otherwise the database at
        `path` is opened, with `createParent` the outcome of creating its
        parent directory and `open` the outcome of opening it. */
    method Initialize(path: string, createParent: Result<(), string>, open: Result<seq<Pair>, string>)
      returns (r: Result<(), string>)
      requires Valid()
      requires open.Ok? ==> SortedKeys(open.value)
      modifies this
      ensures Valid() && created
      ensures old(manager).Some? ==> r.Ok? && manager == old(manager)
      ensures old(manager).None? && createParent.Err? ==>
        r == Err("Failed to create parent directory for \"" + path + "\"") && manager.None?
      ensures old(manager).None? && createParent.Ok? && open.Err? ==> r == Err(open.error) && manager.None?
      ensures old(manager).None? && createParent.Ok? && open.Ok? ==>
        r.Ok? && manager == Some(Manager(path, open.value))
    {
      created := true;
      if manager.Some? {
        return Ok(());
      }
      if createParent.Err? {
        return Err("Failed to create parent directory for \"" + path + "\"");
      }
      match open
      case Err(e) =>
        return Err(e);
      case Ok(db) =>
        manager := Some(Manager(path, db));
        return Ok(());
    }

    /** `store_value`: the key's UTF-8 bytes map to the value's; `write`
        is the database's answer. */
    method Store(key: string, value: string, write: Result<(), string>) returns (r: Result<(), StorageError>)
      requires Valid()
      modifies this
      ensures Valid() && created == old(created)
      ensures !old(created) || old(manager).None? ==> r == Err(NotInitialized()) && manager == old(manager)
      ensures old(created) && old(manager).Some? && write.Err? ==>
        r == Err(StorageError("WRITE_ERROR", write.error)) && manager == old(manager)
      ensures old(created) && old(manager).Some? && write.Ok? ==>
        r.Ok? && manager == Some(old(manager).value.(db := Put(old(manager).value.db, Encode(key), Encode(value))))
    {
      if !created || manager.None? {
        return Err(NotInitialized());
      }
      if write.Err? {
        return Err(StorageError("WRITE_ERROR", write.error));
      }
      PutSorted(manager.value.db, Encode(key), Encode(value));
      manager := Some(manager.value.(db := Put(manager.value.db, Encode(key), Encode(value))));
      r := Ok(());
    }

    /** `get_value`: the stored bytes decoded lossily, or None; `read` is
        the database's answer when it fails. */
    method Get(key: string, read: Option<string>) returns (r: Result<Option<string>, StorageError>)
      ensures !created || manager.None? ==> r == Err(NotInitialized())
      ensures created && manager.Some? && read.Some? ==> r == Err(StorageError("READ_ERROR", read.value))
      ensures created && manager.Some? && read.None? ==>
        match Lookup(manager.value.db, Encode(key))
        case None => r == Ok(None)
        case Some(bytes) => r == Ok(Some(DecodeLossy(bytes)))
    {
      if !created || manager.None? {
        return Err(NotInitialized());
      }
      if read.Some? {
        return Err(StorageError("READ_ERROR", read.value));
      }
      match Lookup(manager.value.db, Encode(key))
      case None =>
        r := Ok(None);
      case Some(bytes) =>
        r := Ok(Some(DecodeLossy(bytes)));
    }

    /** `delete_value`; `delete` is the database's answer. */
    method Delete(key: string, delete: Result<(), string>) returns (r: Result<(), StorageError>)
      requires Valid()
      modifies this
      ensures Valid() && created == old(created)
      ensures !old(created) || old(manager).None? ==> r == Err(NotInitialized()) && manager == old(manager)
      ensures old(created) && old(manager).Some? && delete.Err? ==>
        r == Err(StorageError("DELETE_ERROR", delete.error)) && manager == old(manager)
      ensures old(created) && old(manager).Some? && delete.Ok? ==>
        r.Ok? && manager == Some(old(manager).value.(db := Remove(old(manager).value.db, Encode(key))))
    {
      if !created || manager.None? {
        return Err(NotInitialized());
      }
      if delete.Err? {
        return Err(StorageError("DELETE_ERROR", delete.error));
      }
      RemoveSorted(manager.value.db, Encode(key));
      manager := Some(manager.value.(db := Remove(manager.value.db, Encode(key))));
      r := Ok(());
    }

    /** `scan_prefix`: walks the pairs whose key starts with the prefix,
        keeping those valid as UTF-8 on both sides; `failure` is where the
        iterator reports an error, if it does. */
    method ScanPrefix(prefix: string, failure: Option<(nat, string)>) returns (r: Result<seq<(string, string)>, StorageError>)
      ensures !created || manager.None? ==> r == Err(NotInitialized())
      ensures created && manager.Some? ==>
        r == ScanResult(Items(WithPrefix(manager.value.db, Encode(prefix)), failure))
    {
      if !created || manager.None? {
        return Err(NotInitialized());
      }
      r := ScanItems(Items(WithPrefix(manager.value.db, Encode(prefix)), failure));
    }

    /** `cleanup_storage`: takes the manager out of the slot. */
    method Cleanup() returns (r: Result<CleanupResult, string>)
      requires Valid()
      modifies this
      ensures Valid() && manager.None? && created == old(created)
      ensures old(created) && old(manager).Some? ==>
        r == Ok(CleanupResult(true, "Successfully shut down storage manager and cleaned up lock files."))
      ensures !(old(created) && old(manager).Some?) ==>
        r == Ok(CleanupResult(false, "Storage manager was not initialized."))
    {
      if created && manager.Some? {
        manager := None;
        return Ok(CleanupResult(true, "Successfully shut down storage manager and cleaned up lock files."));
      }
      r := Ok(CleanupResult(false, "Storage manager was not initialized."));
    }
  }

  /** A stored value reads back unchanged (the lossy decoding of its own
      encoding is the value), a deleted key reads as absent, and other keys
      are untouched by both. */
  lemma StoreThenGet(db: seq<Pair>, key: string, value: string, other: string)
    ensures Lookup(Put(db, Encode(key), Encode(value)), Encode(key)) == Some(Encode(value))
    ensures DecodeLossy(Encode(value)) == value
    ensures Lookup(Remove(db, Encode(key)), Encode(key)) == None
    ensures other != key ==>
      && Lookup(Put(db, Encode(key), Encode(value)), Encode(other)) == Lookup(db, Encode(other))
      && Lookup(Remove(db, Encode(key)), Encode(other)) == Lookup(db, Encode(other))
  {
    LookupPut(db, Encode(key), Encode(value), Encode(other));
    LookupRemove(db, Encode(key), Encode(other));
    DecodeLossyEncode(value);
    if other != key && Encode(other) == Encode(key) {
      DecodeEncode(other);
      DecodeEncode(key);
    }
  }
}

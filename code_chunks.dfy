/** The text processing of `SmartContextManager` (context_manager.rs):
    the `SymbolKind` column encoding, `str::lines`, fixed 50-line chunking,
    and the regular-expression symbol and import extraction, with the three
    symbol patterns and the import pattern written as hand scanners. */
module CodeChunks {
  import opened Base

  datatype SymbolKind = File | Class | Interface | Function | Method | Variable | Import

  datatype CodeLocation = CodeLocation(file: string, startLine: nat, endLine: nat, startCol: nat, endCol: nat)

  datatype CodeSymbol = CodeSymbol(name: string, kind: SymbolKind, location: CodeLocation, relatedSymbols: seq<string>)

  datatype ChunkInfo = ChunkInfo(content: string, startLine: nat, endLine: nat, filePath: string, symbolKind: Option<SymbolKind>)

  datatype FileContext = FileContext(content: string, symbols: seq<CodeSymbol>, imports: seq<string>)

  // ---------------------------------------------------------------------------
  // SymbolKind <-> the `symbol_kind` column

  /** `format!("{:?}", k)`: the variant's name. */
  function DebugName(k: SymbolKind): string
  {
    match k
    case File => "File"
    case Class => "Class"
    case Interface => "Interface"
    case Function => "Function"
    case Method => "Method"
    case Variable => "Variable"
    case Import => "Import"
  }

  /** The value `add_file` stores in the `symbol_kind` column: the Debug name,
      or the empty string (`unwrap_or_default`) when the chunk has no kind. */
  function FormatKind(k: Option<SymbolKind>): string
  {
    match k
    case Some(kind) => DebugName(kind)
    case None => ""
  }

  /** The lower-case spellings `search_similar` accepts for each kind. */
  function Spellings(k: SymbolKind): set<string>
  {
    match k
    case File => {"file"}
    case Class => {"class"}
    case Interface => {"interface"}
    case Function => {"function", "fn"}
    case Method => {"method"}
    case Variable => {"variable", "var"}
    case Import => {"import", "use"}
  }

  /** The match on `symbol_kind.value(i).to_lowercase()` in `search_similar`. */
  function ParseKind(s: string): Option<SymbolKind>
  {
    var l := Lower(s);
    if l == "file" then Some(File)
    else if l == "class" then Some(Class)
    else if l == "interface" then Some(Interface)
    else if l == "function" || l == "fn" then Some(Function)
    else if l == "method" then Some(Method)
    else if l == "variable" || l == "var" then Some(Variable)
    else if l == "import" || l == "use" then Some(Import)
    else None
  }

  /** A null cell (`!is_valid(i)`) reads as no kind; otherwise it is parsed. */
  function ParseKindCell(cell: Option<string>): Option<SymbolKind>
  {
    match cell
    case None => None
    case Some(s) => ParseKind(s)
  }

  /** Every kind, and the absence of one, survives the trip through the
      column: the Debug name parses back to its kind and "" parses to None. */
  lemma KindRoundTrip(k: Option<SymbolKind>)
    ensures ParseKind(FormatKind(k)) == k
  {
    match k
    case None =>
    case Some(kind) =>
      match kind
      case File => assert Lower("File") == "file";
      case Class => assert Lower("Class") == "class";
      case Interface => assert Lower("Interface") == "interface";
      case Function => assert Lower("Function") == "function";
      case Method => assert Lower("Method") == "method";
      case Variable => assert Lower("Variable") == "variable";
      case Import => assert Lower("Import") == "import";
  }

  /** Exactly the listed spellings (aliases "fn", "var", "use" included) are
      accepted, case-insensitively; every other string yields None. */
  lemma ParseKindSpellings(s: string, k: SymbolKind)
    ensures ParseKind(s) == Some(k) <==> Lower(s) in Spellings(k)
    ensures ParseKind(s) == None <==> forall kind: SymbolKind :: Lower(s) !in Spellings(kind)
  {
    var l := Lower(s);
    if ParseKind(s) == None {
      forall kind: SymbolKind ensures l !in Spellings(kind) {
        match kind
        case File => case Class => case Interface => case Function =>
        case Method => case Variable => case Import =>
      }
    } else {
      var found := ParseKind(s).value;
      assert l in Spellings(found);
    }
  }

  // ---------------------------------------------------------------------------
  // `str::lines`

  /** Splitting on '\n': one more part than there are newlines. */
  function SplitNewlines(s: string): (r: seq<string>)
    ensures |r| >= 1
    decreases |s|
  {
    if |s| == 0 then [""]
    else
      var rest := SplitNewlines(s[1..]);
      if s[0] == '\n' then [""] + rest else [[s[0]] + rest[0]] + rest[1..]
  }

  function StripCR(line: string): string
  {
    if |line| > 0 && line[|line| - 1] == '\r' then line[..|line| - 1] else line
  }

  /** `content.lines()`: lines end at "\n" or "\r\n", the terminator is not
      part of the line, and a final empty segment (after a trailing newline,
      or of the empty string) is not a line. */
  function Lines(s: string): seq<string>
  {
    var parts := SplitNewlines(s);
    var terminated := seq(|parts| - 1, i requires 0 <= i < |parts| - 1 => StripCR(parts[i]));
    var last := parts[|parts| - 1];
    if last == "" then terminated else terminated + [last]
  }

  lemma {:induction false} JoinSplitNewlines(s: string)
    ensures Join(SplitNewlines(s), "\n") == s
    decreases |s|
  {
    if |s| > 0 {
      JoinSplitNewlines(s[1..]);
      var rest := SplitNewlines(s[1..]);
      if s[0] == '\n' {
        if |rest| == 1 {
          assert Join([""] + rest, "\n") == "" + "\n" + rest[0];
        } else {
          assert ([""] + rest)[1..] == rest;
        }
      } else {
        var r := [[s[0]] + rest[0]] + rest[1..];
        if |rest| == 1 {
          assert r == [[s[0]] + rest[0]];
        } else {
          assert r[1..] == rest[1..];
          assert Join(rest, "\n") == rest[0] + "\n" + Join(rest[1..], "\n");
        }
        assert s == [s[0]] + s[1..];
      }
    }
  }

  lemma {:induction false} JoinSnoc(parts: seq<string>, x: string, sep: string)
    requires |parts| >= 1
    ensures Join(parts + [x], sep) == Join(parts, sep) + sep + x
    decreases |parts|
  {
    if |parts| > 1 {
      assert (parts + [x])[1..] == parts[1..] + [x];
      JoinSnoc(parts[1..], x, sep);
    }
  }

  lemma {:induction false} LastPartEmpty(s: string)
    ensures var parts := SplitNewlines(s);
      parts[|parts| - 1] == "" <==> (s == "" || s[|s| - 1] == '\n')
    decreases |s|
  {
    if |s| > 0 { LastPartEmpty(s[1..]); }
  }

  /** Without carriage returns, `lines()` loses only an optional final
      newline: joining the lines with "\n" gives back the text, minus its
      trailing newline if it had one. */
  lemma LinesJoin(s: string)
    requires NoCR(s)
    ensures s == "" || s[|s| - 1] != '\n' ==> Join(Lines(s), "\n") == s
    ensures s != "" && s[|s| - 1] == '\n' ==> Join(Lines(s), "\n") + "\n" == s
  {
    var parts := SplitNewlines(s);
    var n := |parts|;
    var init, last := parts[..n - 1], parts[n - 1];
    LinesOfParts(s);
    JoinSplitNewlines(s);
    LastPartEmpty(s);
    SplitLast(parts);
    if n > 1 {
      JoinSnoc(init, last, "\n");
    }
  }

  /** Without carriage returns, the lines are the parts between newlines,
      without a final empty part. */
  lemma LinesOfParts(s: string)
    requires NoCR(s)
    ensures var parts := SplitNewlines(s);
      Lines(s) == if parts[|parts| - 1] == "" then parts[..|parts| - 1] else parts
  {
    var parts := SplitNewlines(s);
    var n := |parts|;
    NoCarriageReturnInParts(s);
    var terminated := seq(n - 1, i requires 0 <= i < n - 1 => StripCR(parts[i]));
    forall i | 0 <= i < n - 1 ensures terminated[i] == parts[..n - 1][i] {
      assert StripCR(parts[i]) == parts[i];
    }
    assert terminated == parts[..n - 1];
    assert Lines(s) == if parts[n - 1] == "" then terminated else terminated + [parts[n - 1]];
    SplitLast(parts);
  }


  predicate NoCR(t: string)
  {
    forall i :: 0 <= i < |t| ==> t[i] != '\r'
  }

  lemma {:induction false} NoCarriageReturnInParts(s: string)
    requires NoCR(s)
    ensures forall k :: 0 <= k < |SplitNewlines(s)| ==> NoCR(SplitNewlines(s)[k])
    ensures forall k :: 0 <= k < |SplitNewlines(s)| ==> StripCR(SplitNewlines(s)[k]) == SplitNewlines(s)[k]
    decreases |s|
  {
    var parts := SplitNewlines(s);
    if |s| > 0 {
      NoCarriageReturnInParts(s[1..]);
      var rest := SplitNewlines(s[1..]);
      if s[0] != '\n' {
        var first := [s[0]] + rest[0];
        assert NoCR(rest[0]);
        assert NoCR(first) by {
          forall j | 0 <= j < |first| ensures first[j] != '\r' {
            if j > 0 { assert first[j] == rest[0][j - 1]; }
          }
        }
        assert parts == [first] + rest[1..];
        forall k | 0 <= k < |parts| ensures NoCR(parts[k]) {
          if k > 0 { assert parts[k] == rest[k]; }
        }
      } else {
        assert parts == [""] + rest;
        forall k | 0 <= k < |parts| ensures NoCR(parts[k]) {
          if k > 0 { assert parts[k] == rest[k - 1]; }
        }
      }
    }
    forall k | 0 <= k < |parts| ensures StripCR(parts[k]) == parts[k] {
      if |parts[k]| > 0 { assert parts[k][|parts[k]| - 1] != '\r'; }
    }
  }

  // ---------------------------------------------------------------------------
  // Chunking (`lines.chunks(50)`)

  const ChunkSize: nat := 50

  function ChunkCount(lineCount: nat): nat
  {
    (lineCount + ChunkSize - 1) / ChunkSize
  }

  function Min(a: int, b: int): int { if a <= b then a else b }

  /** Chunk number `k` of `lines` as `process_file` builds it. */
  ghost predicate IsChunk(c: ChunkInfo, path: string, lines: seq<string>, k: nat)
  {
    && ChunkSize * k < |lines|
    && c.startLine == ChunkSize * k
    && c.endLine == Min(ChunkSize * k + ChunkSize, |lines|)
    && c.content == Join(lines[c.startLine..c.endLine], "\n")
    && c.filePath == path
    && c.symbolKind == None
  }

  /** The chunking loop of `process_file`. */
  method ChunkLines(path: string, lines: seq<string>) returns (chunks: seq<ChunkInfo>)
    ensures |chunks| == ChunkCount(|lines|)
    ensures forall k :: 0 <= k < |chunks| ==> IsChunk(chunks[k], path, lines, k)
  {
    chunks := [];
    var k := 0;
    while ChunkSize * k < |lines|
      invariant |chunks| == k && ChunkSize * k <= |lines| + ChunkSize - 1
      invariant forall j :: 0 <= j < k ==> IsChunk(chunks[j], path, lines, j)
    {
      var startLine := k * ChunkSize;
      var endLine := Min(startLine + ChunkSize, |lines|);
      chunks := chunks + [ChunkInfo(Join(lines[startLine..endLine], "\n"), startLine, endLine, path, None)];
      k := k + 1;
    }
  }

  /** The chunk list `process_file` produces for a file, as a value. */
  function FileChunks(path: string, content: string): (r: seq<ChunkInfo>)
    ensures |r| == ChunkCount(|Lines(content)|)
  {
    var lines := Lines(content);
    seq(ChunkCount(|lines|), k requires 0 <= k < ChunkCount(|lines|) =>
      var startLine := ChunkSize * k;
      var endLine := Min(startLine + ChunkSize, |lines|);
      ChunkInfo(Join(lines[startLine..endLine], "\n"), startLine, endLine, path, None))
  }

  /** Chunk number `k` of `n` lines starts before line `n`. */
  lemma ChunkStartBelow(n: nat, k: nat)
    requires k < (n + 49) / 50
    ensures 50 * k < n
  {
    var q, r := (n + 49) / 50, (n + 49) % 50;
    assert n + 49 == 50 * q + r && 0 <= r < 50;
  }

  /** Every chunk starts before the last line and ends no later. */
  lemma FileChunkBounds(path: string, content: string, k: nat)
    requires k < |FileChunks(path, content)|
    ensures FileChunks(path, content)[k].startLine < FileChunks(path, content)[k].endLine <= |Lines(content)|
  {
    ChunkStartBelow(|Lines(content)|, k);
  }

  /** `FileChunks` is the one chunk list `ChunkLines` can return. */
  lemma FileChunksUnique(path: string, content: string, chunks: seq<ChunkInfo>)
    requires |chunks| == ChunkCount(|Lines(content)|)
    requires forall k :: 0 <= k < |chunks| ==> IsChunk(chunks[k], path, Lines(content), k)
    ensures chunks == FileChunks(path, content)
  {
    var expected := FileChunks(path, content);
    forall k | 0 <= k < |chunks| ensures chunks[k] == expected[k] {
      assert IsChunk(chunks[k], path, Lines(content), k);
    }
  }

  function Concat(parts: seq<seq<string>>): seq<string>
    decreases |parts|
  {
    if |parts| == 0 then [] else Concat(parts[..|parts| - 1]) + parts[|parts| - 1]
  }

  /** The line range each chunk covers. */
  function ChunkRanges(lines: seq<string>, chunks: seq<ChunkInfo>): seq<seq<string>>
    requires forall k :: 0 <= k < |chunks| ==> chunks[k].startLine <= chunks[k].endLine <= |lines|
  {
    seq(|chunks|, k requires 0 <= k < |chunks| => lines[chunks[k].startLine..chunks[k].endLine])
  }

  /** The chunks of `n` lines reach at least to line `n`. */
  lemma ChunkCountCovers(n: nat)
    ensures n <= 50 * ((n + 49) / 50)
  {
    var q, r := (n + 49) / 50, (n + 49) % 50;
    assert n + 49 == 50 * q + r && 0 <= r < 50;
  }

  lemma SliceJoin(lines: seq<string>, a: nat, e: nat)
    requires a <= e <= |lines|
    ensures lines[..a] + lines[a..e] == lines[..e]
  {
  }

  /** Every chunk but the last is a full 50 lines, and each one starts
      where the previous one ended. */
  lemma ChunksConsecutive(path: string, lines: seq<string>, chunks: seq<ChunkInfo>)
    requires forall k :: 0 <= k < |chunks| ==> IsChunk(chunks[k], path, lines, k)
    ensures forall k :: 0 <= k < |chunks| - 1 ==>
      chunks[k].endLine - chunks[k].startLine == ChunkSize && chunks[k].endLine == chunks[k + 1].startLine
  {
    forall k | 0 <= k < |chunks| - 1
      ensures chunks[k].endLine - chunks[k].startLine == ChunkSize && chunks[k].endLine == chunks[k + 1].startLine
    {
      assert IsChunk(chunks[k + 1], path, lines, k + 1);
    }
  }

  /** The first `m` ranges of 50 lines each (the last one cut short at
      the end) concatenate to the lines they cover. */
  lemma {:induction false} ConcatPrefix(lines: seq<string>, ranges: seq<seq<string>>, m: nat)
    requires m <= |ranges|
    requires forall k :: 0 <= k < |ranges| ==>
      ChunkSize * k < |lines| && ranges[k] == lines[ChunkSize * k..Min(ChunkSize * k + ChunkSize, |lines|)]
    ensures Concat(ranges[..m]) == lines[..Min(ChunkSize * m, |lines|)]
    decreases m
  {
    if m > 0 {
      ConcatPrefix(lines, ranges, m - 1);
      assert ranges[..m][..m - 1] == ranges[..m - 1];
      SliceJoin(lines, ChunkSize * (m - 1), Min(ChunkSize * m, |lines|));
    }
  }

  /** The chunks' line ranges, concatenated in order, are all the lines. */
  lemma ChunksCoverLines(path: string, lines: seq<string>, chunks: seq<ChunkInfo>)
    requires |chunks| == ChunkCount(|lines|)
    requires forall k :: 0 <= k < |chunks| ==> IsChunk(chunks[k], path, lines, k)
    ensures forall k :: 0 <= k < |chunks| ==> chunks[k].startLine < chunks[k].endLine <= |lines|
    ensures Concat(ChunkRanges(lines, chunks)) == lines
  {
    var ranges := ChunkRanges(lines, chunks);
    ConcatPrefix(lines, ranges, |ranges|);
    ChunkCountCovers(|lines|);
    assert ranges[..|ranges|] == ranges;
  }

  /** The chunks partition the lines: in order, without gaps or overlap, each
      non-empty and at most 50 lines long, and only the last may be shorter. */
  lemma ChunksPartitionLines(path: string, lines: seq<string>, chunks: seq<ChunkInfo>)
    requires |chunks| == ChunkCount(|lines|)
    requires forall k :: 0 <= k < |chunks| ==> IsChunk(chunks[k], path, lines, k)
    ensures forall k :: 0 <= k < |chunks| ==>
      0 < chunks[k].endLine - chunks[k].startLine <= ChunkSize && chunks[k].endLine <= |lines|
    ensures forall k :: 0 <= k < |chunks| - 1 ==> chunks[k].endLine - chunks[k].startLine == ChunkSize
    ensures forall k :: 0 <= k < |chunks| - 1 ==> chunks[k].endLine == chunks[k + 1].startLine
    ensures Concat(ChunkRanges(lines, chunks)) == lines
  {
    ChunksCoverLines(path, lines, chunks);
    ChunksConsecutive(path, lines, chunks);
  }

  // ---------------------------------------------------------------------------
  // The symbol patterns `class\s+(\w+)`, `fn\s+(\w+)`, `struct\s+(\w+)`

  /** Length of the run of whitespace starting at `i`. */
  function SpaceRun(s: string, i: nat): (n: nat)
    requires i <= |s|
    ensures i + n <= |s|
    ensures forall j :: i <= j < i + n ==> IsSpace(s[j])
    ensures i + n < |s| ==> !IsSpace(s[i + n])
    decreases |s| - i
  {
    if i < |s| && IsSpace(s[i]) then 1 + SpaceRun(s, i + 1) else 0
  }

  /** Length of the run of word characters starting at `i`. */
  function WordRun(s: string, i: nat): (n: nat)
    requires i <= |s|
    ensures i + n <= |s|
    ensures forall j :: i <= j < i + n ==> IsWordChar(s[j])
    ensures i + n < |s| ==> !IsWordChar(s[i + n])
    decreases |s| - i
  {
    if i < |s| && IsWordChar(s[i]) then 1 + WordRun(s, i + 1) else 0
  }

  datatype Capture = Capture(text: string, end: nat)

  /** A match of `kw\s+(\w+)` starting exactly at `i`: the captured word and
      the index just past the match. */
  function KeywordMatchAt(s: string, kw: string, i: nat): (r: Option<Capture>)
    requires |kw| > 0 && i <= |s|
    ensures r.Some? ==> i < r.value.end <= |s|
    ensures r.Some? ==> OccursAt(s, kw, i) && |r.value.text| > 0
    ensures r.Some? ==> forall j :: 0 <= j < |r.value.text| ==> IsWordChar(r.value.text[j])
    ensures r.Some? ==> r.value.end - |r.value.text| > i + |kw|
    ensures r.Some? ==> s[r.value.end - |r.value.text|..r.value.end] == r.value.text
    ensures r.Some? ==> forall j :: i + |kw| <= j < r.value.end - |r.value.text| ==> IsSpace(s[j])
    ensures r.Some? ==> r.value.end < |s| ==> !IsWordChar(s[r.value.end])
  {
    if !OccursAt(s, kw, i) then None
    else
      var j := i + |kw|;
      var ws := SpaceRun(s, j);
      if ws == 0 then None
      else
        var w := WordRun(s, j + ws);
        if w == 0 then None else Some(Capture(s[j + ws..j + ws + w], j + ws + w))
  }

  /** `re.captures_iter(s)` from index `i`: leftmost matches, each search
      resuming where the previous match ended. */
  function KeywordCaptures(s: string, kw: string, i: nat): seq<string>
    requires |kw| > 0 && i <= |s|
    decreases |s| - i
  {
    if i == |s| then []
    else match KeywordMatchAt(s, kw, i)
      case Some(cap) => [cap.text] + KeywordCaptures(s, kw, cap.end)
      case None => KeywordCaptures(s, kw, i + 1)
  }

  /** Every capture is a non-empty word that the text holds right after the
      keyword and some whitespace. */
  lemma {:induction false} KeywordCapturesSound(s: string, kw: string, i: nat)
    requires |kw| > 0 && i <= |s|
    ensures forall name :: name in KeywordCaptures(s, kw, i) ==>
      exists p: nat :: i <= p <= |s| && KeywordMatchAt(s, kw, p).Some? && KeywordMatchAt(s, kw, p).value.text == name
    decreases |s| - i
  {
    if i < |s| {
      match KeywordMatchAt(s, kw, i)
      case Some(cap) => KeywordCapturesSound(s, kw, cap.end);
      case None => KeywordCapturesSound(s, kw, i + 1);
    }
  }

  /** Nothing is skipped: when no match starts in [i, p) and one starts at
      `p`, the scan from `i` captures that match first and resumes where it
      ends -- the leftmost, non-overlapping matches, in order. */
  lemma {:induction false} KeywordCapturesComplete(s: string, kw: string, i: nat, p: nat, cap: Capture)
    requires |kw| > 0 && i <= p <= |s|
    requires forall q :: i <= q < p ==> KeywordMatchAt(s, kw, q).None?
    requires KeywordMatchAt(s, kw, p) == Some(cap)
    ensures KeywordCaptures(s, kw, i) == [cap.text] + KeywordCaptures(s, kw, cap.end)
    decreases p - i
  {
    if i < p {
      KeywordCapturesComplete(s, kw, i + 1, p, cap);
    }
  }

  /** When no match starts at or after `i`, the scan captures nothing. */
  lemma {:induction false} KeywordCapturesNone(s: string, kw: string, i: nat)
    requires |kw| > 0 && i <= |s|
    requires forall q :: i <= q <= |s| ==> KeywordMatchAt(s, kw, q).None?
    ensures KeywordCaptures(s, kw, i) == []
    decreases |s| - i
  {
    if i < |s| {
      KeywordCapturesNone(s, kw, i + 1);
    }
  }

  /** The symbol records `process_file` pushes for one pattern. */
  function SymbolsOf(path: string, names: seq<string>, kind: SymbolKind): (r: seq<CodeSymbol>)
    ensures |r| == |names|
  {
    seq(|names|, i requires 0 <= i < |names| => CodeSymbol(names[i], kind, CodeLocation(path, 0, 0, 0, 0), []))
  }

  datatype Pattern = Pattern(keyword: string, kind: SymbolKind)

  /** The three symbol patterns of `process_file`, in the order they run. */
  const SymbolPatterns: seq<Pattern> := [Pattern("class", Class), Pattern("fn", Function), Pattern("struct", Class)]

  /** The symbols found by running `patterns` one after the other. */
  function SymbolsFor(path: string, content: string, patterns: seq<Pattern>): seq<CodeSymbol>
    requires forall p :: p in patterns ==> |p.keyword| > 0
    decreases |patterns|
  {
    if |patterns| == 0 then []
    else
      var last := patterns[|patterns| - 1];
      SymbolsFor(path, content, patterns[..|patterns| - 1])
        + SymbolsOf(path, KeywordCaptures(content, last.keyword, 0), last.kind)
  }

  /** The symbols `process_file` returns, as a value. */
  function FileSymbols(path: string, content: string): seq<CodeSymbol>
  {
    SymbolsOf(path, KeywordCaptures(content, "class", 0), Class)
      + SymbolsOf(path, KeywordCaptures(content, "fn", 0), Function)
      + SymbolsOf(path, KeywordCaptures(content, "struct", 0), Class)
  }

  /** The three patterns run in order: `class`, then `fn`, then `struct`. */
  lemma SymbolPatternsInOrder(path: string, content: string)
    ensures SymbolsFor(path, content, SymbolPatterns)
         == SymbolsOf(path, KeywordCaptures(content, "class", 0), Class)
          + SymbolsOf(path, KeywordCaptures(content, "fn", 0), Function)
          + SymbolsOf(path, KeywordCaptures(content, "struct", 0), Class)
  {
    var classes := SymbolsOf(path, KeywordCaptures(content, "class", 0), Class);
    var fns := SymbolsOf(path, KeywordCaptures(content, "fn", 0), Function);
    var structs := SymbolsOf(path, KeywordCaptures(content, "struct", 0), Class);
    var one := [Pattern("class", Class)];
    var two := one + [Pattern("fn", Function)];
    assert one[..0] == [];
    assert SymbolsFor(path, content, one) == classes;
    assert two[..1] == one;
    assert SymbolsFor(path, content, two) == classes + fns;
    assert SymbolPatterns == two + [Pattern("struct", Class)];
    assert SymbolPatterns[..2] == two;
  }

  /** The inner loop of the symbol extraction: one record per capture. */
  method AppendSymbols(symbols: seq<CodeSymbol>, path: string, names: seq<string>, kind: SymbolKind)
    returns (r: seq<CodeSymbol>)
    ensures r == symbols + SymbolsOf(path, names, kind)
  {
    r := symbols;
    var i := 0;
    while i < |names|
      invariant 0 <= i <= |names|
      invariant r == symbols + SymbolsOf(path, names[..i], kind)
    {
      r := r + [CodeSymbol(names[i], kind, CodeLocation(path, 0, 0, 0, 0), [])];
      i := i + 1;
      assert SymbolsOf(path, names[..i], kind) == SymbolsOf(path, names[..i - 1], kind)
        + [CodeSymbol(names[i - 1], kind, CodeLocation(path, 0, 0, 0, 0), [])];
    }
    assert names[..i] == names;
  }

  /** The symbol-extraction loops of `process_file`: all `class` matches,
      then all `fn` matches, then all `struct` matches (tagged Class), each
      located in `path` at line and column zero with no related symbols. */
  method ExtractSymbols(path: string, content: string) returns (symbols: seq<CodeSymbol>)
    ensures symbols == SymbolsOf(path, KeywordCaptures(content, "class", 0), Class)
                     + SymbolsOf(path, KeywordCaptures(content, "fn", 0), Function)
                     + SymbolsOf(path, KeywordCaptures(content, "struct", 0), Class)
  {
    symbols := [];
    var p := 0;
    while p < |SymbolPatterns|
      invariant 0 <= p <= |SymbolPatterns|
      invariant symbols == SymbolsFor(path, content, SymbolPatterns[..p])
    {
      var pattern := SymbolPatterns[p];
      symbols := AppendSymbols(symbols, path, KeywordCaptures(content, pattern.keyword, 0), pattern.kind);
      assert SymbolPatterns[..p + 1][..p] == SymbolPatterns[..p];
      p := p + 1;
    }
    assert SymbolPatterns[..p] == SymbolPatterns;
    SymbolPatternsInOrder(path, content);
  }

  // ---------------------------------------------------------------------------
  // The import pattern `use\s+([^;]+);`

  /** Index of the first ';' at or after `i`, if any. */
  function FirstSemicolon(s: string, i: nat): (r: Option<nat>)
    requires i <= |s|
    ensures r.Some? ==> i <= r.value < |s| && s[r.value] == ';'
    ensures r.Some? ==> forall j :: i <= j < r.value ==> s[j] != ';'
    ensures r.None? ==> forall j :: i <= j < |s| ==> s[j] != ';'
    decreases |s| - i
  {
    if i == |s| then None else if s[i] == ';' then Some(i) else FirstSemicolon(s, i + 1)
  }

  /** A match of `use\s+([^;]+);` starting exactly at `i`. `\s+` is greedy
      and `[^;]+` also matches whitespace, so the group is what follows the
      whitespace run up to the first ';' -- or, when only whitespace precedes
      the ';', the last whitespace character (the regex backtracks once). */
  function UseMatchAt(s: string, i: nat): (r: Option<Capture>)
    requires i <= |s|
    ensures r.Some? ==> i + 5 <= r.value.end <= |s| && s[r.value.end - 1] == ';' && |r.value.text| > 0
    ensures r.Some? ==> forall j :: 0 <= j < |r.value.text| ==> r.value.text[j] != ';'
  {
    if !(OccursAt(s, "use", i) && i + 3 < |s| && IsSpace(s[i + 3])) then None
    else match FirstSemicolon(s, i + 3)
      case None => None
      case Some(j) => UseGroup(s, i + 3, j)
  }

  /** The group of an import match whose whitespace starts at `a` and whose
      closing ';' is at `j`. */
  function UseGroup(s: string, a: nat, j: nat): (r: Option<Capture>)
    requires a <= j < |s| && s[j] == ';'
    requires forall k :: a <= k < j ==> s[k] != ';'
    ensures r.Some? ==> r.value.end == j + 1 && |r.value.text| > 0
    ensures r.Some? ==> forall k :: 0 <= k < |r.value.text| ==> r.value.text[k] != ';'
  {
    var ws := SpaceRun(s, a);
    if a + ws < j then Some(Capture(s[a + ws..j], j + 1))
    else if ws >= 2 then Some(Capture(s[j - 1..j], j + 1))
    else None
  }

  /** `re.captures_iter(content)` for the import pattern, from index `i`. */
  function UseCaptures(s: string, i: nat): seq<string>
    requires i <= |s|
    decreases |s| - i
  {
    if i == |s| then []
    else match UseMatchAt(s, i)
      case Some(cap) => [cap.text] + UseCaptures(s, cap.end)
      case None => UseCaptures(s, i + 1)
  }

  /** Every import capture is the group of a match at some position. */
  lemma {:induction false} UseCapturesSound(s: string, i: nat)
    requires i <= |s|
    ensures forall text :: text in UseCaptures(s, i) ==>
      exists p: nat :: i <= p <= |s| && UseMatchAt(s, p).Some? && UseMatchAt(s, p).value.text == text
    decreases |s| - i
  {
    if i < |s| {
      match UseMatchAt(s, i)
      case Some(cap) => UseCapturesSound(s, cap.end);
      case None => UseCapturesSound(s, i + 1);
    }
  }

  /** The import scan captures the leftmost match first and resumes where
      it ends. */
  lemma {:induction false} UseCapturesComplete(s: string, i: nat, p: nat, cap: Capture)
    requires i <= p <= |s|
    requires forall q :: i <= q < p ==> UseMatchAt(s, q).None?
    requires UseMatchAt(s, p) == Some(cap)
    ensures UseCaptures(s, i) == [cap.text] + UseCaptures(s, cap.end)
    decreases p - i
  {
    if i < p {
      UseCapturesComplete(s, i + 1, p, cap);
    }
  }

  /** When no import match starts at or after `i`, the scan captures nothing. */
  lemma {:induction false} UseCapturesNone(s: string, i: nat)
    requires i <= |s|
    requires forall q :: i <= q <= |s| ==> UseMatchAt(s, q).None?
    ensures UseCaptures(s, i) == []
    decreases |s| - i
  {
    if i < |s| {
      UseCapturesNone(s, i + 1);
    }
  }

  /** A captured group, once trimmed, is the text between "use" and the
      first ';' with its surrounding whitespace removed. */
  lemma UseCaptureTrimmed(s: string, i: nat, cap: Capture)
    requires i <= |s| && UseMatchAt(s, i) == Some(cap)
    ensures Trim(cap.text) == Trim(s[i + 3..cap.end - 1])
  {
    var j := cap.end - 1;
    assert FirstSemicolon(s, i + 3) == Some(j);
    UseGroupTrimmed(s, i + 3, j);
  }

  lemma UseGroupTrimmed(s: string, a: nat, j: nat)
    requires a <= j < |s| && s[j] == ';'
    requires forall k :: a <= k < j ==> s[k] != ';'
    requires UseGroup(s, a, j).Some?
    ensures Trim(UseGroup(s, a, j).value.text) == Trim(s[a..j])
  {
    var ws := SpaceRun(s, a);
    if a + ws < j {
      TrimSkippedSpaces(s, a, ws, j);
    } else {
      AllSpaceSegment(s, a, ws, j);
    }
  }

  lemma TrimSkippedSpaces(s: string, a: nat, ws: nat, j: nat)
    requires a + ws < j <= |s|
    requires forall k :: a <= k < a + ws ==> IsSpace(s[k])
    requires !IsSpace(s[a + ws])
    ensures Trim(s[a + ws..j]) == Trim(s[a..j])
  {
    var seg := s[a..j];
    TrimStartSkips(seg, ws);
    assert seg[ws..] == s[a + ws..j];
    TrimStartSkips(s[a + ws..j], 0);
  }

  lemma AllSpaceSegment(s: string, a: nat, ws: nat, j: nat)
    requires a < j < |s| && j <= a + ws <= |s|
    requires forall k :: a <= k < a + ws ==> IsSpace(s[k])
    requires !IsSpace(s[j])
    ensures Trim(s[j - 1..j]) == Trim(s[a..j])
  {
    var seg := s[a..j];
    assert forall k :: 0 <= k < |seg| ==> IsSpace(seg[k]);
    TrimStartAllSpace(seg);
    TrimStartAllSpace(s[j - 1..j]);
  }

  lemma {:induction false} TrimStartSkips(s: string, n: nat)
    requires n < |s| && (forall k :: 0 <= k < n ==> IsSpace(s[k])) && !IsSpace(s[n])
    ensures TrimStart(s) == s[n..]
    decreases n
  {
    if n > 0 { TrimStartSkips(s[1..], n - 1); }
  }

  lemma {:induction false} TrimStartAllSpace(s: string)
    requires forall k :: 0 <= k < |s| ==> IsSpace(s[k])
    ensures TrimStart(s) == "" && Trim(s) == ""
    decreases |s|
  {
    if |s| > 0 { TrimStartAllSpace(s[1..]); }
  }

  /** The imports `extract_imports` returns, as a value. */
  function FileImports(content: string): seq<string>
  {
    var caps := UseCaptures(content, 0);
    seq(|caps|, k requires 0 <= k < |caps| => Trim(caps[k]))
  }

  /** The trimming loop of `extract_imports`: each capture, trimmed, in order. */
  method TrimEach(caps: seq<string>) returns (r: seq<string>)
    ensures |r| == |caps|
    ensures forall k :: 0 <= k < |r| ==> r[k] == Trim(caps[k])
  {
    r := [];
    var i := 0;
    while i < |caps|
      invariant 0 <= i <= |caps| && |r| == i
      invariant forall k :: 0 <= k < i ==> r[k] == Trim(caps[k])
    {
      r := r + [Trim(caps[i])];
      i := i + 1;
    }
  }

  /** `extract_imports`: every import clause's group, trimmed, in order. */
  method ExtractImports(content: string) returns (imports: seq<string>)
    ensures |imports| == |UseCaptures(content, 0)|
    ensures forall k :: 0 <= k < |imports| ==> imports[k] == Trim(UseCaptures(content, 0)[k])
    ensures imports == FileImports(content)
  {
    var caps := UseCaptures(content, 0);
    imports := TrimEach(caps);
  }

  /** `process_file`: the 50-line chunks of `content.lines()` and the
      symbols found in the whole text. */
  method ProcessFile(path: string, content: string) returns (chunks: seq<ChunkInfo>, symbols: seq<CodeSymbol>)
    ensures |chunks| == ChunkCount(|Lines(content)|)
    ensures forall k :: 0 <= k < |chunks| ==> IsChunk(chunks[k], path, Lines(content), k)
    ensures symbols == SymbolsOf(path, KeywordCaptures(content, "class", 0), Class)
                     + SymbolsOf(path, KeywordCaptures(content, "fn", 0), Function)
                     + SymbolsOf(path, KeywordCaptures(content, "struct", 0), Class)
  {
    chunks := ChunkLines(path, Lines(content));
    symbols := ExtractSymbols(path, content);
  }
}

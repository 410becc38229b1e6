/** Chunks of a file: one per usable symbol, or overlapping line windows when there is none. */
module Chunker {
  import opened Domain
  import opened Symbols

  const MAX_CHUNK_LINES := 160
  const WINDOW_LINES := 80
  const WINDOW_OVERLAP := 15

  datatype Chunk = Chunk(content: string, startLine: nat, endLine: nat, symbol: Option<Symbol>)

  datatype Language = Python | Braced | Other

  function Join(lines: seq<string>): string {
    if lines == [] then "" else if |lines| == 1 then lines[0] else lines[0] + "\n" + Join(lines[1..])
  }

  function Slice(lines: seq<string>, start: nat, end: nat): string
    requires 1 <= start <= end <= |lines|
  {
    Join(lines[start - 1..end])
  }

  /** Cutting a text at its newlines. */
  function Split(text: string): (parts: seq<string>)
    ensures parts != []
  {
    if text == "" then [""]
    else
      var rest := Split(text[1..]);
      if text[0] == '\n' then [""] + rest else [[text[0]] + rest[0]] + rest[1..]
  }

  lemma {:induction false} SplitFirst(line: string, rest: string)
    requires '\n' !in line
    ensures Split(line + "\n" + rest) == [line] + Split(rest) && Split(line) == [line]
  {
    var text := line + "\n" + rest;
    if line == "" {
      assert text[1..] == rest;
    } else {
      assert line == [line[0]] + line[1..] && text[1..] == line[1..] + "\n" + rest;
      SplitFirst(line[1..], rest);
    }
  }

  /** The lines of a slice can be told apart again: between neighbours stands one newline, and nothing else. */
  lemma {:induction false} SplitJoins(lines: seq<string>)
    requires lines != [] && forall i :: 0 <= i < |lines| ==> '\n' !in lines[i]
    ensures Split(Join(lines)) == lines
  {
    if |lines| == 1 {
      SplitFirst(lines[0], "");
    } else {
      SplitJoins(lines[1..]);
      SplitFirst(lines[0], Join(lines[1..]));
    }
  }

  /** A joined slice is blank exactly when each of its lines is. */
  lemma {:induction false} JoinBlank(syntax: Syntax, lines: seq<string>)
    requires syntax.space('\n')
    ensures Blank(syntax, Join(lines)) <==> forall i :: 0 <= i < |lines| ==> Blank(syntax, lines[i])
  {
    if |lines| > 1 {
      JoinBlank(syntax, lines[1..]);
      BlankConcat(syntax, lines[0] + "\n", Join(lines[1..]));
      BlankConcat(syntax, lines[0], "\n");
      assert forall i :: 0 < i < |lines| ==> lines[i] == lines[1..][i - 1];
    }
  }

  lemma BlankConcat(syntax: Syntax, a: string, b: string)
    ensures Blank(syntax, a + b) <==> Blank(syntax, a) && Blank(syntax, b)
  {
    if Blank(syntax, a + b) {
      assert forall i :: 0 <= i < |a| ==> a[i] == (a + b)[i];
      assert forall i :: 0 <= i < |b| ==> b[i] == (a + b)[|a| + i];
    }
  }

  ghost predicate ExactChunk(syntax: Syntax, lines: seq<string>, c: Chunk) {
    && 1 <= c.startLine <= c.endLine <= |lines|
    && c.content == Slice(lines, c.startLine, c.endLine) && !Blank(syntax, c.content)
  }

  // Windows

  const STRIDE := WINDOW_LINES - WINDOW_OVERLAP

  function First(k: nat): nat {
    1 + STRIDE * k
  }

  function Last(n: nat, k: nat): nat {
    if First(k) + WINDOW_LINES - 1 < n then First(k) + WINDOW_LINES - 1 else n
  }

  /** Window `k` of a file of `n` lines exists: the one before it stopped short of the end. */
  predicate IsWindow(n: nat, k: nat) {
    if k == 0 then n > 0 else First(k) + WINDOW_OVERLAP <= n
  }

  function WindowAt(syntax: Syntax, lines: seq<string>, k: nat): seq<Chunk>
    requires IsWindow(|lines|, k)
  {
    var body := Slice(lines, First(k), Last(|lines|, k));
    if Blank(syntax, body) then [] else [Chunk(body, First(k), Last(|lines|, k), None)]
  }

  /** The chunks of the windows from number `k` on. */
  function WindowsFrom(syntax: Syntax, lines: seq<string>, k: nat): seq<Chunk>
    decreases |lines| - k
  {
    if !IsWindow(|lines|, k) then [] else WindowAt(syntax, lines, k) + WindowsFrom(syntax, lines, k + 1)
  }

  method WindowChunks(syntax: Syntax, lines: seq<string>) returns (chunks: seq<Chunk>)
    ensures chunks == WindowsFrom(syntax, lines, 0)
  {
    hide Slice, Blank, WindowsFrom;
    chunks := [];
    var start := 1;
    ghost var k := 0;
    assert [] + WindowsFrom(syntax, lines, 0) == WindowsFrom(syntax, lines, 0);
    while start <= |lines|
      invariant start == First(k) && (IsWindow(|lines|, k) || start > |lines|)
      invariant WindowsFrom(syntax, lines, 0) == chunks + WindowsFrom(syntax, lines, k)
      decreases |lines| - start
    {
      var end := if start + WINDOW_LINES - 1 < |lines| then start + WINDOW_LINES - 1 else |lines|;
      var body := Slice(lines, start, end);
      ghost var before := chunks;
      if !Blank(syntax, body) {
        chunks := chunks + [Chunk(body, start, end, None)];
      }
      assert chunks == before + WindowAt(syntax, lines, k);
      NextWindow(syntax, lines, before, k);
      if end == |lines| {
        NoWindow(syntax, lines, k + 1);
        return;
      }
      start := end - WINDOW_OVERLAP + 1;
      k := k + 1;
    }
    NoWindow(syntax, lines, k);
  }

  lemma NextWindow(syntax: Syntax, lines: seq<string>, done: seq<Chunk>, k: nat)
    requires IsWindow(|lines|, k)
    ensures done + WindowsFrom(syntax, lines, k) ==
        (done + WindowAt(syntax, lines, k)) + WindowsFrom(syntax, lines, k + 1)
  {
  }

  lemma NoWindow(syntax: Syntax, lines: seq<string>, k: nat)
    requires !IsWindow(|lines|, k)
    ensures forall done: seq<Chunk> :: done + WindowsFrom(syntax, lines, k) == done
  {
  }

  ghost predicate FromWindow(syntax: Syntax, lines: seq<string>, k: nat, c: Chunk) {
    && IsWindow(|lines|, k) && c.startLine == First(k) && c.endLine == Last(|lines|, k) && ExactChunk(syntax, lines, c)
    && c.symbol.None?
  }

  /** Chunk `i` comes from some window, and from a later one than chunk `i - 1`. */
  lemma {:induction false} WindowOf(syntax: Syntax, lines: seq<string>, k: nat, i: nat) returns (m: nat)
    requires i < |WindowsFrom(syntax, lines, k)|
    ensures m >= k + i && FromWindow(syntax, lines, m, WindowsFrom(syntax, lines, k)[i])
    decreases |lines| - k
  {
    hide Slice, Blank;
    var here := WindowAt(syntax, lines, k);
    if i < |here| { m := k; } else { m := WindowOf(syntax, lines, k + 1, i - |here|); }
  }

  lemma WindowStart(syntax: Syntax, lines: seq<string>, k: nat, i: nat)
    requires i < |WindowsFrom(syntax, lines, k)|
    ensures WindowsFrom(syntax, lines, k)[i].startLine >= First(k)
  {
    hide Slice, Blank, ExactChunk, Last, WindowsFrom;
    var m := WindowOf(syntax, lines, k, i);
  }

  lemma {:induction false} WindowsOrdered(syntax: Syntax, lines: seq<string>, k: nat, i: nat, j: nat)
    requires i < j < |WindowsFrom(syntax, lines, k)|
    ensures WindowsFrom(syntax, lines, k)[i].startLine < WindowsFrom(syntax, lines, k)[j].startLine
    decreases |lines| - k
  {
    hide Slice, Blank, ExactChunk, Last;
    var here := WindowAt(syntax, lines, k);
    if i < |here| {
      WindowStart(syntax, lines, k + 1, j - |here|);
    } else {
      WindowsOrdered(syntax, lines, k + 1, i - |here|, j - |here|);
    }
  }

  /** Window k + 1 exists exactly when window k stops short of the end, and then the two share exactly 15 lines. */
  lemma WindowsShare(n: nat, k: nat)
    requires IsWindow(n, k)
    ensures IsWindow(n, k + 1) <==> Last(n, k) < n
    ensures IsWindow(n, k + 1) ==> Last(n, k) - First(k + 1) + 1 == 15 && First(k + 1) - First(k) == 65
    ensures IsWindow(n, k + 1) ==> Last(n, k) - First(k) + 1 == 80
  {
  }

  /** A window with a non-blank line is emitted. */
  lemma {:induction false} WindowEmitted(syntax: Syntax, lines: seq<string>, k: nat, m: nat) returns (i: nat)
    requires k <= m && IsWindow(|lines|, m) && !Blank(syntax, Slice(lines, First(m), Last(|lines|, m)))
    ensures i < |WindowsFrom(syntax, lines, k)| && WindowsFrom(syntax, lines, k)[i].startLine == First(m)
    ensures WindowsFrom(syntax, lines, k)[i].endLine == Last(|lines|, m)
    decreases |lines| - k
  {
    hide Slice, Blank;
    if m == k {
      i := 0;
    } else {
      i := WindowEmitted(syntax, lines, k + 1, m);
      i := i + |WindowAt(syntax, lines, k)|;
    }
  }

  predicate Covers(c: Chunk, x: nat) {
    c.startLine <= x <= c.endLine
  }

  lemma {:induction false} LineHasWindow(n: nat, x: nat, k: nat) returns (m: nat)
    requires IsWindow(n, k) && First(k) <= x <= n
    ensures m >= k && IsWindow(n, m) && First(m) <= x <= Last(n, m)
    decreases n - k
  {
    if x <= Last(n, k) { m := k; } else { m := LineHasWindow(n, x, k + 1); }
  }

  /** Every non-blank line lies in a chunk. */
  lemma NonBlankLineCovered(syntax: Syntax, lines: seq<string>, x: nat) returns (i: nat)
    requires syntax.space('\n') && 1 <= x <= |lines| && !Blank(syntax, lines[x - 1])
    ensures i < |WindowsFrom(syntax, lines, 0)| && Covers(WindowsFrom(syntax, lines, 0)[i], x)
  {
    var m := LineHasWindow(|lines|, x, 0);
    var slice := lines[First(m) - 1..Last(|lines|, m)];
    JoinBlank(syntax, slice);
    assert slice[x - First(m)] == lines[x - 1];
    i := WindowEmitted(syntax, lines, 0, m);
  }

  /** No chunk exceeds 80 lines; two chunks that share a line are neighbours (so no line lies in three)
      and come from consecutive windows, which share exactly 15 lines. */
  lemma WindowOverlaps(syntax: Syntax, lines: seq<string>, i: nat, j: nat, x: nat)
    requires i < j < |WindowsFrom(syntax, lines, 0)|
    ensures var a, b := WindowsFrom(syntax, lines, 0)[i], WindowsFrom(syntax, lines, 0)[j];
      && a.endLine - a.startLine + 1 <= 80 && b.endLine - b.startLine + 1 <= 80
      && (Covers(a, x) && Covers(b, x) ==>
            j == i + 1 && a.endLine - b.startLine + 1 == 15 && a.endLine <= b.endLine)
  {
    hide WindowsFrom, ExactChunk, Last;
    var a, b := WindowsFrom(syntax, lines, 0)[i], WindowsFrom(syntax, lines, 0)[j];
    var p := WindowOf(syntax, lines, 0, i);
    var q := WindowOf(syntax, lines, 0, j);
    WindowsOrdered(syntax, lines, 0, i, j);
    WindowLengths(|lines|, p);
    WindowLengths(|lines|, q);
    if Covers(a, x) && Covers(b, x) {
      WindowsMeet(|lines|, p, q, x);
      if j > i + 1 {
        var r := WindowOf(syntax, lines, 0, i + 1);
        WindowsOrdered(syntax, lines, 0, i, i + 1);
        WindowsOrdered(syntax, lines, 0, i + 1, j);
      }
    }
  }

  lemma WindowLengths(n: nat, k: nat)
    ensures Last(n, k) - First(k) + 1 <= WINDOW_LINES
  {
  }

  /** Two windows that hold the same line are consecutive. */
  lemma WindowsMeet(n: nat, p: nat, q: nat, x: nat)
    requires IsWindow(n, p) && IsWindow(n, q) && First(p) < First(q) <= x <= Last(n, p)
    ensures q == p + 1 && Last(n, p) - First(q) + 1 == WINDOW_OVERLAP && Last(n, p) <= Last(n, q)
  {
  }

  // Symbol chunks

  predicate Usable(s: Symbol) {
    s.endLine >= s.startLine && s.endLine - s.startLine <= MAX_CHUNK_LINES
  }

  predicate AllInFile(symbols: seq<Symbol>, lines: seq<string>) {
    forall i :: 0 <= i < |symbols| ==> InFile(symbols[i], lines)
  }

  function SymbolChunk(syntax: Syntax, lines: seq<string>, s: Symbol): seq<Chunk>
    requires InFile(s, lines)
  {
    var body := Slice(lines, s.startLine, s.endLine);
    if Usable(s) && !Blank(syntax, body) then [Chunk(body, s.startLine, s.endLine, Some(s))] else []
  }

  function SymbolChunks(syntax: Syntax, lines: seq<string>, symbols: seq<Symbol>): seq<Chunk>
    requires AllInFile(symbols, lines)
  {
    if symbols == [] then []
    else SymbolChunks(syntax, lines, symbols[..|symbols| - 1]) + SymbolChunk(syntax, lines, symbols[|symbols| - 1])
  }

  /** The chunks of a file that has symbols; the window fallback only when none of them is usable. */
  function FileChunks(syntax: Syntax, lines: seq<string>, symbols: seq<Symbol>): seq<Chunk>
    requires AllInFile(symbols, lines)
  {
    if exists i :: 0 <= i < |symbols| && Usable(symbols[i]) then SymbolChunks(syntax, lines, symbols)
    else WindowsFrom(syntax, lines, 0)
  }

  /** The symbols that the parser for this language finds. */
  ghost predicate Parsed(syntax: Syntax, language: Language, lines: seq<string>, symbols: seq<Symbol>) {
    && AllInFile(symbols, lines)
    && (language == Python ==> PythonSymbols(syntax, lines, |lines|, symbols))
    && (language == Braced ==> BracedSymbols(syntax, lines, |lines|, symbols))
    && (language == Other ==> symbols == [])
  }

  method ChunkFile(syntax: Syntax, language: Language, lines: seq<string>) returns (chunks: seq<Chunk>)
    ensures exists symbols :: Parsed(syntax, language, lines, symbols) && chunks == FileChunks(syntax, lines, symbols)
  {
    hide Slice, Blank;
    if lines == [] {
      assert Parsed(syntax, language, lines, []) && FileChunks(syntax, lines, []) == [];
      return [];
    }
    hide WindowsFrom, PythonSymbols, BracedSymbols, SymbolChunk;
    var parsed := [];
    if language == Python {
      parsed := ParsePython(syntax, lines);
      PythonSymbolsInFile(syntax, lines, parsed);
    } else if language == Braced {
      parsed := ParseBraced(syntax, lines);
    }
    assert Parsed(syntax, language, lines, parsed);
    hide Parsed;
    hide Usable;
    if !exists i :: 0 <= i < |parsed| && Usable(parsed[i]) {
      chunks := WindowChunks(syntax, lines);
      return;
    }
    chunks := [];
    for k := 0 to |parsed|
      invariant chunks == SymbolChunks(syntax, lines, parsed[..k])
    {
      assert parsed[..k + 1][..k] == parsed[..k];
      chunks := chunks + SymbolChunk(syntax, lines, parsed[k]);
    }
    assert parsed[..|parsed|] == parsed;
  }

  /** A symbol of at most 161 lines that are not all blank has a chunk. */
  lemma SymbolHasChunk(syntax: Syntax, lines: seq<string>, symbols: seq<Symbol>, p: nat)
      returns (i: nat)
    requires AllInFile(symbols, lines) && p < |symbols| && symbols[p].endLine - symbols[p].startLine <= 160
    requires !Blank(syntax, Slice(lines, symbols[p].startLine, symbols[p].endLine))
    ensures i < |FileChunks(syntax, lines, symbols)|
    ensures var c := FileChunks(syntax, lines, symbols)[i];
      c.symbol == Some(symbols[p]) && c.startLine == symbols[p].startLine && c.endLine == symbols[p].endLine
  {
    hide Slice, Blank;
    assert Usable(symbols[p]);
    i := ChunkAt(syntax, lines, symbols, p);
  }

  lemma {:induction false} ChunkAt(syntax: Syntax, lines: seq<string>, symbols: seq<Symbol>, p: nat) returns (i: nat)
    requires AllInFile(symbols, lines) && p < |symbols| && Usable(symbols[p])
    requires !Blank(syntax, Slice(lines, symbols[p].startLine, symbols[p].endLine))
    ensures i < |SymbolChunks(syntax, lines, symbols)|
    ensures var c := SymbolChunks(syntax, lines, symbols)[i];
      c.symbol == Some(symbols[p]) && c.startLine == symbols[p].startLine && c.endLine == symbols[p].endLine
  {
    hide Slice, Blank, Usable;
    var n := |symbols| - 1;
    if p < n {
      i := ChunkAt(syntax, lines, symbols[..n], p);
    } else {
      i := |SymbolChunks(syntax, lines, symbols[..n])|;
    }
  }

  /** Chunks are windows exactly when no symbol has at most 161 lines; otherwise each belongs to such a symbol. */
  lemma WindowsIff(syntax: Syntax, lines: seq<string>, symbols: seq<Symbol>, i: nat)
    requires AllInFile(symbols, lines) && i < |FileChunks(syntax, lines, symbols)|
    ensures FileChunks(syntax, lines, symbols)[i].symbol.None? <==>
      forall p :: 0 <= p < |symbols| ==> symbols[p].endLine - symbols[p].startLine > 160
  {
    hide Slice, Blank, SymbolChunks, WindowsFrom;
    if exists k :: 0 <= k < |symbols| && Usable(symbols[k]) {
      var p := ChunkOfSymbol(syntax, lines, symbols, i);
      assert symbols[p].endLine - symbols[p].startLine <= 160;
    } else {
      var m := WindowOf(syntax, lines, 0, i);
      forall p | 0 <= p < |symbols| ensures symbols[p].endLine - symbols[p].startLine > 160 {
        assert !Usable(symbols[p]);
      }
    }
  }

  lemma {:induction false} ChunkOfSymbol(syntax: Syntax, lines: seq<string>, symbols: seq<Symbol>, i: nat)
      returns (p: nat)
    requires AllInFile(symbols, lines) && i < |SymbolChunks(syntax, lines, symbols)|
    ensures i <= p < |symbols| && ExactChunk(syntax, lines, SymbolChunks(syntax, lines, symbols)[i])
    ensures SymbolChunks(syntax, lines, symbols)[i].symbol == Some(symbols[p]) && Usable(symbols[p])
    ensures SymbolChunks(syntax, lines, symbols)[i].startLine == symbols[p].startLine
    ensures SymbolChunks(syntax, lines, symbols)[i].endLine == symbols[p].endLine
    ensures |SymbolChunks(syntax, lines, symbols)| <= |symbols|
  {
    hide Slice, Blank;
    var n := |symbols| - 1;
    var rest := SymbolChunks(syntax, lines, symbols[..n]);
    if i < |rest| {
      p := ChunkOfSymbol(syntax, lines, symbols[..n], i);
    } else {
      p := n;
      if |rest| > 0 { var q := ChunkOfSymbol(syntax, lines, symbols[..n], 0); }
    }
  }

  /** Every chunk of every file holds exactly its lines of the file, in range, and never more than 161 of them. */
  lemma ChunksAreSlices(syntax: Syntax, lines: seq<string>, symbols: seq<Symbol>, i: nat)
    requires AllInFile(symbols, lines) && i < |FileChunks(syntax, lines, symbols)|
    ensures var c := FileChunks(syntax, lines, symbols)[i];
      && 1 <= c.startLine <= c.endLine <= |lines| && c.endLine - c.startLine <= 160 && !Blank(syntax, c.content)
      && ((forall k :: 0 <= k < |lines| ==> '\n' !in lines[k]) ==>
            Split(c.content) == lines[c.startLine - 1..c.endLine])
  {
    var c := FileChunks(syntax, lines, symbols)[i];
    ChunkIsExact(syntax, lines, symbols, i);
    if forall k :: 0 <= k < |lines| ==> '\n' !in lines[k] { SplitJoins(lines[c.startLine - 1..c.endLine]); }
  }

  lemma ChunkIsExact(syntax: Syntax, lines: seq<string>, symbols: seq<Symbol>, i: nat)
    requires AllInFile(symbols, lines) && i < |FileChunks(syntax, lines, symbols)|
    ensures var c := FileChunks(syntax, lines, symbols)[i];
      ExactChunk(syntax, lines, c) && c.endLine - c.startLine <= 160
  {
    hide Slice, Blank, SymbolChunks, WindowsFrom;
    if exists k :: 0 <= k < |symbols| && Usable(symbols[k]) {
      var p := ChunkOfSymbol(syntax, lines, symbols, i);
    } else {
      var m := WindowOf(syntax, lines, 0, i);
    }
  }

  /** Chunks of a Python file that come from symbols are disjoint or nested, like the symbols. */
  lemma PythonChunksLaminar(syntax: Syntax, lines: seq<string>, symbols: seq<Symbol>, i: nat, j: nat)
    requires DefsNotBlank(syntax) && PythonSymbols(syntax, lines, |lines|, symbols) && AllInFile(symbols, lines)
    requires i < j < |SymbolChunks(syntax, lines, symbols)|
    ensures var a, b := SymbolChunks(syntax, lines, symbols)[i], SymbolChunks(syntax, lines, symbols)[j];
      a.endLine < b.startLine || (a.startLine < b.startLine && b.endLine <= a.endLine)
  {
    hide Slice, Blank, PythonSymbols, DefsNotBlank, ExactChunk;
    var p, q := ChunksInOrder(syntax, lines, symbols, i, j);
    PythonSpansLaminar(syntax, lines, symbols, p, q);
  }

  /** So are chunks that come from braced symbols whose definitions open first. */
  lemma BracedChunksLaminar(syntax: Syntax, lines: seq<string>, symbols: seq<Symbol>, i: nat, j: nat)
    requires BracedSymbols(syntax, lines, |lines|, symbols) && AllInFile(symbols, lines)
    requires forall k :: 0 <= k < |symbols| ==> OpensFirst(lines, symbols[k].startLine - 1)
    requires i < j < |SymbolChunks(syntax, lines, symbols)|
    ensures var a, b := SymbolChunks(syntax, lines, symbols)[i], SymbolChunks(syntax, lines, symbols)[j];
      a.endLine < b.startLine || (a.startLine < b.startLine && b.endLine <= a.endLine)
  {
    hide Slice, Blank, BracedSymbols, OpensFirst, ExactChunk;
    var p, q := ChunksInOrder(syntax, lines, symbols, i, j);
    BracedSpansLaminar(syntax, lines, symbols, p, q);
  }

  lemma {:induction false} ChunksInOrder(syntax: Syntax, lines: seq<string>, symbols: seq<Symbol>, i: nat, j: nat)
      returns (p: nat, q: nat)
    requires AllInFile(symbols, lines) && i < j < |SymbolChunks(syntax, lines, symbols)|
    ensures p < q < |symbols|
    ensures var a, b := SymbolChunks(syntax, lines, symbols)[i], SymbolChunks(syntax, lines, symbols)[j];
      && a.startLine == symbols[p].startLine && a.endLine == symbols[p].endLine
      && b.startLine == symbols[q].startLine && b.endLine == symbols[q].endLine
  {
    hide Slice, Blank, ExactChunk;
    var n := |symbols| - 1;
    var rest := SymbolChunks(syntax, lines, symbols[..n]);
    if j < |rest| {
      p, q := ChunksInOrder(syntax, lines, symbols[..n], i, j);
    } else {
      p := ChunkOfSymbol(syntax, lines, symbols[..n], i);
      q := n;
    }
  }
}

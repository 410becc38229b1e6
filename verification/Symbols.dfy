/** Line spans of symbols: brace matching, and Python indentation. Regular expressions stay abstract. */
module Symbols {
  import opened Domain

  // Braces

  function CharDepth(c: char): int {
    if c == '{' then 1 else if c == '}' then -1 else 0
  }

  function LineDepth(line: string): int {
    if line == "" then 0 else LineDepth(line[..|line| - 1]) + CharDepth(line[|line| - 1])
  }

  function LinesDepth(lines: seq<string>): int {
    if lines == [] then 0 else LinesDepth(lines[..|lines| - 1]) + LineDepth(lines[|lines| - 1])
  }

  /** Running depth after the first `c` characters of line `l`, counted from line `start`. */
  function DepthAt(lines: seq<string>, start: nat, l: nat, c: nat): int
    requires start <= l < |lines| && c <= |lines[l]|
  {
    LinesDepth(lines[start..l]) + LineDepth(lines[l][..c])
  }

  predicate OpenedAt(lines: seq<string>, start: nat, l: nat, c: nat)
    requires start <= l < |lines| && c <= |lines[l]|
  {
    '{' in lines[l][..c] || exists k :: start <= k < l && '{' in lines[k]
  }

  /** A brace has been opened and the depth is back to zero. */
  predicate Closed(lines: seq<string>, start: nat, l: nat, c: nat)
    requires start <= l < |lines| && c <= |lines[l]|
  {
    OpenedAt(lines, start, l, c) && DepthAt(lines, start, l, c) == 0
  }

  /** The scan looks right after a closing brace and at the end of each line. */
  predicate Stops(lines: seq<string>, start: nat, l: nat, c: nat)
    requires start <= l < |lines| && c <= |lines[l]|
  {
    Closed(lines, start, l, c) && (c == |lines[l]| || (c > 0 && lines[l][c - 1] == '}'))
  }

  ghost predicate StopsOn(lines: seq<string>, start: nat, l: nat)
    requires start <= l < |lines|
  {
    exists c: nat :: c <= |lines[l]| && Stops(lines, start, l, c)
  }

  lemma NextLine(lines: seq<string>, start: nat, l: nat)
    requires start <= l < |lines| - 1
    ensures DepthAt(lines, start, l + 1, 0) == DepthAt(lines, start, l, |lines[l]|)
    ensures OpenedAt(lines, start, l + 1, 0) <==> OpenedAt(lines, start, l, |lines[l]|)
  {
    assert lines[start..l + 1][..l - start] == lines[start..l];
    assert lines[start..l + 1][l - start] == lines[l];
    assert lines[l][..|lines[l]|] == lines[l];
  }

  lemma NextChar(lines: seq<string>, start: nat, l: nat, c: nat)
    requires start <= l < |lines| && c < |lines[l]|
    ensures DepthAt(lines, start, l, c + 1) == DepthAt(lines, start, l, c) + CharDepth(lines[l][c])
    ensures OpenedAt(lines, start, l, c + 1) <==> OpenedAt(lines, start, l, c) || lines[l][c] == '{'
  {
    assert lines[l][..c + 1][..c] == lines[l][..c];
    assert lines[l][..c + 1] == lines[l][..c] + [lines[l][c]];
  }

  /** `end` (1-based) is the first line on which the scan from `start` stops, or the last line. */
  ghost predicate BlockEnds(lines: seq<string>, start: nat, end: nat) {
    && start < end <= |lines|
    && (forall l :: start <= l < end - 1 ==> !StopsOn(lines, start, l))
    && (StopsOn(lines, start, end - 1) || end == |lines|)
  }

  /** End line (1-based) of the block that starts at or after line `start` (0-based). */
  method BlockEnd(lines: seq<string>, start: nat) returns (end: nat)
    ensures if start < |lines| then BlockEnds(lines, start, end) else end == |lines|
  {
    var depth, anyOpen := 0, false;
    var l := start;
    while l < |lines|
      invariant start <= l
      invariant l < |lines| ==> depth == DepthAt(lines, start, l, 0) && anyOpen == OpenedAt(lines, start, l, 0)
      invariant forall k :: start <= k < l && k < |lines| ==> !StopsOn(lines, start, k)
      invariant l > start ==> l <= |lines|
    {
      var line := lines[l];
      for c := 0 to |line|
        invariant depth == DepthAt(lines, start, l, c) && anyOpen == OpenedAt(lines, start, l, c)
        invariant forall k: nat :: k <= c && k < |line| ==> !Stops(lines, start, l, k)
      {
        NextChar(lines, start, l, c);
        if line[c] == '{' {
          depth := depth + 1;
          anyOpen := true;
        } else if line[c] == '}' {
          depth := depth - 1;
          if anyOpen && depth == 0 {
            assert Stops(lines, start, l, c + 1);
            return l + 1;
          }
        }
      }
      if anyOpen && depth == 0 {
        assert Stops(lines, start, l, |line|);
        return l + 1;
      }
      if l + 1 < |lines| { NextLine(lines, start, l); }
      l := l + 1;
    }
    end := |lines|;
  }

  /** No closing brace stands before its opening one: until the first `{` the depth does not go below zero. What
      happens after the block, such as the `}` of an enclosing class, does not matter. */
  ghost predicate OpensFirst(lines: seq<string>, start: nat) {
    forall l, c :: start <= l < |lines| && 0 <= c <= |lines[l]| && !OpenedAt(lines, start, l, c) ==>
      DepthAt(lines, start, l, c) >= 0
  }

  ghost predicate ClosedOn(lines: seq<string>, start: nat, l: nat)
    requires start <= l < |lines|
  {
    exists c: nat :: c <= |lines[l]| && Closed(lines, start, l, c)
  }

  /** A depth below zero after the first open brace has come down through zero. */
  lemma {:induction false} CrossedZero(lines: seq<string>, start: nat, l: nat, c: nat) returns (k: nat, d: nat)
    requires OpensFirst(lines, start) && start <= l < |lines| && c <= |lines[l]|
    requires OpenedAt(lines, start, l, c) && DepthAt(lines, start, l, c) < 0
    ensures start <= k <= l && d <= |lines[k]| && (k < l || d < c) && Closed(lines, start, k, d)
    decreases l, c
  {
    if c == 0 {
      NextLine(lines, start, l - 1);
      k, d := CrossedZero(lines, start, l - 1, |lines[l - 1]|);
    } else {
      NextChar(lines, start, l, c - 1);
      if DepthAt(lines, start, l, c - 1) >= 0 {
        k, d := l, c - 1;
      } else {
        assert OpenedAt(lines, start, l, c - 1);
        k, d := CrossedZero(lines, start, l, c - 1);
      }
    }
  }

  /** The scan misses nothing when the block opens first: a first return to zero is at a `}` or a line end. */
  lemma {:induction false} FirstCloseIsStop(lines: seq<string>, start: nat, l: nat, c: nat)
    requires OpensFirst(lines, start) && start <= l < |lines| && c <= |lines[l]| && Closed(lines, start, l, c)
    requires forall k, d: nat :: start <= k < l && d <= |lines[k]| ==> !Closed(lines, start, k, d)
    ensures StopsOn(lines, start, l)
    decreases c
  {
    if c == 0 {
      if l > start {
        assert !Closed(lines, start, l - 1, |lines[l - 1]|);
        NextLine(lines, start, l - 1);
      }
    } else {
      NextChar(lines, start, l, c - 1);
      if lines[l][c - 1] == '}' {
        assert Stops(lines, start, l, c);
      } else if lines[l][c - 1] == '{' {
        assert OpenedAt(lines, start, l, c - 1);
        var k, d := CrossedZero(lines, start, l, c - 1);
        assert k == l;
        FirstCloseIsStop(lines, start, l, d);
      } else {
        FirstCloseIsStop(lines, start, l, c - 1);
      }
    }
  }

  /** So `BlockEnd` returns the line on which the depth first returns to zero after the first open brace,
      or the last line when it never does. */
  lemma StopIsFirstClose(lines: seq<string>, start: nat, end: nat)
    requires OpensFirst(lines, start) && BlockEnds(lines, start, end)
    ensures forall l :: start <= l < end - 1 ==> !ClosedOn(lines, start, l)
    ensures ClosedOn(lines, start, end - 1)
      || (end == |lines| && forall l :: start <= l < |lines| ==> !ClosedOn(lines, start, l))
  {
    NotClosedBefore(lines, start, end - 1);
    if StopsOn(lines, start, end - 1) {
      var c: nat :| c <= |lines[end - 1]| && Stops(lines, start, end - 1, c);
      assert Closed(lines, start, end - 1, c);
    } else if ClosedOn(lines, start, end - 1) {
    }
  }

  lemma {:induction false} NotClosedBefore(lines: seq<string>, start: nat, end: nat)
    requires OpensFirst(lines, start) && start <= end <= |lines|
    requires forall l :: start <= l < end ==> !StopsOn(lines, start, l)
    ensures forall l :: start <= l < end ==> !ClosedOn(lines, start, l)
  {
    if start < end {
      NotClosedBefore(lines, start, end - 1);
      if ClosedOn(lines, start, end - 1) {
        var c: nat :| c <= |lines[end - 1]| && Closed(lines, start, end - 1, c);
        assert forall k, d: nat :: start <= k < end - 1 && d <= |lines[k]| && Closed(lines, start, k, d) ==>
          ClosedOn(lines, start, k);
        FirstCloseIsStop(lines, start, end - 1, c);
      }
    }
  }

  /** A nested definition meets the condition although the enclosing brace takes the depth below zero later on. */
  lemma NestedOpensFirst()
    ensures var lines := ["class A {", "M() { }", "}"]; OpensFirst(lines, 1) && DepthAt(lines, 1, 2, 1) == -1
  {
    var lines, inner := ["class A {", "M() { }", "}"], "M() { }";
    InnerDepths();
    OneMoreChar("}", 0);
    assert lines[1..1] == [] && lines[1] == inner && inner[4] == '{' && lines[2][..1] == "}" == "}"[..1];
    OneLineDepth(lines, 1);
    assert forall c :: 5 <= c <= |inner| ==> inner[..c][4] == '{';
    assert forall c :: 0 <= c <= 1 ==> OpenedAt(lines, 1, 2, c);
  }

  lemma OneLineDepth(lines: seq<string>, l: nat)
    requires l < |lines|
    ensures LinesDepth(lines[l..l + 1]) == LineDepth(lines[l])
  {
    assert lines[l..l + 1] == [lines[l]];
    assert lines[l..l + 1][..0] == [];
  }

  lemma OneMoreChar(line: string, c: nat)
    requires c < |line|
    ensures LineDepth(line[..c + 1]) == LineDepth(line[..c]) + CharDepth(line[c])
  {
    assert line[..c + 1][..c] == line[..c];
  }

  lemma InnerDepths()
    ensures var m := "M() { }"; LineDepth(m) == 0 && forall c :: 0 <= c <= 4 ==> LineDepth(m[..c]) == 0
  {
    var m := "M() { }";
    OneMoreChar(m, 0);
    OneMoreChar(m, 1);
    OneMoreChar(m, 2);
    OneMoreChar(m, 3);
    OneMoreChar(m, 4);
    OneMoreChar(m, 5);
    OneMoreChar(m, 6);
    assert LineDepth(m[..0]) == 0;
    assert m[0] == 'M' && m[1] == '(' && m[2] == ')' && m[3] == ' ' && m[4] == '{' && m[5] == ' ' && m[6] == '}';
    assert m[..7] == m;
    hide LineDepth;
  }

  /** Without it a first return to zero can be missed: here it is at the first `{`, in the middle of the line. */
  lemma LateOpenIsMissed()
    ensures ClosedOn(["}{{", "}"], 0, 0) && !StopsOn(["}{{", "}"], 0, 0)
  {
    var lines := ["}{{", "}"];
    var line := lines[0];
    assert lines[0..0] == [] && LineDepth(line[..0]) == 0;
    assert line[0] == '}' && line[1] == '{' && line[2] == '{';
    OneMoreChar(line, 0);
    OneMoreChar(line, 1);
    OneMoreChar(line, 2);
    assert line[..2][1] == '{';
    assert Closed(lines, 0, 0, 2);
    hide LineDepth;
  }

  // Spans of blocks

  lemma {:induction false} LinesDepthSplit(a: seq<string>, b: seq<string>)
    ensures LinesDepth(a + b) == LinesDepth(a) + LinesDepth(b)
  {
    if b == [] {
      assert a + b == a;
    } else {
      var n := |b| - 1;
      LinesDepthSplit(a, b[..n]);
      assert (a + b)[..|a| + n] == a + b[..n];
    }
  }

  /** Counting from a later line only drops what came before it. */
  lemma CountedFrom(lines: seq<string>, i: nat, j: nat, l: nat, c: nat)
    requires i <= j <= l < |lines| && c <= |lines[l]|
    ensures DepthAt(lines, i, l, c) == DepthAt(lines, i, j, 0) + DepthAt(lines, j, l, c)
    ensures OpenedAt(lines, i, l, c) <==> OpenedAt(lines, i, j, 0) || OpenedAt(lines, j, l, c)
  {
    LinesDepthSplit(lines[i..j], lines[j..l]);
    assert lines[i..l] == lines[i..j] + lines[j..l];
    assert lines[j][..0] == "";
  }

  /** At the start of a line inside a block the depth is at least zero, and above it once the block is open. */
  lemma DepthInside(lines: seq<string>, i: nat, end: nat, j: nat)
    requires OpensFirst(lines, i) && BlockEnds(lines, i, end) && i < j < end
    ensures DepthAt(lines, i, j, 0) >= 0
    ensures OpenedAt(lines, i, j, 0) ==> DepthAt(lines, i, j, 0) > 0
  {
    StopIsFirstClose(lines, i, end);
    if OpenedAt(lines, i, j, 0) {
      NextLine(lines, i, j - 1);
      assert !ClosedOn(lines, i, j - 1);
      assert !Closed(lines, i, j - 1, |lines[j - 1]|);
      if DepthAt(lines, i, j, 0) < 0 {
        var k, d := CrossedZero(lines, i, j, 0);
        assert ClosedOn(lines, i, k);
      }
    }
  }

  /** A block that is closed on some line ends there at the latest. */
  lemma EndsByClose(lines: seq<string>, start: nat, end: nat, l: nat, c: nat)
    requires OpensFirst(lines, start) && BlockEnds(lines, start, end)
    requires start <= l < |lines| && c <= |lines[l]| && Closed(lines, start, l, c)
    ensures end <= l + 1
  {
    StopIsFirstClose(lines, start, end);
    assert ClosedOn(lines, start, l);
  }

  /** Two blocks whose definitions open first are disjoint or nested. */
  lemma BlocksLaminar(lines: seq<string>, i: nat, ei: nat, j: nat, ej: nat)
    requires OpensFirst(lines, i) && OpensFirst(lines, j) && i < j
    requires BlockEnds(lines, i, ei) && BlockEnds(lines, j, ej)
    ensures ei <= j || ej <= ei
  {
    if j < ei && StopsOn(lines, i, ei - 1) {
      var l := ei - 1;
      var c: nat :| c <= |lines[l]| && Stops(lines, i, l, c);
      DepthInside(lines, i, ei, j);
      CountedFrom(lines, i, j, l, c);
      if DepthAt(lines, i, j, 0) == 0 {
        EndsByClose(lines, j, ej, l, c);
      } else {
        assert OpenedAt(lines, j, l, c);
        var k, d := CrossedZero(lines, j, l, c);
        EndsByClose(lines, j, ej, k, d);
      }
    }
  }

  datatype Symbol = Symbol(name: string, kind: string, startLine: nat, endLine: nat)

  predicate InFile(s: Symbol, lines: seq<string>) {
    1 <= s.startLine <= s.endLine <= |lines|
  }

  /** One symbol for each of the first `n` lines that defines one, in order. */
  ghost predicate OnePerLine(defines: nat -> bool, fits: (nat, Symbol) -> bool, n: nat, symbols: seq<Symbol>) {
    if n == 0 then symbols == []
    else if !defines(n - 1) then OnePerLine(defines, fits, n - 1, symbols)
    else
      && symbols != [] && fits(n - 1, symbols[|symbols| - 1])
      && OnePerLine(defines, fits, n - 1, symbols[..|symbols| - 1])
  }

  lemma {:induction false} SymbolOnLine(defines: nat -> bool, fits: (nat, Symbol) -> bool, n: nat,
                                        symbols: seq<Symbol>, i: nat)
    requires OnePerLine(defines, fits, n, symbols) && i < |symbols|
    requires forall k: nat, s :: fits(k, s) ==> s.startLine == k + 1
    ensures 1 <= symbols[i].startLine <= n && fits(symbols[i].startLine - 1, symbols[i])
    ensures forall j :: 0 <= j < i ==> symbols[j].startLine < symbols[i].startLine
  {
    if !defines(n - 1) {
      SymbolOnLine(defines, fits, n - 1, symbols, i);
    } else {
      var rest := symbols[..|symbols| - 1];
      if i < |rest| {
        SymbolOnLine(defines, fits, n - 1, rest, i);
        assert forall j :: 0 <= j < i ==> rest[j].startLine < rest[i].startLine;
      } else {
        forall j | 0 <= j < i ensures symbols[j].startLine < symbols[i].startLine {
          SymbolOnLine(defines, fits, n - 1, rest, j);
        }
      }
    }
  }

  lemma SymbolAppended(defines: nat -> bool, fits: (nat, Symbol) -> bool, n: nat, symbols: seq<Symbol>, s: Symbol)
    requires OnePerLine(defines, fits, n, symbols) && defines(n) && fits(n, s)
    ensures OnePerLine(defines, fits, n + 1, symbols + [s])
  {
    assert (symbols + [s])[..|symbols|] == symbols;
  }

  // Python

  datatype Header = Header(name: string, isClass: bool)

  /** Whitespace and the definition patterns; `bracedDef` yields the name and kind found on a line. */
  datatype Syntax = Syntax(space: char -> bool, pythonDef: string -> Option<Header>,
                           bracedDef: string -> Option<(string, string)>)

  /** `len(line) - len(line.lstrip())` */
  function Indent(syntax: Syntax, line: string): nat {
    if line == "" || !syntax.space(line[0]) then 0 else 1 + Indent(syntax, line[1..])
  }

  /** It is the length of the leading whitespace. */
  lemma {:induction false} IndentIsLeading(syntax: Syntax, line: string)
    ensures var n := Indent(syntax, line);
      n <= |line| && (forall k :: 0 <= k < n ==> syntax.space(line[k])) && (n < |line| ==> !syntax.space(line[n]))
  {
    if line != "" && syntax.space(line[0]) {
      IndentIsLeading(syntax, line[1..]);
      assert forall k :: 1 <= k < |line| ==> line[k] == line[1..][k - 1];
    }
  }

  predicate Blank(syntax: Syntax, line: string) {
    forall i :: 0 <= i < |line| ==> syntax.space(line[i])
  }

  /** A definition line contains the word `class` or `def`, so it is not blank. */
  ghost predicate DefsNotBlank(syntax: Syntax) {
    forall line: string :: syntax.pythonDef(line).Some? ==> !Blank(syntax, line)
  }

  /** A later line that ends the body opened at indentation `indent`. */
  predicate Dedents(syntax: Syntax, line: string, indent: nat) {
    !Blank(syntax, line) && Indent(syntax, line) <= indent
  }

  /** Line after the body of the definition on line `index`, all 0-based. */
  ghost predicate BodyEnds(syntax: Syntax, lines: seq<string>, index: nat, end: nat) {
    && index < end <= |lines|
    && (forall k :: index < k < end ==> !Dedents(syntax, lines[k], Indent(syntax, lines[index])))
    && (end < |lines| ==> Dedents(syntax, lines[end], Indent(syntax, lines[index])))
  }

  /** `n` characters of leading whitespace, then something else. */
  predicate Leads(syntax: Syntax, line: string, n: nat) {
    n < |line| && !syntax.space(line[n]) && forall k :: 0 <= k < n ==> syntax.space(line[k])
  }

  lemma LeadsIff(syntax: Syntax, line: string, n: nat)
    ensures Leads(syntax, line, n) <==> !Blank(syntax, line) && Indent(syntax, line) == n
  {
    IndentIsLeading(syntax, line);
  }

  /** The body of a definition ends before the first later line that starts with no more whitespace than it; lines
      of whitespace alone belong to the body. */
  lemma BodyIs(syntax: Syntax, lines: seq<string>, index: nat, end: nat, d: nat)
    requires index < |lines| && Leads(syntax, lines[index], d) && BodyEnds(syntax, lines, index, end)
    ensures index < end <= |lines|
    ensures forall k, n: nat :: index < k < end && Leads(syntax, lines[k], n) ==> n > d
    ensures end < |lines| ==> exists n: nat :: Leads(syntax, lines[end], n) && n <= d
  {
    LeadsIff(syntax, lines[index], d);
    forall k, n: nat | index < k < end && Leads(syntax, lines[k], n) ensures n > d {
      LeadsIff(syntax, lines[k], n);
      assert !Dedents(syntax, lines[k], d);
    }
    if end < |lines| {
      LeadsIff(syntax, lines[end], Indent(syntax, lines[end]));
      assert Leads(syntax, lines[end], Indent(syntax, lines[end]));
    }
  }

  ghost predicate PythonSymbol(syntax: Syntax, lines: seq<string>, index: nat, s: Symbol) {
    && index < |lines| && s.startLine == index + 1
    && BodyEnds(syntax, lines, index, s.endLine)
    && var m := syntax.pythonDef(lines[index]);
       m.Some? && s.name == m.value.name && s.kind == if m.value.isClass then "class" else "function"
  }

  ghost function PythonDefines(syntax: Syntax, lines: seq<string>): nat -> bool {
    (index: nat) => index < |lines| && syntax.pythonDef(lines[index]).Some?
  }

  ghost function PythonFits(syntax: Syntax, lines: seq<string>): (nat, Symbol) -> bool {
    (index: nat, s) => PythonSymbol(syntax, lines, index, s)
  }

  /** One symbol per definition line among the first `n`, in order. */
  ghost predicate PythonSymbols(syntax: Syntax, lines: seq<string>, n: nat, symbols: seq<Symbol>) {
    OnePerLine(PythonDefines(syntax, lines), PythonFits(syntax, lines), n, symbols)
  }

  method ParsePython(syntax: Syntax, lines: seq<string>) returns (symbols: seq<Symbol>)
    ensures PythonSymbols(syntax, lines, |lines|, symbols)
  {
    symbols := [];
    for index := 0 to |lines|
      invariant PythonSymbols(syntax, lines, index, symbols)
    {
      var m := syntax.pythonDef(lines[index]);
      if m.None? { continue; }
      var end := PythonEnd(syntax, lines, index);
      var symbol := Symbol(m.value.name, if m.value.isClass then "class" else "function", index + 1, end);
      SymbolAppended(PythonDefines(syntax, lines), PythonFits(syntax, lines), index, symbols, symbol);
      symbols := symbols + [symbol];
    }
  }

  method PythonEnd(syntax: Syntax, lines: seq<string>, index: nat) returns (end: nat)
    requires index < |lines|
    ensures BodyEnds(syntax, lines, index, end)
  {
    var indent := Indent(syntax, lines[index]);
    end := |lines|;
    for offset := index + 1 to |lines|
      invariant end == |lines|
      invariant forall k :: index < k < offset ==> !Dedents(syntax, lines[k], indent)
    {
      if Dedents(syntax, lines[offset], indent) {
        end := offset;
        break;
      }
    }
  }

  lemma NestedOrDisjoint(syntax: Syntax, lines: seq<string>, i: nat, s: Symbol, j: nat, t: Symbol)
    requires DefsNotBlank(syntax) && PythonSymbol(syntax, lines, i, s) && PythonSymbol(syntax, lines, j, t) && i < j
    ensures s.endLine < t.startLine || t.endLine <= s.endLine
  {
    if j < s.endLine {
      assert !Dedents(syntax, lines[j], Indent(syntax, lines[i]));
      assert !Blank(syntax, lines[j]);
    }
  }

  /** What was found on a definition line is what its symbol says. */
  lemma {:induction false} DefinitionHasSymbol(defines: nat -> bool, fits: (nat, Symbol) -> bool, n: nat,
                                               symbols: seq<Symbol>, index: nat) returns (i: nat)
    requires OnePerLine(defines, fits, n, symbols) && index < n && defines(index)
    ensures i < |symbols| && fits(index, symbols[i])
  {
    if index == n - 1 {
      i := |symbols| - 1;
    } else if !defines(n - 1) {
      i := DefinitionHasSymbol(defines, fits, n - 1, symbols, index);
    } else {
      i := DefinitionHasSymbol(defines, fits, n - 1, symbols[..|symbols| - 1], index);
    }
  }

  /** Each symbol names what its line defines, a class or a function, and each defining line has a symbol. */
  lemma PythonSymbolsAre(syntax: Syntax, lines: seq<string>, symbols: seq<Symbol>)
    requires PythonSymbols(syntax, lines, |lines|, symbols)
    ensures forall i :: 0 <= i < |symbols| ==>
      && 1 <= symbols[i].startLine <= |lines|
      && NamesPython(symbols[i], syntax.pythonDef(lines[symbols[i].startLine - 1]))
    ensures forall index :: 0 <= index < |lines| && syntax.pythonDef(lines[index]).Some? ==>
      exists i :: 0 <= i < |symbols| && symbols[i].startLine == index + 1
  {
    forall i | 0 <= i < |symbols|
      ensures 1 <= symbols[i].startLine <= |lines| &&
        NamesPython(symbols[i], syntax.pythonDef(lines[symbols[i].startLine - 1]))
    {
      SymbolOnLine(PythonDefines(syntax, lines), PythonFits(syntax, lines), |lines|, symbols, i);
    }
    forall index | 0 <= index < |lines| && syntax.pythonDef(lines[index]).Some?
      ensures exists i :: 0 <= i < |symbols| && symbols[i].startLine == index + 1
    {
      var i := DefinitionHasSymbol(PythonDefines(syntax, lines), PythonFits(syntax, lines), |lines|, symbols, index);
    }
  }

  predicate NamesPython(s: Symbol, found: Option<Header>) {
    && found.Some? && s.name == found.value.name
    && (s.kind == "class" <==> found.value.isClass) && (s.kind == "function" <==> !found.value.isClass)
  }

  lemma PythonSymbolsInFile(syntax: Syntax, lines: seq<string>, symbols: seq<Symbol>)
    requires PythonSymbols(syntax, lines, |lines|, symbols)
    ensures forall i :: 0 <= i < |symbols| ==> InFile(symbols[i], lines)
  {
    forall i | 0 <= i < |symbols| ensures InFile(symbols[i], lines) {
      SymbolOnLine(PythonDefines(syntax, lines), PythonFits(syntax, lines), |lines|, symbols, i);
    }
  }

  // C#, TypeScript and JavaScript

  ghost predicate BracedSymbol(syntax: Syntax, lines: seq<string>, index: nat, s: Symbol) {
    && index < |lines| && s.startLine == index + 1 && BlockEnds(lines, index, s.endLine)
    && syntax.bracedDef(lines[index]) == Some((s.name, s.kind))
  }

  ghost function BracedDefines(syntax: Syntax, lines: seq<string>): nat -> bool {
    (index: nat) => index < |lines| && syntax.bracedDef(lines[index]).Some?
  }

  ghost function BracedFits(syntax: Syntax, lines: seq<string>): (nat, Symbol) -> bool {
    (index: nat, s) => BracedSymbol(syntax, lines, index, s)
  }

  /** One symbol per definition line among the first `n`, in order, spanning its brace-delimited block. */
  ghost predicate BracedSymbols(syntax: Syntax, lines: seq<string>, n: nat, symbols: seq<Symbol>) {
    OnePerLine(BracedDefines(syntax, lines), BracedFits(syntax, lines), n, symbols)
  }

  /** A definition line opens a brace-delimited block. */
  method ParseBraced(syntax: Syntax, lines: seq<string>) returns (symbols: seq<Symbol>)
    ensures BracedSymbols(syntax, lines, |lines|, symbols)
    ensures forall i :: 0 <= i < |symbols| ==> InFile(symbols[i], lines)
  {
    symbols := [];
    hide StopsOn;
    for index := 0 to |lines|
      invariant BracedSymbols(syntax, lines, index, symbols)
      invariant forall i :: 0 <= i < |symbols| ==> InFile(symbols[i], lines)
    {
      var m := syntax.bracedDef(lines[index]);
      if m.None? { continue; }
      var end := BlockEnd(lines, index);
      var symbol := Symbol(m.value.0, m.value.1, index + 1, end);
      SymbolAppended(BracedDefines(syntax, lines), BracedFits(syntax, lines), index, symbols, symbol);
      symbols := symbols + [symbol];
    }
  }

  /** Each symbol carries the name and the kind found on its line, and each defining line has a symbol. */
  lemma BracedSymbolsAre(syntax: Syntax, lines: seq<string>, symbols: seq<Symbol>)
    requires BracedSymbols(syntax, lines, |lines|, symbols)
    ensures forall i :: 0 <= i < |symbols| ==>
      && 1 <= symbols[i].startLine <= |lines|
      && syntax.bracedDef(lines[symbols[i].startLine - 1]) == Some((symbols[i].name, symbols[i].kind))
    ensures forall index :: 0 <= index < |lines| && syntax.bracedDef(lines[index]).Some? ==>
      exists i :: 0 <= i < |symbols| && symbols[i].startLine == index + 1
  {
    hide BlockEnds;
    forall i | 0 <= i < |symbols|
      ensures 1 <= symbols[i].startLine <= |lines| &&
        syntax.bracedDef(lines[symbols[i].startLine - 1]) == Some((symbols[i].name, symbols[i].kind))
    {
      SymbolOnLine(BracedDefines(syntax, lines), BracedFits(syntax, lines), |lines|, symbols, i);
    }
    forall index | 0 <= index < |lines| && syntax.bracedDef(lines[index]).Some?
      ensures exists i :: 0 <= i < |symbols| && symbols[i].startLine == index + 1
    {
      var i := DefinitionHasSymbol(BracedDefines(syntax, lines), BracedFits(syntax, lines), |lines|, symbols, index);
    }
  }

  /** Any two spans of one file whose definitions open first are disjoint or nested. */
  lemma BracedSpansLaminar(syntax: Syntax, lines: seq<string>, symbols: seq<Symbol>, i: nat, j: nat)
    requires BracedSymbols(syntax, lines, |lines|, symbols) && i < j < |symbols|
    requires symbols[i].startLine > 0 ==> OpensFirst(lines, symbols[i].startLine - 1)
    requires symbols[j].startLine > 0 ==> OpensFirst(lines, symbols[j].startLine - 1)
    ensures symbols[i].endLine < symbols[j].startLine
      || (symbols[i].startLine < symbols[j].startLine && symbols[j].endLine <= symbols[i].endLine)
  {
    hide StopsOn, OpensFirst;
    SymbolOnLine(BracedDefines(syntax, lines), BracedFits(syntax, lines), |lines|, symbols, i);
    SymbolOnLine(BracedDefines(syntax, lines), BracedFits(syntax, lines), |lines|, symbols, j);
    BlocksLaminar(lines, symbols[i].startLine - 1, symbols[i].endLine, symbols[j].startLine - 1, symbols[j].endLine);
  }

  /** Any two spans of one file are disjoint or nested. */
  lemma PythonSpansLaminar(syntax: Syntax, lines: seq<string>, symbols: seq<Symbol>, i: nat, j: nat)
    requires DefsNotBlank(syntax) && PythonSymbols(syntax, lines, |lines|, symbols) && i < j < |symbols|
    ensures symbols[i].endLine < symbols[j].startLine
      || (symbols[i].startLine < symbols[j].startLine && symbols[j].endLine <= symbols[i].endLine)
  {
    assert forall k: nat, s :: PythonFits(syntax, lines)(k, s) ==>
        PythonSymbol(syntax, lines, k, s) && s.startLine == k + 1;
    hide OnePerLine, PythonSymbol, PythonFits, PythonDefines, DefsNotBlank;
    SymbolOnLine(PythonDefines(syntax, lines), PythonFits(syntax, lines), |lines|, symbols, i);
    SymbolOnLine(PythonDefines(syntax, lines), PythonFits(syntax, lines), |lines|, symbols, j);
    NestedOrDisjoint(syntax, lines, symbols[i].startLine - 1, symbols[i], symbols[j].startLine - 1, symbols[j]);
  }
}

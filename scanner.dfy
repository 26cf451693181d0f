/** The character-level scanning rules shared by the lexer (src/lexer/Lexer.java) and by the
    stand-alone scanner in src/Compiler.java: both walk the input line by line with the same
    branches (whitespace, identifier, number, string, comments, operators). They differ only
    in what they do with a character that starts no key, so this module reports such a
    character as a `Stray` and leaves its treatment to each caller.

    `ScanLines` and `ScanFrom` follow the two nested loops of `tokenize`, and `AfterComment`
    the loop of `processMultiLineComment`: the input is the sequence of lines a `BufferedReader`
    would return, `pos` the index of the next line to read, `line` and `idx` the current line
    and column, and `ln` the line counter. */
module Scanning {
  import opened Wrappers
  import opened Chars
  import opened Keywords
  import opened Tokens

  /** One step of output: a token, or a character that begins no key. */
  datatype Scanned = Emit(token: Token) | Stray(ch: char, lineNumber: int)
  {
    function Line(): int {
      match this
      case Emit(t) => t.lineNumber
      case Stray(_, l) => l
    }

    /** The characters of the input this item was made from. */
    function Text(): string {
      match this
      case Emit(t) => t.value
      case Stray(c, _) => [c]
    }
  }

  // ---------------------------------------------------------------------------
  // Maximal runs

  /** The end of the run of identifier characters starting at `i`. */
  function IdentEnd(line: string, i: nat): (j: nat)
    requires i <= |line|
    ensures i <= j <= |line|
    decreases |line| - i
  {
    if i < |line| && IsIdentPart(line[i]) then IdentEnd(line, i + 1) else i
  }

  /** The end of the run of digits starting at `i`. */
  function DigitsEnd(line: string, i: nat): (j: nat)
    requires i <= |line|
    ensures i <= j <= |line|
    decreases |line| - i
  {
    if i < |line| && IsDigit(line[i]) then DigitsEnd(line, i + 1) else i
  }

  /** Just past the first `"` at or after `i`, or the end of the line when there is none. */
  function StringEnd(line: string, i: nat): (j: nat)
    requires i <= |line|
    ensures i <= j <= |line|
    decreases |line| - i
  {
    if i == |line| then i
    else if line[i] == '"' then i + 1
    else StringEnd(line, i + 1)
  }

  /** The identifier run is maximal: all identifier characters, and no identifier character
      right after it. */
  lemma {:induction false} IdentEndIsMaximal(line: string, i: nat)
    requires i <= |line|
    ensures forall k :: i <= k < IdentEnd(line, i) ==> IsIdentPart(line[k])
    ensures IdentEnd(line, i) == |line| || !IsIdentPart(line[IdentEnd(line, i)])
    decreases |line| - i
  {
    if i < |line| && IsIdentPart(line[i]) {
      IdentEndIsMaximal(line, i + 1);
    }
  }

  /** The digit run is maximal. */
  lemma {:induction false} DigitsEndIsMaximal(line: string, i: nat)
    requires i <= |line|
    ensures forall k :: i <= k < DigitsEnd(line, i) ==> IsDigit(line[k])
    ensures DigitsEnd(line, i) == |line| || !IsDigit(line[DigitsEnd(line, i)])
    decreases |line| - i
  {
    if i < |line| && IsDigit(line[i]) {
      DigitsEndIsMaximal(line, i + 1);
    }
  }

  /** The string run stops just past the first quote, or at the end of the line when there is
      no quote. */
  lemma {:induction false} StringEndIsFirstQuote(line: string, i: nat)
    requires i <= |line|
    ensures var j := StringEnd(line, i);
      (forall k :: i <= k < j - 1 ==> line[k] != '"') &&
      ((i < j && line[j - 1] == '"') || (j == |line| && forall k :: i <= k < j ==> line[k] != '"'))
    decreases |line| - i
  {
    if i < |line| && line[i] != '"' {
      StringEndIsFirstQuote(line, i + 1);
    }
  }

  /** The kind `processIdentifier` gives a word: its keyword kind, else IDENFR. */
  function WordKind(w: string): TokenKind {
    if IsKeyword(w) then GetTokenType(w).value else IDENFR
  }

  // ---------------------------------------------------------------------------
  // The four token shapes

  /** `processIdentifier`: the run of identifier characters at `i`; the column moves past it. */
  function IdentifierAt(line: string, i: nat, ln: int): (r: (Token, nat))
    requires i < |line| && IsIdentStart(line[i])
    ensures i < r.1 <= |line| && r.0 == Token(WordKind(line[i..r.1]), line[i..r.1], ln)
  {
    var j := IdentEnd(line, i + 1);
    (Token(WordKind(line[i..j]), line[i..j], ln), j)
  }

  /** `processNumber`: the run of digits at `i`, as an INTCON. */
  function NumberAt(line: string, i: nat, ln: int): (r: (Token, nat))
    requires i < |line| && IsDigit(line[i])
    ensures i < r.1 <= |line| && r.0 == Token(INTCON, line[i..r.1], ln)
  {
    var j := DigitsEnd(line, i + 1);
    (Token(INTCON, line[i..j], ln), j)
  }

  /** `processString`: from the opening `"` through the next `"`, or to the end of the line;
      both quotes are kept and nothing is unescaped. */
  function StringAt(line: string, i: nat, ln: int): (r: (Token, nat))
    requires i < |line| && line[i] == '"'
    ensures i < r.1 <= |line| && r.0 == Token(STRCON, line[i..r.1], ln)
  {
    var j := StringEnd(line, i + 1);
    (Token(STRCON, line[i..j], ln), j)
  }

  /** An identifier is the longest run of identifier characters at its start. */
  lemma IdentifierIsMaximal(line: string, i: nat, ln: int)
    requires i < |line| && IsIdentStart(line[i])
    ensures var (t, j) := IdentifierAt(line, i, ln);
      (forall k :: i <= k < j ==> IsIdentPart(line[k])) && (j == |line| || !IsIdentPart(line[j]))
  {
    IdentEndIsMaximal(line, i + 1);
  }

  /** A number is the longest run of digits at its start. */
  lemma NumberIsMaximal(line: string, i: nat, ln: int)
    requires i < |line| && IsDigit(line[i])
    ensures var (t, j) := NumberAt(line, i, ln);
      (forall k :: i <= k < j ==> IsDigit(line[k])) && (j == |line| || !IsDigit(line[j]))
  {
    DigitsEndIsMaximal(line, i + 1);
  }

  /** A string literal ends at the first quote after the opening one; without one it runs to
      the end of the line. */
  lemma StringEndsAtQuote(line: string, i: nat, ln: int)
    requires i < |line| && line[i] == '"'
    ensures var (t, j) := StringAt(line, i, ln);
      (forall k :: i < k < j - 1 ==> line[k] != '"') &&
      ((i + 1 < j && line[j - 1] == '"') || (j == |line| && forall k :: i < k < j ==> line[k] != '"'))
  {
    StringEndIsFirstQuote(line, i + 1);
  }

  /** `processOperator`: a two-character key when the next two characters form one, otherwise a
      one-character key, otherwise a stray character; the column moves past what was used. */
  function OperatorAt(line: string, i: nat, ln: int): (r: (Scanned, nat))
    requires i < |line|
    ensures r.1 == i + 1 || r.1 == i + 2
    ensures r.1 <= |line| && r.0.Line() == ln && r.0.Text() == line[i..r.1]
    ensures r.0.Emit? ==> IsKeyword(r.0.token.value) && GetTokenType(r.0.token.value) == Some(r.0.token.kind)
    ensures (i + 1 < |line| && IsKeyword(line[i..i + 2])) <==> r.1 == i + 2
    ensures r.0.Stray? <==> r.1 == i + 1 && !IsKeyword([line[i]])
  {
    if i + 1 < |line| && IsKeyword(line[i..i + 2]) then
      (Emit(Token(GetTokenType(line[i..i + 2]).value, line[i..i + 2], ln)), i + 2)
    else if IsKeyword([line[i]]) then
      assert line[i..i + 1] == [line[i]];
      (Emit(Token(GetTokenType([line[i]]).value, [line[i]], ln)), i + 1)
    else
      assert line[i..i + 1] == [line[i]];
      (Stray(line[i], ln), i + 1)
  }

  // ---------------------------------------------------------------------------
  // The scanning loops

  /** Where a scanning loop stands: the next line to read, the current line, the column and
      the line counter. */
  datatype Cursor = Cursor(pos: nat, line: string, idx: nat, ln: int)

  /** The cursor lies within the input: no further than its end and at most at the end of
      its line. */
  predicate InInput(lines: seq<string>, c: Cursor) {
    c.pos <= |lines| && c.idx <= |c.line|
  }

  /** The cursor's line is the input line it read last. */
  predicate OnLine(lines: seq<string>, c: Cursor) {
    1 <= c.pos <= |lines| && c.line == lines[c.pos - 1] && c.idx <= |c.line|
  }

  /** `n` is strictly ahead of `c`: further along the same line, or on a line read later; the
      counter has gone up once per line read. */
  predicate Ahead(lines: seq<string>, c: Cursor, n: Cursor) {
    InInput(lines, n) && n.ln == c.ln + (n.pos - c.pos) &&
    ((n.pos == c.pos && n.line == c.line && c.idx < n.idx) ||
     (c.pos < n.pos && n.line == lines[n.pos - 1]))
  }

  /** A star followed by a slash at column `k` of `line`. */
  predicate ClosesAt(line: string, k: int) {
    0 <= k && k + 1 < |line| && line[k] == '*' && line[k + 1] == '/'
  }

  /** The comment loop: from the cursor, look for a star followed by a slash and stop just past
      it, reading further lines (and counting them) while the reader has more; at the end of the
      input it stops at the end of the last line. */
  function AfterComment(lines: seq<string>, c: Cursor): (k: Cursor)
    requires InInput(lines, c)
    ensures InInput(lines, k) && c.pos <= k.pos && k.ln == c.ln + (k.pos - c.pos)
    ensures k.pos == c.pos ==> k.line == c.line && c.idx <= k.idx
    ensures k.pos > c.pos ==> k.line == lines[k.pos - 1]
    ensures (ClosesAt(k.line, k.idx - 2) && (k.pos == c.pos ==> c.idx + 2 <= k.idx)) || (k.pos == |lines| && k.idx == |k.line|)
    decreases |lines| - c.pos, |c.line| - c.idx
  {
    if c.idx == |c.line| then
      if c.pos == |lines| then c
      else AfterComment(lines, Cursor(c.pos + 1, lines[c.pos], 0, c.ln + 1))
    else if ClosesAt(c.line, c.idx) then c.(idx := c.idx + 2)
    else AfterComment(lines, c.(idx := c.idx + 1))
  }

  /** The outcome of one pass of the inner loop's body: what it scanned, where the cursor is
      now, and whether it gave up on the rest of the line. */
  datatype Pass = Pass(items: seq<Scanned>, next: Cursor, lineDone: bool)

  /** One pass of the inner loop's body at a column inside the line: skip a blank, take an
      identifier, number, string or operator, drop the line at `//`, or skip a block comment. */
  function Advance(lines: seq<string>, c: Cursor): (p: Pass)
    requires InInput(lines, c) && c.idx < |c.line|
    ensures p.lineDone <==> c.line[c.idx] == '/' && c.idx + 1 < |c.line| && c.line[c.idx + 1] == '/'
    ensures p.lineDone ==> p.items == [] && p.next == c
    ensures !p.lineDone ==> Ahead(lines, c, p.next)
    ensures |p.items| <= 1
  {
    var line, i, ln := c.line, c.idx, c.ln;
    var ch := line[i];
    if IsWhitespace(ch) then Pass([], c.(idx := i + 1), false)
    else if IsIdentStart(ch) then
      var (t, j) := IdentifierAt(line, i, ln);
      Pass([Emit(t)], c.(idx := j), false)
    else if IsDigit(ch) then
      var (t, j) := NumberAt(line, i, ln);
      Pass([Emit(t)], c.(idx := j), false)
    else if ch == '"' then
      var (t, j) := StringAt(line, i, ln);
      Pass([Emit(t)], c.(idx := j), false)
    else if ch == '/' && i + 1 < |line| && line[i + 1] == '/' then
      // a line comment: the rest of the line is dropped
      Pass([], c, true)
    else if ch == '/' && i + 1 < |line| && line[i + 1] == '*' then
      Pass([], AfterComment(lines, c.(idx := i + 2)), false)
    else
      var (s, j) := OperatorAt(line, i, ln);
      Pass([s], c.(idx := j), false)
  }

  /** The outer loop: read the next line, if any, and scan it from column 0. */
  function ScanLines(lines: seq<string>, pos: nat, ln: int): seq<Scanned>
    requires pos <= |lines|
    decreases |lines| - pos, 0, 0
  {
    if pos == |lines| then [] else ScanFrom(lines, Cursor(pos + 1, lines[pos], 0, ln))
  }

  /** The inner loop from the cursor; at the end of the line the counter goes up by one and
      the outer loop reads on. */
  function ScanFrom(lines: seq<string>, c: Cursor): seq<Scanned>
    requires InInput(lines, c)
    decreases |lines| - c.pos, |c.line| - c.idx, 2
  {
    if c.idx == |c.line| then ScanLines(lines, c.pos, c.ln + 1) else ScanOn(lines, c)
  }

  /** The inner loop at a column inside the line: one pass, then the loop goes on, or the outer
      loop reads on when the pass gave up on the line. */
  function ScanOn(lines: seq<string>, c: Cursor): seq<Scanned>
    requires InInput(lines, c) && c.idx < |c.line|
    decreases |lines| - c.pos, |c.line| - c.idx, 1
  {
    var p := Advance(lines, c);
    p.items + (if p.lineDone then ScanLines(lines, c.pos, c.ln + 1) else ScanFrom(lines, p.next))
  }

  /** The moves of the scanning loops. */
  lemma ScanLinesReads(lines: seq<string>, pos: nat, ln: int)
    requires pos < |lines|
    ensures ScanLines(lines, pos, ln) == ScanFrom(lines, Cursor(pos + 1, lines[pos], 0, ln))
  {
  }

  lemma ScanLinesStops(lines: seq<string>, ln: int)
    ensures ScanLines(lines, |lines|, ln) == []
  {
  }

  lemma ScanFromEndOfLine(lines: seq<string>, c: Cursor)
    requires InInput(lines, c) && c.idx == |c.line|
    ensures ScanFrom(lines, c) == ScanLines(lines, c.pos, c.ln + 1)
  {
  }

  lemma ScanFromLineComment(lines: seq<string>, c: Cursor)
    requires InInput(lines, c) && c.idx < |c.line| && Advance(lines, c).lineDone
    ensures ScanFrom(lines, c) == ScanLines(lines, c.pos, c.ln + 1)
  {
    var p := Advance(lines, c);
    assert ScanFrom(lines, c) == ScanOn(lines, c) == p.items + ScanLines(lines, c.pos, c.ln + 1);
    assert p.items == [];
  }

  lemma ScanFromPass(lines: seq<string>, c: Cursor)
    requires InInput(lines, c) && c.idx < |c.line| && !Advance(lines, c).lineDone
    ensures ScanFrom(lines, c) == Advance(lines, c).items + ScanFrom(lines, Advance(lines, c).next)
  {
  }

  lemma ScanFromSkip(lines: seq<string>, c: Cursor)
    requires InInput(lines, c) && c.idx < |c.line| && !Advance(lines, c).lineDone && Advance(lines, c).items == []
    ensures ScanFrom(lines, c) == ScanFrom(lines, Advance(lines, c).next)
  {
    assert [] + ScanFrom(lines, Advance(lines, c).next) == ScanFrom(lines, Advance(lines, c).next);
  }

  lemma ScanFromTake(lines: seq<string>, c: Cursor, s: Scanned)
    requires InInput(lines, c) && c.idx < |c.line| && Advance(lines, c).items == [s]
    ensures ScanFrom(lines, c) == [s] + ScanFrom(lines, Advance(lines, c).next)
  {
  }

  /** The moves of the comment loop. */
  lemma AfterCommentReadsOn(lines: seq<string>, c: Cursor)
    requires c.pos < |lines| && c.idx == |c.line|
    ensures AfterComment(lines, c) == AfterComment(lines, Cursor(c.pos + 1, lines[c.pos], 0, c.ln + 1))
  {
  }

  lemma AfterCommentStops(lines: seq<string>, c: Cursor)
    requires c.pos == |lines| && c.idx == |c.line|
    ensures AfterComment(lines, c) == c
  {
  }

  lemma AfterCommentCloses(lines: seq<string>, c: Cursor)
    requires InInput(lines, c) && ClosesAt(c.line, c.idx)
    ensures AfterComment(lines, c) == c.(idx := c.idx + 2)
  {
  }

  lemma AfterCommentMoves(lines: seq<string>, c: Cursor)
    requires InInput(lines, c) && c.idx < |c.line| && !ClosesAt(c.line, c.idx)
    ensures AfterComment(lines, c) == AfterComment(lines, c.(idx := c.idx + 1))
  {
  }

  /** No star and slash lies between cursor `c` and the two characters the comment stops
      after at `k`: neither on the cursor's line, nor on a line read in between, nor earlier on
      the line where it stops. */
  ghost predicate NoCloserBefore(lines: seq<string>, c: Cursor, k: Cursor) {
    (k.pos == c.pos ==> forall j :: c.idx <= j < k.idx - 2 ==> !ClosesAt(c.line, j)) &&
    (k.pos > c.pos ==>
      (forall j :: c.idx <= j ==> !ClosesAt(c.line, j)) &&
      (forall p, j :: c.pos <= p < k.pos - 1 && p < |lines| ==> !ClosesAt(lines[p], j)) &&
      (forall j :: 0 <= j < k.idx - 2 ==> !ClosesAt(k.line, j)))
  }

  /** A comment open at the end of a line skips no closer by reading on. */
  lemma NoCloserAcrossLine(lines: seq<string>, c: Cursor, k: Cursor)
    requires c.pos < |lines| && c.idx == |c.line|
    requires k.pos >= c.pos + 1
    requires k.pos == c.pos + 1 ==> k.line == lines[c.pos]
    requires NoCloserBefore(lines, Cursor(c.pos + 1, lines[c.pos], 0, c.ln + 1), k)
    ensures NoCloserBefore(lines, c, k)
  {
    if k.pos > c.pos + 1 {
      assert forall j :: !ClosesAt(lines[c.pos], j);
    }
  }

  /** Skipping a character that does not start a closer skips no closer. */
  lemma NoCloserAcrossCharacter(lines: seq<string>, c: Cursor, k: Cursor)
    requires c.idx < |c.line| && !ClosesAt(c.line, c.idx) && k.pos >= c.pos
    requires NoCloserBefore(lines, c.(idx := c.idx + 1), k)
    ensures NoCloserBefore(lines, c, k)
  {
  }

  /** The comment ends at the FIRST star and slash after the cursor. */
  lemma {:induction false} AfterCommentIsFirst(lines: seq<string>, c: Cursor)
    requires InInput(lines, c)
    ensures NoCloserBefore(lines, c, AfterComment(lines, c))
    decreases |lines| - c.pos, |c.line| - c.idx
  {
    var k := AfterComment(lines, c);
    if c.idx == |c.line| {
      if c.pos < |lines| {
        var n := Cursor(c.pos + 1, lines[c.pos], 0, c.ln + 1);
        AfterCommentIsFirst(lines, n);
        assert k == AfterComment(lines, n);
        NoCloserAcrossLine(lines, c, k);
      }
    } else if !ClosesAt(c.line, c.idx) {
      var n := c.(idx := c.idx + 1);
      AfterCommentIsFirst(lines, n);
      assert k == AfterComment(lines, n);
      NoCloserAcrossCharacter(lines, c, k);
    }
  }

  // ---------------------------------------------------------------------------
  // What the scan produces

  /** The token shapes the rules can produce. */
  predicate WellFormed(s: Scanned) {
    match s
    case Stray(c, _) => !IsKeyword([c])
    case Emit(t) =>
      var w := t.value;
      |w| > 0 &&
      ((IsIdentStart(w[0]) && (forall k :: 0 <= k < |w| ==> IsIdentPart(w[k])) && t.kind == WordKind(w)) ||
       (t.kind == INTCON && forall k :: 0 <= k < |w| ==> IsDigit(w[k])) ||
       (t.kind == STRCON && w[0] == '"' && forall k :: 0 < k < |w| - 1 ==> w[k] != '"') ||
       (GetTokenType(w) == Some(t.kind) && 1 <= |w| <= 2))
  }

  /** The item's text is a piece of the input line its line number names, where line `k`
      of `lines` carries number `base + k`. */
  predicate Located(s: Scanned, lines: seq<string>, base: int) {
    var k := s.Line() - base;
    0 <= k < |lines| &&
    exists a, b :: 0 <= a <= b <= |lines[k]| && lines[k][a..b] == s.Text()
  }

  /** Line numbers never go down along the output. */
  predicate Ordered(r: seq<Scanned>) {
    forall i, j :: 0 <= i < j < |r| ==> r[i].Line() <= r[j].Line()
  }

  /** Everything a scan produces is well formed, lies in its input line, and has a line number
      no smaller than `lo`. */
  predicate Sound(r: seq<Scanned>, lines: seq<string>, base: int, lo: int) {
    Ordered(r) &&
    forall s :: s in r ==> WellFormed(s) && Located(s, lines, base) && lo <= s.Line()
  }

  lemma {:induction false} SoundCons(s: Scanned, r: seq<Scanned>, lines: seq<string>, base: int, lo: int)
    requires Sound(r, lines, base, s.Line())
    requires WellFormed(s) && Located(s, lines, base) && lo <= s.Line()
    ensures Sound([s] + r, lines, base, lo)
  {
    var r' := [s] + r;
    forall i, j | 0 <= i < j < |r'|
      ensures r'[i].Line() <= r'[j].Line()
    {
      if i == 0 {
        assert r'[j] == r[j - 1];
        assert r[j - 1] in r;
      } else {
        assert r'[i] == r[i - 1] && r'[j] == r[j - 1];
      }
    }
  }

  lemma {:induction false} SoundWeaken(r: seq<Scanned>, lines: seq<string>, base: int, lo: int, lo': int)
    requires Sound(r, lines, base, lo) && lo' <= lo
    ensures Sound(r, lines, base, lo')
  {
  }

  /** A token cut from `line[i..j]` is located on that line. */
  lemma PieceLocated(s: Scanned, lines: seq<string>, base: int, k: int, i: nat, j: nat)
    requires 0 <= k < |lines| && i <= j <= |lines[k]|
    requires s.Line() == base + k && s.Text() == lines[k][i..j]
    ensures Located(s, lines, base)
  {
  }

  lemma {:induction false} ScanLinesSound(lines: seq<string>, pos: nat, ln: int)
    requires pos <= |lines|
    ensures Sound(ScanLines(lines, pos, ln), lines, ln - pos, ln)
    decreases |lines| - pos, 0, 0
  {
    if pos < |lines| {
      ScanFromSound(lines, Cursor(pos + 1, lines[pos], 0, ln));
    }
  }

  lemma {:induction false} ScanFromSound(lines: seq<string>, c: Cursor)
    requires OnLine(lines, c)
    ensures Sound(ScanFrom(lines, c), lines, c.ln - (c.pos - 1), c.ln)
    decreases |lines| - c.pos, |c.line| - c.idx, 3
  {
    if c.idx == |c.line| {
      ScanFromEndOfLine(lines, c);
      LineEndSound(lines, c);
    } else if Advance(lines, c).lineDone {
      ScanFromLineComment(lines, c);
      LineEndSound(lines, c);
    } else {
      ScanFromSound(lines, Advance(lines, c).next);
      PassSound(lines, c);
    }
  }

  /** What the outer loop scans once the cursor's line is given up is sound from the cursor's
      line number on. */
  lemma {:induction false} LineEndSound(lines: seq<string>, c: Cursor)
    requires OnLine(lines, c)
    ensures Sound(ScanLines(lines, c.pos, c.ln + 1), lines, c.ln - (c.pos - 1), c.ln)
    decreases |lines| - c.pos, 0, 1
  {
    ScanLinesSound(lines, c.pos, c.ln + 1);
    SoundWeaken(ScanLines(lines, c.pos, c.ln + 1), lines, c.ln - (c.pos - 1), c.ln + 1, c.ln);
  }

  /** What one pass scans is well formed and cut from the cursor's line, between the old and
      the new column; a pass that scans nothing skipped a blank or a comment. */
  lemma PassIsSound(lines: seq<string>, c: Cursor)
    requires InInput(lines, c) && c.idx < |c.line|
    ensures var p := Advance(lines, c);
      (p.items != [] ==>
        p.next.pos == c.pos && WellFormed(p.items[0]) && p.items[0].Line() == c.ln &&
        p.items[0].Text() == c.line[c.idx..p.next.idx]) &&
      (p.items == [] && !p.lineDone ==>
        IsWhitespace(c.line[c.idx]) || (c.line[c.idx] == '/' && c.idx + 1 < |c.line| && c.line[c.idx + 1] == '*'))
  {
    var ch := c.line[c.idx];
    if IsWhitespace(ch) {
    } else if IsIdentStart(ch) {
      IdentifierIsWellFormed(c.line, c.idx, c.ln);
    } else if IsDigit(ch) {
      NumberIsWellFormed(c.line, c.idx, c.ln);
    } else if ch == '"' {
      StringIsWellFormed(c.line, c.idx, c.ln);
    } else if !(ch == '/' && c.idx + 1 < |c.line| && (c.line[c.idx + 1] == '/' || c.line[c.idx + 1] == '*')) {
      OperatorIsWellFormed(c.line, c.idx, c.ln);
    }
  }

  lemma IdentifierIsWellFormed(line: string, i: nat, ln: int)
    requires i < |line| && IsIdentStart(line[i])
    ensures WellFormed(Emit(IdentifierAt(line, i, ln).0))
  {
    IdentifierIsMaximal(line, i, ln);
  }

  lemma NumberIsWellFormed(line: string, i: nat, ln: int)
    requires i < |line| && IsDigit(line[i])
    ensures WellFormed(Emit(NumberAt(line, i, ln).0))
  {
    NumberIsMaximal(line, i, ln);
    assert !IsIdentStart(NumberAt(line, i, ln).0.value[0]);
  }

  lemma StringIsWellFormed(line: string, i: nat, ln: int)
    requires i < |line| && line[i] == '"'
    ensures WellFormed(Emit(StringAt(line, i, ln).0))
  {
    StringEndsAtQuote(line, i, ln);
    assert !IsIdentStart(StringAt(line, i, ln).0.value[0]);
  }

  lemma OperatorIsWellFormed(line: string, i: nat, ln: int)
    requires i < |line|
    ensures WellFormed(OperatorAt(line, i, ln).0)
  {
  }

  /** What one pass scans, followed by a sound rest, is sound. */
  lemma {:induction false} PassSound(lines: seq<string>, c: Cursor)
    requires OnLine(lines, c) && c.idx < |c.line| && !Advance(lines, c).lineDone
    requires Sound(ScanFrom(lines, Advance(lines, c).next), lines, c.ln - (c.pos - 1), Advance(lines, c).next.ln)
    ensures Sound(ScanFrom(lines, c), lines, c.ln - (c.pos - 1), c.ln)
  {
    var p, base := Advance(lines, c), c.ln - (c.pos - 1);
    var rest := ScanFrom(lines, p.next);
    ScanFromPass(lines, c);
    PassIsSound(lines, c);
    SoundWeaken(rest, lines, base, p.next.ln, c.ln);
    if p.items != [] {
      var s := p.items[0];
      assert p.items == [s];
      PieceLocated(s, lines, base, c.pos - 1, c.idx, p.next.idx);
      SoundCons(s, rest, lines, base, c.ln);
    } else {
      assert p.items + rest == rest;
    }
  }

  /** The main scanning property: from line `pos` with counter `ln`, every item is well formed,
      line numbers never decrease, and each item's text is found on input line
      `pos + (number - ln)`; so the counter names the physical line, comments included. */
  lemma {:induction false} ScanIsSound(lines: seq<string>, pos: nat, ln: int)
    requires pos <= |lines|
    ensures var r := ScanLines(lines, pos, ln);
      Ordered(r) &&
      forall s :: s in r ==> WellFormed(s) && ln <= s.Line() < ln + (|lines| - pos) && Located(s, lines, ln - pos)
  {
    ScanLinesSound(lines, pos, ln);
  }

  /** A closing star and slash at or after the cursor's column, or anywhere on a later line. */
  predicate CloserAhead(lines: seq<string>, c: Cursor) {
    (exists k :: c.idx <= k < |c.line| && ClosesAt(c.line, k)) ||
    (exists p, k :: c.pos <= p < |lines| && 0 <= k < |lines[p]| && ClosesAt(lines[p], k))
  }

  /** An unterminated block comment swallows the rest of the input: the cursor ends at the end of
      the last line, every remaining line is counted, and nothing more is scanned. */
  lemma UnterminatedCommentIsQuiet(lines: seq<string>, c: Cursor)
    requires InInput(lines, c)
    requires !CloserAhead(lines, c)
    ensures var k := AfterComment(lines, c);
      k.pos == |lines| && k.idx == |k.line| && k.ln == c.ln + (|lines| - c.pos) &&
      ScanFrom(lines, k) == []
  {
    var k := AfterComment(lines, c);
    assert ScanFrom(lines, k) == ScanLines(lines, k.pos, k.ln + 1);
  }
}

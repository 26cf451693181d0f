/** The lexer (src/lexer/Lexer.java): a `Lexer` object walks the lines of a reader with a
    cursor (`lineNumber`, `currentCharIndex`, `currentLine`, `currentChar`) and collects tokens.
    Each method is proved against the scanning functions of module `Scanning`; a character
    that begins no key becomes an `AND` token when it is `&` and an `OR` token otherwise. */
module Lexing {
  import opened Wrappers
  import opened Chars
  import opened Keywords
  import opened Tokens
  import opened Scanning
  import Diagnostics

  /** The `BufferedReader` the lexer reads from, as the sequence of lines it would return. */
  class LineReader {
    const lines: seq<string>
    var pos: nat

    ghost predicate Valid()
      reads this
    {
      pos <= |lines|
    }

    constructor (lines: seq<string>)
      ensures this.lines == lines && pos == 0 && Valid()
    {
      this.lines := lines;
      pos := 0;
    }

    /** `ready()`: more input is available. */
    predicate Ready()
      reads this
    {
      pos < |lines|
    }

    /** `readLine()`: the next line, or `None` (Java's null) at the end of the input. */
    method ReadLine() returns (r: Option<string>)
      requires Valid()
      modifies this
      ensures Valid()
      ensures old(pos) < |lines| ==> r == Some(lines[old(pos)]) && pos == old(pos) + 1
      ensures old(pos) == |lines| ==> r == None && pos == old(pos)
    {
      if pos < |lines| {
        r := Some(lines[pos]);
        pos := pos + 1;
      } else {
        r := None;
      }
    }
  }

  /** The token the lexer makes of a scanned item: a stray `&` is an `AND`, any other stray
      character an `OR`. */
  function LexerToken(s: Scanned): (t: Token)
    ensures t.lineNumber == s.Line() && t.value == s.Text()
    ensures s.Emit? ==> t == s.token
    ensures s.Stray? ==> t.kind == (if s.ch == '&' then AND else OR)
  {
    match s
    case Emit(t) => t
    case Stray(c, l) => Token(if c == '&' then AND else OR, [c], l)
  }

  function LexerTokens(r: seq<Scanned>): seq<Token> {
    seq(|r|, i requires 0 <= i < |r| => LexerToken(r[i]))
  }

  lemma LexerTokensAppend(r: seq<Scanned>, r': seq<Scanned>)
    ensures LexerTokens(r + r') == LexerTokens(r) + LexerTokens(r')
  {
  }

  /** What `tokenize` returns for the lines of `lines` from index `pos`, counting from `ln`. */
  function Lex(lines: seq<string>, pos: nat, ln: int): (r: seq<Token>)
    requires pos <= |lines|
    ensures |r| == |ScanLines(lines, pos, ln)|
    ensures forall i :: 0 <= i < |r| ==>
      r[i].lineNumber == ScanLines(lines, pos, ln)[i].Line() && r[i].value == ScanLines(lines, pos, ln)[i].Text()
  {
    LexerTokens(ScanLines(lines, pos, ln))
  }

  class Lexer {
    var lineNumber: int
    var currentCharIndex: nat
    var currentLine: string
    var currentChar: char
    const errorHandler: Diagnostics.ErrorHandler

    constructor (errorHandler: Diagnostics.ErrorHandler)
      ensures this.errorHandler == errorHandler
      ensures lineNumber == 1 && currentCharIndex == 0 && currentLine == "" && currentChar == '\0'
    {
      this.errorHandler := errorHandler;
      lineNumber := 1;
      currentCharIndex := 0;
      currentLine := "";
      currentChar := '\0';
    }

    /** `tokenize`: the tokens of every remaining line of `reader`; the line counter goes up
        once per line read. */
    method Tokenize(reader: LineReader) returns (tokens: seq<Token>)
      requires reader.Valid()
      modifies this, reader
      ensures reader.Valid() && reader.pos == |reader.lines|
      ensures tokens == Lex(reader.lines, old(reader.pos), old(lineNumber))
      ensures lineNumber == old(lineNumber) + (|reader.lines| - old(reader.pos))
    {
      ghost var lines, pos0, ln0 := reader.lines, reader.pos, lineNumber;
      ghost var total := ScanLines(lines, pos0, ln0);
      ghost var done: seq<Scanned> := [];
      tokens := [];
      var line := reader.ReadLine();
      while line.Some?
        invariant reader.Valid() && reader.lines == lines && pos0 <= reader.pos
        invariant tokens == LexerTokens(done)
        invariant line.Some? ==> 1 <= reader.pos && line.value == lines[reader.pos - 1]
        invariant line.Some? ==> done + ScanLines(lines, reader.pos - 1, lineNumber) == total
        invariant line.Some? ==> lineNumber == ln0 + (reader.pos - 1 - pos0)
        invariant line.None? ==> done == total && reader.pos == |lines| && lineNumber == ln0 + (reader.pos - pos0)
        decreases |lines| - reader.pos, if line.Some? then 1 else 0
      {
        currentLine := line.value;
        currentCharIndex := 0;
        var lineTokens, items := ScanLine(reader);
        LexerTokensAppend(done, items);
        done, tokens := done + items, tokens + lineTokens;
        assert done + ScanLines(lines, reader.pos, lineNumber + 1) == total;
        lineNumber := lineNumber + 1;
        if reader.pos == |lines| {
          ScanLinesStops(lines, lineNumber);
        }
        line := reader.ReadLine();
      }
    }

    /** The inner loop of `tokenize`: scans the line just read from column 0, and further lines
        when a block comment runs on, up to the end of the line it ends on or a line comment.
        `items` are what it scanned; what is left of the input is what the outer loop reads next. */
    method ScanLine(reader: LineReader) returns (lineTokens: seq<Token>, ghost items: seq<Scanned>)
      requires reader.Valid() && 1 <= reader.pos && currentLine == reader.lines[reader.pos - 1] && currentCharIndex == 0
      modifies this, reader
      ensures reader.Valid() && old(reader.pos) <= reader.pos && OnLine(reader.lines, Cursor(reader.pos, currentLine, currentCharIndex, lineNumber))
      ensures lineNumber == old(lineNumber) + (reader.pos - old(reader.pos))
      ensures lineTokens == LexerTokens(items)
      ensures old(ScanLines(reader.lines, reader.pos - 1, lineNumber)) == items + ScanLines(reader.lines, reader.pos, lineNumber + 1)
    {
      ScanLinesReads(reader.lines, reader.pos - 1, lineNumber);
      ghost var lines, pos0, ln0 := reader.lines, reader.pos, lineNumber;
      ghost var total := ScanFrom(lines, Cursor(reader.pos, currentLine, currentCharIndex, lineNumber));
      lineTokens, items := [], [];
      while currentCharIndex < |currentLine|
        invariant reader.Valid() && reader.lines == lines && pos0 <= reader.pos
        invariant OnLine(lines, Cursor(reader.pos, currentLine, currentCharIndex, lineNumber))
        invariant lineNumber == ln0 + (reader.pos - pos0)
        invariant lineTokens == LexerTokens(items)
        invariant items + ScanFrom(lines, Cursor(reader.pos, currentLine, currentCharIndex, lineNumber)) == total
        decreases |lines| - reader.pos, |currentLine| - currentCharIndex
      {
        ghost var c := Cursor(reader.pos, currentLine, currentCharIndex, lineNumber);
        ghost var p := Advance(lines, c);
        var toks, lineDone := Step(reader);
        if lineDone {
          ScanFromLineComment(lines, c);
          return;
        }
        ScanFromPass(lines, c);
        LexerTokensAppend(items, p.items);
        Regroup(items, p.items, ScanFrom(lines, p.next));
        items := items + p.items;
        lineTokens := lineTokens + toks;
      }
      ScanFromEndOfLine(lines, Cursor(reader.pos, currentLine, currentCharIndex, lineNumber));
    }

    /** One pass of the body of the inner loop of `tokenize`, at a column inside the line: skip a
        blank, take a token, give up on the line at `//`, or skip a block comment. What it takes
        and where it leaves the cursor are what `Advance` says. */
    method Step(reader: LineReader) returns (toks: seq<Token>, lineDone: bool)
      requires reader.Valid() && OnLine(reader.lines, Cursor(reader.pos, currentLine, currentCharIndex, lineNumber))
      requires currentCharIndex < |currentLine|
      modifies this, reader
      ensures reader.Valid()
      ensures var p := old(Advance(reader.lines, Cursor(reader.pos, currentLine, currentCharIndex, lineNumber)));
        lineDone == p.lineDone && toks == LexerTokens(p.items) &&
        Cursor(reader.pos, currentLine, currentCharIndex, lineNumber) == p.next
    {
      toks, lineDone := [], false;
      currentChar := currentLine[currentCharIndex];
      if IsWhitespace(currentChar) {
        currentCharIndex := currentCharIndex + 1;
      } else if IsIdentStart(currentChar) {
        var tok := ProcessIdentifier();
        toks := [tok];
      } else if IsDigit(currentChar) {
        var tok := ProcessNumber();
        toks := [tok];
      } else if currentChar == '"' {
        var tok := ProcessString();
        toks := [tok];
      } else if currentChar == '/' && currentCharIndex + 1 < |currentLine| && currentLine[currentCharIndex + 1] == '/' {
        lineDone := true;
      } else if currentChar == '/' && currentCharIndex + 1 < |currentLine| && currentLine[currentCharIndex + 1] == '*' {
        ProcessMultiLineComment(reader);
      } else {
        var tok := ProcessOperator();
        toks := [tok];
      }
    }

    /** `processIdentifier`: the longest run of letters, digits and `_` from the cursor, a
        keyword's kind when it is a keyword and IDENFR otherwise; the cursor moves past it. */
    method ProcessIdentifier() returns (tok: Token)
      requires currentCharIndex < |currentLine| && currentChar == currentLine[currentCharIndex]
      requires IsIdentStart(currentChar)
      modifies this
      ensures (tok, currentCharIndex) == old(IdentifierAt(currentLine, currentCharIndex, lineNumber))
      ensures currentLine == old(currentLine) && lineNumber == old(lineNumber)
      ensures currentChar == currentLine[if currentCharIndex < |currentLine| then currentCharIndex else currentCharIndex - 1]
    {
      ghost var line, i0 := currentLine, currentCharIndex;
      var sb := [currentChar];
      currentCharIndex := currentCharIndex + 1;
      while currentCharIndex < |currentLine|
        invariant currentLine == line && lineNumber == old(lineNumber)
        invariant i0 < currentCharIndex <= |line|
        invariant sb == line[i0..currentCharIndex]
        invariant currentChar == line[currentCharIndex - 1]
        invariant IdentEnd(line, currentCharIndex) == IdentEnd(line, i0 + 1)
      {
        currentChar := currentLine[currentCharIndex];
        if IsIdentPart(currentChar) {
          sb := sb + [currentChar];
          currentCharIndex := currentCharIndex + 1;
        } else {
          break;
        }
      }
      tok := Token(WordKind(sb), sb, lineNumber);
    }

    /** `processNumber`: the longest run of digits from the cursor, as an INTCON. */
    method ProcessNumber() returns (tok: Token)
      requires currentCharIndex < |currentLine| && currentChar == currentLine[currentCharIndex]
      requires IsDigit(currentChar)
      modifies this
      ensures (tok, currentCharIndex) == old(NumberAt(currentLine, currentCharIndex, lineNumber))
      ensures currentLine == old(currentLine) && lineNumber == old(lineNumber)
      ensures currentChar == currentLine[if currentCharIndex < |currentLine| then currentCharIndex else currentCharIndex - 1]
    {
      ghost var i0 := currentCharIndex;
      var sb := [currentChar];
      currentCharIndex := currentCharIndex + 1;
      while currentCharIndex < |currentLine|
        invariant currentLine == old(currentLine) && lineNumber == old(lineNumber)
        invariant i0 < currentCharIndex <= |currentLine|
        invariant sb == currentLine[i0..currentCharIndex]
        invariant currentChar == currentLine[currentCharIndex - 1]
        invariant DigitsEnd(currentLine, currentCharIndex) == DigitsEnd(currentLine, i0 + 1)
      {
        currentChar := currentLine[currentCharIndex];
        if IsDigit(currentChar) {
          sb := sb + [currentChar];
          currentCharIndex := currentCharIndex + 1;
        } else {
          break;
        }
      }
      tok := Token(INTCON, sb, lineNumber);
    }

    /** `processString`: from the opening quote through the next quote (or to the end of the
        line), quotes included, as a STRCON. */
    method ProcessString() returns (tok: Token)
      requires currentCharIndex < |currentLine| && currentChar == currentLine[currentCharIndex]
      requires currentChar == '"'
      modifies this
      ensures (tok, currentCharIndex) == old(StringAt(currentLine, currentCharIndex, lineNumber))
      ensures currentLine == old(currentLine) && lineNumber == old(lineNumber)
      ensures currentChar == currentLine[currentCharIndex - 1]
    {
      ghost var i0 := currentCharIndex;
      var sb := [currentChar];
      currentCharIndex := currentCharIndex + 1;
      while currentCharIndex < |currentLine|
        invariant currentLine == old(currentLine) && lineNumber == old(lineNumber)
        invariant i0 < currentCharIndex <= |currentLine|
        invariant sb == currentLine[i0..currentCharIndex]
        invariant currentChar == currentLine[currentCharIndex - 1]
        invariant StringEnd(currentLine, currentCharIndex) == StringEnd(currentLine, i0 + 1)
      {
        currentChar := currentLine[currentCharIndex];
        sb := sb + [currentChar];
        currentCharIndex := currentCharIndex + 1;
        if currentChar == '"' {
          assert StringEnd(currentLine, currentCharIndex - 1) == currentCharIndex;
          assert sb == currentLine[i0..currentCharIndex];
          break;
        }
      }
      tok := Token(STRCON, sb, lineNumber);
    }

    /** `processOperator`: a two-character key if the next two characters are one, else a
        one-character key, else the character itself as AND (for `&`) or OR. */
    method ProcessOperator() returns (tok: Token)
      requires currentCharIndex < |currentLine| && currentChar == currentLine[currentCharIndex]
      modifies this
      ensures tok == old(LexerToken(OperatorAt(currentLine, currentCharIndex, lineNumber).0))
      ensures currentCharIndex == old(OperatorAt(currentLine, currentCharIndex, lineNumber).1)
      ensures currentLine == old(currentLine) && lineNumber == old(lineNumber) && currentChar == old(currentChar)
    {
      if currentCharIndex + 1 < |currentLine| {
        var twoCharOp := currentLine[currentCharIndex..currentCharIndex + 2];
        if IsKeyword(twoCharOp) {
          tok := Token(GetTokenType(twoCharOp).value, twoCharOp, lineNumber);
          currentCharIndex := currentCharIndex + 2;
          return;
        }
      }
      var singleCharOp := [currentChar];
      if IsKeyword(singleCharOp) {
        tok := Token(GetTokenType(singleCharOp).value, singleCharOp, lineNumber);
      } else {
        tok := Token(if currentChar == '&' then AND else OR, singleCharOp, lineNumber);
      }
      currentCharIndex := currentCharIndex + 1;
    }

    /** `processMultiLineComment`: skips the opening two characters and everything up to and
        including the closing pair, reading (and counting) further lines while the reader is
        ready; at the end of the input it stops at the end of the last line. The cursor ends
        where `AfterComment` says. */
    method ProcessMultiLineComment(reader: LineReader)
      requires reader.Valid() && currentCharIndex + 2 <= |currentLine|
      modifies this, reader
      ensures reader.Valid()
      ensures Cursor(reader.pos, currentLine, currentCharIndex, lineNumber) == old(AfterComment(reader.lines, Cursor(reader.pos, currentLine, currentCharIndex + 2, lineNumber)))
      ensures currentChar == old(currentChar)
    {
      ghost var target := AfterComment(reader.lines, Cursor(reader.pos, currentLine, currentCharIndex + 2, lineNumber));
      currentCharIndex := currentCharIndex + 2;
      var commentEnd := false;
      while !commentEnd
        invariant reader.Valid() && currentCharIndex <= |currentLine|
        invariant !commentEnd ==> AfterComment(reader.lines, Cursor(reader.pos, currentLine, currentCharIndex, lineNumber)) == target
        invariant commentEnd ==> Cursor(reader.pos, currentLine, currentCharIndex, lineNumber) == target
        invariant currentChar == old(currentChar)
        decreases |reader.lines| - reader.pos, |currentLine| - currentCharIndex, if commentEnd then 0 else 1
      {
        ghost var c := Cursor(reader.pos, currentLine, currentCharIndex, lineNumber);
        if currentCharIndex >= |currentLine| {
          if !reader.Ready() {
            AfterCommentStops(reader.lines, c);
            break;
          }
          AfterCommentReadsOn(reader.lines, c);
          var next := reader.ReadLine();
          currentLine := next.value;
          lineNumber := lineNumber + 1;
          currentCharIndex := 0;
          assert Cursor(reader.pos, currentLine, currentCharIndex, lineNumber) == Cursor(c.pos + 1, reader.lines[c.pos], 0, c.ln + 1);
          continue;
        }
        if currentCharIndex + 1 < |currentLine| && currentLine[currentCharIndex] == '*' && currentLine[currentCharIndex + 1] == '/' {
          AfterCommentCloses(reader.lines, c);
          currentCharIndex := currentCharIndex + 2;
          commentEnd := true;
        } else {
          AfterCommentMoves(reader.lines, c);
          currentCharIndex := currentCharIndex + 1;
          assert Cursor(reader.pos, currentLine, currentCharIndex, lineNumber) == c.(idx := c.idx + 1);
        }
      }
    }
  }

  // ---------------------------------------------------------------------------
  // What `tokenize` produces

  /** The shapes of token the lexer returns. */
  predicate Lexed(t: Token) {
    var w := t.value;
    |w| > 0 &&
    ((IsIdentStart(w[0]) && (forall k :: 0 <= k < |w| ==> IsIdentPart(w[k])) && t.kind == WordKind(w)) ||
     (t.kind == INTCON && forall k :: 0 <= k < |w| ==> IsDigit(w[k])) ||
     (t.kind == STRCON && w[0] == '"' && forall k :: 0 < k < |w| - 1 ==> w[k] != '"') ||
     (GetTokenType(w) == Some(t.kind) && 1 <= |w| <= 2) ||
     (|w| == 1 && !IsKeyword(w) && t.kind == (if w == "&" then AND else OR)))
  }

  /** The token's text occurs in `line`. */
  predicate Found(t: Token, line: string) {
    exists a, b :: 0 <= a <= b <= |line| && line[a..b] == t.value
  }

  /** Every token `tokenize` returns for the lines from `pos` on, counted from `ln`, has one of
      the lexer's shapes, a line number in `[ln, ln + remaining lines)` naming the input line its
      text is found on, and the line numbers never go down. */
  lemma {:induction false} LexIsSound(lines: seq<string>, pos: nat, ln: int)
    requires pos <= |lines|
    ensures var ts := Lex(lines, pos, ln);
      (forall i, j :: 0 <= i < j < |ts| ==> ts[i].lineNumber <= ts[j].lineNumber) &&
      forall t :: t in ts ==>
        Lexed(t) && ln <= t.lineNumber < ln + (|lines| - pos) && Found(t, lines[pos + (t.lineNumber - ln)])
  {
    ScanIsSound(lines, pos, ln);
    TokensAreSound(ScanLines(lines, pos, ln), lines, pos, ln);
  }

  /** The token has a lexer shape, and a line number in range naming the line its text is on. */
  predicate TokenIsSound(t: Token, lines: seq<string>, pos: nat, ln: int)
    requires pos <= |lines|
  {
    Lexed(t) && ln <= t.lineNumber < ln + (|lines| - pos) && Found(t, lines[pos + (t.lineNumber - ln)])
  }

  lemma ItemIsSound(s: Scanned, lines: seq<string>, pos: nat, ln: int)
    requires pos <= |lines|
    requires WellFormed(s) && ln <= s.Line() < ln + (|lines| - pos) && Located(s, lines, ln - pos)
    ensures TokenIsSound(LexerToken(s), lines, pos, ln)
  {
  }

  lemma {:induction false} TokensAreSound(r: seq<Scanned>, lines: seq<string>, pos: nat, ln: int)
    requires pos <= |lines|
    requires Ordered(r)
    requires forall s :: s in r ==> WellFormed(s) && ln <= s.Line() < ln + (|lines| - pos) && Located(s, lines, ln - pos)
    ensures var ts := LexerTokens(r);
      (forall i, j :: 0 <= i < j < |ts| ==> ts[i].lineNumber <= ts[j].lineNumber) &&
      forall t :: t in ts ==> TokenIsSound(t, lines, pos, ln)
  {
    var ts := LexerTokens(r);
    forall i, j | 0 <= i < j < |ts|
      ensures ts[i].lineNumber <= ts[j].lineNumber
    {
      assert ts[i] == LexerToken(r[i]) && ts[j] == LexerToken(r[j]);
    }
    forall t | t in ts
      ensures TokenIsSound(t, lines, pos, ln)
    {
      var i :| 0 <= i < |ts| && ts[i] == t;
      assert r[i] in r;
      ItemIsSound(r[i], lines, pos, ln);
    }
  }

  /** A stray character, one that the scanner files under no other kind, is not an error: it
      becomes a one-character token that is no keyword, of kind `AND` when it is `&` and `OR`
      otherwise. */
  lemma {:induction false} StrayCharactersBecomeTokens(lines: seq<string>, pos: nat, ln: int, i: nat)
    requires pos <= |lines|
    requires i < |ScanLines(lines, pos, ln)| && ScanLines(lines, pos, ln)[i].Stray?
    ensures var t := Lex(lines, pos, ln)[i];
      |t.value| == 1 && !IsKeyword(t.value) && (t.kind == AND <==> t.value == "&") && (t.kind == OR <==> t.value != "&")
  {
    var s := ScanLines(lines, pos, ln)[i];
    ScanIsSound(lines, pos, ln);
    assert s in ScanLines(lines, pos, ln);
  }
}

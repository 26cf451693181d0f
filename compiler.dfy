/** The stand-alone lexical driver (src/Compiler.java). Its `main` reads every line, scans it
    exactly as the `Lexer` class does, and writes for each token the line `"<KIND> <lexeme>"`
    to the token list; a stray `&` or `|` is not a token here but the error `"<line> a"`, and
    any other stray character is dropped. The static fields of the Java class are the fields of
    one `Compiler` object; `main`'s line loop is `Run`, its character loop `ScanLine`, one pass
    of that loop `Step`, and its inline block-comment loop `SkipComment`. */
module Standalone {
  import opened Wrappers
  import opened Chars
  import opened Keywords
  import opened Tokens
  import opened Scanning
  import Lexing
  import Diagnostics

  /** `tokenMap`: the driver's own copy of the keyword table, from lexeme to kind name. */
  function TokenMap(s: string): Option<string> {
    match s
    case "const" => Some("CONSTTK")   case "int" => Some("INTTK")
    case "static" => Some("STATICTK") case "break" => Some("BREAKTK")
    case "continue" => Some("CONTINUETK") case "if" => Some("IFTK")
    case "else" => Some("ELSETK")     case "for" => Some("FORTK")
    case "return" => Some("RETURNTK") case "void" => Some("VOIDTK")
    case "main" => Some("MAINTK")     case "printf" => Some("PRINTFTK")
    case "!" => Some("NOT")   case "&&" => Some("AND")  case "||" => Some("OR")
    case "+" => Some("PLUS")  case "-" => Some("MINU")  case "*" => Some("MULT")
    case "/" => Some("DIV")   case "%" => Some("MOD")
    case "<" => Some("LSS")   case "<=" => Some("LEQ")  case ">" => Some("GRE")
    case ">=" => Some("GEQ")  case "==" => Some("EQL")  case "!=" => Some("NEQ")
    case "=" => Some("ASSIGN")
    case ";" => Some("SEMICN") case "," => Some("COMMA")
    case "(" => Some("LPARENT") case ")" => Some("RPARENT")
    case "[" => Some("LBRACK")  case "]" => Some("RBRACK")
    case "{" => Some("LBRACE")  case "}" => Some("RBRACE")
    case _ => None
  }

  /** The driver's table and the lexer's `keywordMap` have the same keys. */
  lemma TokenMapKeys(s: string)
    ensures TokenMap(s).Some? <==> IsKeyword(s)
  {
  }

  /** Each key maps to the name of the kind `keywordMap` gives it. */
  lemma TokenMapNames(s: string)
    requires IsKeyword(s)
    ensures TokenMap(s) == Some(KindName(GetTokenType(s).value))
  {
    KeySet(s);
    if s in ReservedWords {
      ReservedWordNames(s);
    } else if s in SingleCharacterOperators {
      OperatorNames(s);
    } else if s in Separators {
      SeparatorNames(s);
    } else {
      TwoCharacterNames(s);
    }
  }

  lemma TwoCharacterNames(s: string)
    requires s in TwoCharacterOperators
    ensures TokenMap(s) == Some(KindName(GetTokenType(s).value))
  {
  }

  lemma ReservedWordNames(s: string)
    requires s in ReservedWords
    ensures TokenMap(s) == Some(KindName(GetTokenType(s).value))
  {
  }

  lemma OperatorNames(s: string)
    requires s in SingleCharacterOperators
    ensures TokenMap(s) == Some(KindName(GetTokenType(s).value))
  {
  }

  lemma SeparatorNames(s: string)
    requires s in Separators
    ensures TokenMap(s) == Some(KindName(GetTokenType(s).value))
  {
  }

  /** The line `processIdentifier` writes for the word `w` is the token line of `w`. */
  lemma WordLine(w: string, ln: int)
    ensures (if TokenMap(w).Some? then TokenMap(w).value + " " + w else "IDENFR " + w) == Token(WordKind(w), w, ln).ToString()
  {
    TokenMapKeys(w);
    if IsKeyword(w) {
      TokenMapNames(w);
    } else {
      assert "IDENFR " + w == KindName(IDENFR) + " " + w;
    }
  }

  // ---------------------------------------------------------------------------
  // What the driver writes

  /** What `main` has added to its two lists: the tokens whose lines it wrote (see `Lines`), and
      the line numbers of the errors it reported (see `Messages`). */
  datatype Logs = Logs(tokens: seq<Token>, strays: seq<int>)
  {
    /** These additions followed by `more`. */
    function Then(more: Logs): Logs {
      Logs(tokens + more.tokens, strays + more.strays)
    }
  }

  const NoLogs := Logs([], [])

  /** What one scanned item adds: a token its line `"<KIND> <lexeme>"`; a stray `&` or `|`
      the error `"<line> a"`; any other stray character nothing. */
  function Logged(s: Scanned): Logs {
    match s
    case Emit(t) => Logs([t], [])
    case Stray(c, l) => Logs([], if c == '&' || c == '|' then [l] else [])
  }

  /** The line `"<KIND> <lexeme>"` for each of `ts`, in order. */
  function Lines(ts: seq<Token>): seq<string> {
    seq(|ts|, i requires 0 <= i < |ts| => ts[i].ToString())
  }

  lemma LinesAppend(a: seq<Token>, b: seq<Token>)
    ensures Lines(a + b) == Lines(a) + Lines(b)
  {
  }

  /** The message `"<l> a"` for each line `l` of `strays`, in order. */
  function Messages(strays: seq<int>): seq<string> {
    seq(|strays|, i requires 0 <= i < |strays| => Diagnostics.Entry(strays[i], "a"))
  }

  lemma MessagesAppend(a: seq<int>, b: seq<int>)
    ensures Messages(a + b) == Messages(a) + Messages(b)
  {
  }

  /** What the scanned items `r` add, in order. */
  function Collected(r: seq<Scanned>): Logs {
    if |r| == 0 then NoLogs else Collected(r[..|r| - 1]).Then(Logged(r[|r| - 1]))
  }

  lemma {:induction false} CollectedAppend(a: seq<Scanned>, b: seq<Scanned>)
    ensures Collected(a + b) == Collected(a).Then(Collected(b))
    decreases |b|
  {
    if b == [] {
      assert a + b == a;
    } else {
      CollectedAppend(a, b[..|b| - 1]);
      assert (a + b)[..|a + b| - 1] == a + b[..|b| - 1];
      ThenAssociates(Collected(a), Collected(b[..|b| - 1]), Logged(b[|b| - 1]));
    }
  }

  lemma ThenAssociates(x: Logs, y: Logs, z: Logs)
    ensures x.Then(y).Then(z) == x.Then(y.Then(z))
  {
    assert (x.tokens + y.tokens) + z.tokens == x.tokens + (y.tokens + z.tokens);
    assert (x.strays + y.strays) + z.strays == x.strays + (y.strays + z.strays);
  }

  /** Additions made one after the other are the additions of both. */
  lemma Chain(tokens0: seq<string>, errors0: seq<string>, a: Logs, b: Logs)
    ensures (tokens0 + Lines(a.tokens)) + Lines(b.tokens) == tokens0 + Lines(a.Then(b).tokens)
    ensures (errors0 + Messages(a.strays)) + Messages(b.strays) == errors0 + Messages(a.Then(b).strays)
  {
    LinesAppend(a.tokens, b.tokens);
    MessagesAppend(a.strays, b.strays);
  }

  lemma CollectedOfOne(s: Scanned)
    ensures Collected([s]) == Logged(s)
  {
    assert [s][..0] == [];
  }

  // ---------------------------------------------------------------------------
  // What the additions are

  /** The driver writes a token exactly when the scan emitted it, and reports an error at line
      `l` exactly when the scan met a stray `&` or `|` there; other stray characters leave no
      trace. */
  lemma {:induction false} CollectedMembers(r: seq<Scanned>)
    ensures forall t :: t in Collected(r).tokens <==> Emit(t) in r
    ensures forall l :: l in Collected(r).strays <==> Stray('&', l) in r || Stray('|', l) in r
    decreases |r|
  {
    if |r| > 0 {
      var init, last := r[..|r| - 1], r[|r| - 1];
      CollectedMembers(init);
      assert r == init + [last];
      forall x ensures x in r <==> x in init || x == last {
        assert x in r <==> x in init + [last];
      }
    }
  }

  /** Where the scan met no stray character, the driver writes the lexer's tokens, one line
      each, and reports nothing. */
  lemma {:induction false} AgreesWithLexer(r: seq<Scanned>)
    requires forall s :: s in r ==> s.Emit?
    ensures Collected(r) == Logs(Lexing.LexerTokens(r), [])
    decreases |r|
  {
    if |r| > 0 {
      var init, last := r[..|r| - 1], r[|r| - 1];
      assert r == init + [last];
      forall s | s in init ensures s.Emit? {
        assert s in r;
      }
      AgreesWithLexer(init);
      Lexing.LexerTokensAppend(init, [last]);
    }
  }

  /** Line numbers never go down along `ts`. */
  predicate InLineOrder(ts: seq<Token>) {
    forall i, j :: 0 <= i < j < |ts| ==> ts[i].lineNumber <= ts[j].lineNumber
  }

  predicate Nondecreasing(ls: seq<int>) {
    forall i, j :: 0 <= i < j < |ls| ==> ls[i] <= ls[j]
  }

  /** The driver's writes follow the scan's order of lines: token lines and error lines both
      come in non-decreasing line order. */
  lemma {:induction false} CollectedOrdered(r: seq<Scanned>)
    requires Ordered(r)
    ensures InLineOrder(Collected(r).tokens) && Nondecreasing(Collected(r).strays)
    decreases |r|
  {
    if |r| > 0 {
      var init, last := r[..|r| - 1], r[|r| - 1];
      assert Ordered(init);
      CollectedOrdered(init);
      CollectedMembers(init);
      var before := Collected(init);
      forall t | t in before.tokens ensures t.lineNumber <= last.Line() {
        var k :| 0 <= k < |init| && init[k] == Emit(t);
      }
      forall l | l in before.strays ensures l <= last.Line() {
        var k :| 0 <= k < |init| && (init[k] == Stray('&', l) || init[k] == Stray('|', l));
      }
      var ts, ls := Collected(r).tokens, Collected(r).strays;
      assert ts == before.tokens + Logged(last).tokens && ls == before.strays + Logged(last).strays;
      forall i, j | 0 <= i < j < |ts| ensures ts[i].lineNumber <= ts[j].lineNumber {
        assert ts[i] == before.tokens[i];
        if j >= |before.tokens| {
          assert last.Emit? && ts[j] == last.token;
          assert before.tokens[i] in before.tokens;
        } else {
          assert ts[j] == before.tokens[j];
        }
      }
      forall i, j | 0 <= i < j < |ls| ensures ls[i] <= ls[j] {
        assert ls[i] == before.strays[i];
        if j >= |before.strays| {
          assert last.Stray? && ls[j] == last.lineNumber;
          assert before.strays[i] in before.strays;
        } else {
          assert ls[j] == before.strays[j];
        }
      }
    }
  }

  /** The line of the input a stray `&` or `|` was found on. */
  predicate HasStray(line: string) {
    '&' in line || '|' in line
  }

  /** What the driver adds for the lines from `pos` on, counted from `ln`: every token line is
      one of the lexer's sound tokens (its shape, its line number in range, its text found on
      that line), the token lines come in line order, and every error names a line in range
      that holds a stray `&` or `|`, in line order. */
  lemma RunIsSound(lines: seq<string>, pos: nat, ln: int)
    requires pos <= |lines|
    ensures var logs := Collected(ScanLines(lines, pos, ln));
      InLineOrder(logs.tokens) && Nondecreasing(logs.strays) &&
      (forall t :: t in logs.tokens ==> Lexing.TokenIsSound(t, lines, pos, ln)) &&
      (forall l :: l in logs.strays ==> ln <= l < ln + (|lines| - pos) && HasStray(lines[pos + (l - ln)]))
  {
    var r := ScanLines(lines, pos, ln);
    ScanIsSound(lines, pos, ln);
    CollectedOrdered(r);
    RunTokensAreSound(lines, pos, ln);
    RunErrorsAreFound(lines, pos, ln);
  }

  lemma RunTokensAreSound(lines: seq<string>, pos: nat, ln: int)
    requires pos <= |lines|
    ensures forall t :: t in Collected(ScanLines(lines, pos, ln)).tokens ==> Lexing.TokenIsSound(t, lines, pos, ln)
  {
    var r := ScanLines(lines, pos, ln);
    ScanIsSound(lines, pos, ln);
    CollectedMembers(r);
    forall t | t in Collected(r).tokens ensures Lexing.TokenIsSound(t, lines, pos, ln) {
      Lexing.ItemIsSound(Emit(t), lines, pos, ln);
    }
  }

  lemma RunErrorsAreFound(lines: seq<string>, pos: nat, ln: int)
    requires pos <= |lines|
    ensures forall l :: l in Collected(ScanLines(lines, pos, ln)).strays ==>
      ln <= l < ln + (|lines| - pos) && HasStray(lines[pos + (l - ln)])
  {
    var r := ScanLines(lines, pos, ln);
    ScanIsSound(lines, pos, ln);
    CollectedMembers(r);
    forall l | l in Collected(r).strays ensures ln <= l < ln + (|lines| - pos) && HasStray(lines[pos + (l - ln)]) {
      var c := if Stray('&', l) in r then '&' else '|';
      StrayIsFound(Stray(c, l), lines, ln - pos);
    }
  }

  lemma StrayIsFound(s: Scanned, lines: seq<string>, base: int)
    requires s.Stray? && Located(s, lines, base)
    ensures s.ch in lines[s.lineNumber - base]
  {
    var line := lines[s.lineNumber - base];
    var a, b :| 0 <= a <= b <= |line| && line[a..b] == s.Text();
    assert line[a..b][0] == line[a];
  }

  /** The errors of a run come out already sorted as `sortErrorsByLineNumber` would sort them,
      whenever their line numbers fit in an `int`: each message reads back to its line. */
  lemma MessagesAreSorted(strays: seq<int>)
    requires Nondecreasing(strays) && forall l :: l in strays ==> Diagnostics.IsInt32(l)
    ensures Diagnostics.SortedByLine(Diagnostics.ExtractLineNumber, Messages(strays))
    ensures Diagnostics.SortByLine(Diagnostics.ExtractLineNumber, Messages(strays)) == Messages(strays)
  {
    var m := Messages(strays);
    forall i | 0 <= i < |m| ensures Diagnostics.ExtractLineNumber(m[i]) == strays[i] {
      Diagnostics.ExtractLineNumberOfEntry(strays[i], "a");
    }
    Diagnostics.SortByLineIsTheStableSort(Diagnostics.ExtractLineNumber, m, m);
  }

  // ---------------------------------------------------------------------------
  // The driver

  class Compiler {
    var outputTokens: seq<string>
    var errorMessages: seq<string>
    var lineNumber: int
    var currentCharIndex: nat
    var currentLine: string
    var currentChar: char

    /** The two lists are `tokens0` and `errors0` followed by what `logs` records. */
    ghost predicate Extends(tokens0: seq<string>, errors0: seq<string>, logs: Logs)
      reads this
    {
      outputTokens == tokens0 + Lines(logs.tokens) && errorMessages == errors0 + Messages(logs.strays)
    }

    /** The initial values of the static fields. */
    constructor ()
      ensures outputTokens == [] && errorMessages == []
      ensures lineNumber == 1 && currentCharIndex == 0 && currentLine == "" && currentChar == '\0'
    {
      outputTokens, errorMessages := [], [];
      lineNumber, currentCharIndex, currentLine, currentChar := 1, 0, "", '\0';
    }

    /** The scan loop of `main`: every remaining line of `reader` is scanned; the token list and
        the error list grow by what the scan of those lines gives. */
    method Run(reader: Lexing.LineReader)
      requires reader.Valid()
      modifies this, reader
      ensures reader.Valid() && reader.pos == |reader.lines|
      ensures Extends(old(outputTokens), old(errorMessages), Collected(ScanLines(reader.lines, old(reader.pos), old(lineNumber))))
      ensures lineNumber == old(lineNumber) + (|reader.lines| - old(reader.pos))
    {
      ghost var lines, pos0, ln0 := reader.lines, reader.pos, lineNumber;
      ghost var tokens0, errors0 := outputTokens, errorMessages;
      ghost var total := ScanLines(lines, pos0, ln0);
      ghost var done: seq<Scanned> := [];
      while true
        invariant reader.Valid() && reader.lines == lines && pos0 <= reader.pos
        invariant Extends(tokens0, errors0, Collected(done))
        invariant done + ScanLines(lines, reader.pos, lineNumber) == total
        invariant lineNumber == ln0 + (reader.pos - pos0)
        decreases |lines| - reader.pos
      {
        var line := reader.ReadLine();
        if line.None? {
          ScanLinesStops(lines, lineNumber);
          assert done + [] == done;
          break;
        }
        var items := ScanNext(reader, line.value);
        CollectedAppend(done, items);
        Chain(tokens0, errors0, Collected(done), Collected(items));
        done := done + items;
      }
    }

    /** The body of the line loop of `main`: the line `text` just read is scanned from column 0
        and then counted. */
    method ScanNext(reader: Lexing.LineReader, text: string) returns (ghost items: seq<Scanned>)
      requires reader.Valid() && 1 <= reader.pos && text == reader.lines[reader.pos - 1]
      modifies this, reader
      ensures reader.Valid() && old(reader.pos) <= reader.pos
      ensures lineNumber == old(lineNumber) + (reader.pos - old(reader.pos)) + 1
      ensures Extends(old(outputTokens), old(errorMessages), Collected(items))
      ensures old(ScanLines(reader.lines, reader.pos - 1, lineNumber)) == items + ScanLines(reader.lines, reader.pos, lineNumber)
    {
      currentLine := text;
      currentCharIndex := 0;
      items := ScanLine(reader);
      lineNumber := lineNumber + 1;
    }

    /** The character loop of `main`: scans the line just read from column 0 (and further
        lines while a block comment runs on), up to the end of a line or a line comment.
        `items` are what it scanned; the rest of the input is what the line loop reads next. */
    method ScanLine(reader: Lexing.LineReader) returns (ghost items: seq<Scanned>)
      requires reader.Valid() && 1 <= reader.pos && currentLine == reader.lines[reader.pos - 1] && currentCharIndex == 0
      modifies this, reader
      ensures reader.Valid() && old(reader.pos) <= reader.pos && OnLine(reader.lines, Cursor(reader.pos, currentLine, currentCharIndex, lineNumber))
      ensures lineNumber == old(lineNumber) + (reader.pos - old(reader.pos))
      ensures Extends(old(outputTokens), old(errorMessages), Collected(items))
      ensures old(ScanLines(reader.lines, reader.pos - 1, lineNumber)) == items + ScanLines(reader.lines, reader.pos, lineNumber + 1)
    {
      ScanLinesReads(reader.lines, reader.pos - 1, lineNumber);
      ghost var lines, pos0, ln0 := reader.lines, reader.pos, lineNumber;
      ghost var tokens0, errors0 := outputTokens, errorMessages;
      ghost var total := ScanFrom(lines, Cursor(reader.pos, currentLine, currentCharIndex, lineNumber));
      items := [];
      while currentCharIndex < |currentLine|
        invariant reader.Valid() && reader.lines == lines && pos0 <= reader.pos
        invariant OnLine(lines, Cursor(reader.pos, currentLine, currentCharIndex, lineNumber))
        invariant lineNumber == ln0 + (reader.pos - pos0)
        invariant Extends(tokens0, errors0, Collected(items))
        invariant items + ScanFrom(lines, Cursor(reader.pos, currentLine, currentCharIndex, lineNumber)) == total
        decreases |lines| - reader.pos, |currentLine| - currentCharIndex
      {
        ghost var c := Cursor(reader.pos, currentLine, currentCharIndex, lineNumber);
        ghost var p := Advance(lines, c);
        var lineDone := Step(reader);
        if lineDone {
          ScanFromLineComment(lines, c);
          return;
        }
        assert Ahead(lines, c, p.next);
        assert OnLine(lines, p.next);
        ScanFromPass(lines, c);
        CollectedAppend(items, p.items);
        Chain(tokens0, errors0, Collected(items), Collected(p.items));
        Regroup(items, p.items, ScanFrom(lines, p.next));
        items := items + p.items;
      }
      ScanFromEndOfLine(lines, Cursor(reader.pos, currentLine, currentCharIndex, lineNumber));
    }

    /** One pass of the character loop at a column inside the line; what it writes and where it
        leaves the cursor are what `Advance` says. */
    method Step(reader: Lexing.LineReader) returns (lineDone: bool)
      requires reader.Valid() && OnLine(reader.lines, Cursor(reader.pos, currentLine, currentCharIndex, lineNumber))
      requires currentCharIndex < |currentLine|
      modifies this, reader
      ensures reader.Valid()
      ensures var p := old(Advance(reader.lines, Cursor(reader.pos, currentLine, currentCharIndex, lineNumber)));
        lineDone == p.lineDone &&
        Extends(old(outputTokens), old(errorMessages), Collected(p.items)) &&
        Cursor(reader.pos, currentLine, currentCharIndex, lineNumber) == p.next
    {
      ghost var p := Advance(reader.lines, Cursor(reader.pos, currentLine, currentCharIndex, lineNumber));
      if |p.items| == 1 {
        CollectedOfOne(p.items[0]);
      }
      lineDone := false;
      currentChar := currentLine[currentCharIndex];
      if IsWhitespace(currentChar) {
        currentCharIndex := currentCharIndex + 1;
      } else if IsIdentStart(currentChar) {
        ProcessIdentifier();
      } else if IsDigit(currentChar) {
        ProcessNumber();
      } else if currentChar == '"' {
        ProcessString();
      } else if currentChar == '/' && currentCharIndex + 1 < |currentLine| && currentLine[currentCharIndex + 1] == '/' {
        lineDone := true;
      } else if currentChar == '/' && currentCharIndex + 1 < |currentLine| && currentLine[currentCharIndex + 1] == '*' {
        SkipComment(reader);
      } else {
        ProcessOperator();
      }
    }

    /** The block-comment loop of `main`: skips the opening pair and everything through the closing pair,
        reading (and counting) further lines while the reader is ready. */
    method SkipComment(reader: Lexing.LineReader)
      requires reader.Valid() && currentCharIndex + 2 <= |currentLine|
      modifies this, reader
      ensures reader.Valid()
      ensures Cursor(reader.pos, currentLine, currentCharIndex, lineNumber) == old(AfterComment(reader.lines, Cursor(reader.pos, currentLine, currentCharIndex + 2, lineNumber)))
      ensures outputTokens == old(outputTokens) && errorMessages == old(errorMessages)
    {
      ghost var target := AfterComment(reader.lines, Cursor(reader.pos, currentLine, currentCharIndex + 2, lineNumber));
      currentCharIndex := currentCharIndex + 2;
      var commentEnd := false;
      while !commentEnd
        invariant reader.Valid() && currentCharIndex <= |currentLine|
        invariant !commentEnd ==> AfterComment(reader.lines, Cursor(reader.pos, currentLine, currentCharIndex, lineNumber)) == target
        invariant commentEnd ==> Cursor(reader.pos, currentLine, currentCharIndex, lineNumber) == target
        invariant outputTokens == old(outputTokens) && errorMessages == old(errorMessages)
        decreases |reader.lines| - reader.pos, |currentLine| - currentCharIndex, if commentEnd then 0 else 1
      {
        ghost var c := Cursor(reader.pos, currentLine, currentCharIndex, lineNumber);
        if currentCharIndex >= |currentLine| {
          if !reader.Ready() {
            AfterCommentStops(reader.lines, c);
            break;
          }
          AfterCommentReadsOn(reader.lines, c);
          var next := reader.ReadLine();
          currentLine := next.value;
          lineNumber := lineNumber + 1;
          currentCharIndex := 0;
          assert Cursor(reader.pos, currentLine, currentCharIndex, lineNumber) == Cursor(c.pos + 1, reader.lines[c.pos], 0, c.ln + 1);
          continue;
        }
        if currentLine[currentCharIndex] == '*' && currentCharIndex + 1 < |currentLine| && currentLine[currentCharIndex + 1] == '/' {
          AfterCommentCloses(reader.lines, c);
          currentCharIndex := currentCharIndex + 2;
          commentEnd := true;
        } else {
          AfterCommentMoves(reader.lines, c);
          currentCharIndex := currentCharIndex + 1;
          assert Cursor(reader.pos, currentLine, currentCharIndex, lineNumber) == c.(idx := c.idx + 1);
        }
      }
    }

    /** `processIdentifier`: the longest run of letters, digits and `_`; writes the table's kind
        name for a key and `IDENFR` otherwise, then the word. */
    method ProcessIdentifier()
      requires currentCharIndex < |currentLine| && currentChar == currentLine[currentCharIndex]
      requires IsIdentStart(currentChar)
      modifies this
      ensures var (t, j) := old(IdentifierAt(currentLine, currentCharIndex, lineNumber));
        outputTokens == old(outputTokens) + [t.ToString()] && currentCharIndex == j
      ensures currentLine == old(currentLine) && lineNumber == old(lineNumber) && errorMessages == old(errorMessages)
    {
      var sb := ReadWord();
      WordLine(sb, lineNumber);
      if TokenMap(sb).Some? {
        outputTokens := outputTokens + [TokenMap(sb).value + " " + sb];
      } else {
        outputTokens := outputTokens + ["IDENFR " + sb];
      }
    }

    /** The loop of `processIdentifier`: collects the word at the cursor and moves past it. */
    method ReadWord() returns (sb: string)
      requires currentCharIndex < |currentLine| && currentChar == currentLine[currentCharIndex]
      modifies this
      ensures var j := old(IdentEnd(currentLine, currentCharIndex + 1));
        sb == old(currentLine[currentCharIndex..j]) && currentCharIndex == j
      ensures currentLine == old(currentLine) && lineNumber == old(lineNumber)
      ensures outputTokens == old(outputTokens) && errorMessages == old(errorMessages)
    {
      ghost var line, i0 := currentLine, currentCharIndex;
      sb := [currentChar];
      currentCharIndex := currentCharIndex + 1;
      while currentCharIndex < |currentLine|
        invariant currentLine == line && lineNumber == old(lineNumber) && outputTokens == old(outputTokens)
        invariant errorMessages == old(errorMessages)
        invariant i0 < currentCharIndex <= |line|
        invariant sb == line[i0..currentCharIndex]
        invariant IdentEnd(line, currentCharIndex) == IdentEnd(line, i0 + 1)
      {
        currentChar := currentLine[currentCharIndex];
        if IsIdentPart(currentChar) {
          assert line[i0..currentCharIndex + 1] == sb + [currentChar];
          sb := sb + [currentChar];
          currentCharIndex := currentCharIndex + 1;
        } else {
          break;
        }
      }
    }

    /** `processNumber`: the longest run of digits, written as an INTCON. */
    method ProcessNumber()
      requires currentCharIndex < |currentLine| && currentChar == currentLine[currentCharIndex]
      requires IsDigit(currentChar)
      modifies this
      ensures var (t, j) := old(NumberAt(currentLine, currentCharIndex, lineNumber));
        outputTokens == old(outputTokens) + [t.ToString()] && currentCharIndex == j
      ensures currentLine == old(currentLine) && lineNumber == old(lineNumber) && errorMessages == old(errorMessages)
    {
      var sb := ReadDigits();
      assert "INTCON " + sb == KindName(INTCON) + " " + sb;
      outputTokens := outputTokens + ["INTCON " + sb];
    }

    /** The loop of `processNumber`: collects the digits at the cursor and moves past them. */
    method ReadDigits() returns (sb: string)
      requires currentCharIndex < |currentLine| && currentChar == currentLine[currentCharIndex]
      modifies this
      ensures var j := old(DigitsEnd(currentLine, currentCharIndex + 1));
        sb == old(currentLine[currentCharIndex..j]) && currentCharIndex == j
      ensures currentLine == old(currentLine) && lineNumber == old(lineNumber)
      ensures outputTokens == old(outputTokens) && errorMessages == old(errorMessages)
    {
      ghost var line, i0 := currentLine, currentCharIndex;
      sb := [currentChar];
      currentCharIndex := currentCharIndex + 1;
      while currentCharIndex < |currentLine|
        invariant currentLine == line && lineNumber == old(lineNumber) && outputTokens == old(outputTokens)
        invariant errorMessages == old(errorMessages)
        invariant i0 < currentCharIndex <= |line|
        invariant sb == line[i0..currentCharIndex]
        invariant DigitsEnd(line, currentCharIndex) == DigitsEnd(line, i0 + 1)
      {
        currentChar := currentLine[currentCharIndex];
        if IsDigit(currentChar) {
          assert line[i0..currentCharIndex + 1] == sb + [currentChar];
          sb := sb + [currentChar];
          currentCharIndex := currentCharIndex + 1;
        } else {
          break;
        }
      }
    }

    /** `processString`: from the opening quote through the next one, or to the end of the
        line, written as a STRCON. */
    method ProcessString()
      requires currentCharIndex < |currentLine| && currentChar == currentLine[currentCharIndex]
      requires currentChar == '"'
      modifies this
      ensures var (t, j) := old(StringAt(currentLine, currentCharIndex, lineNumber));
        outputTokens == old(outputTokens) + [t.ToString()] && currentCharIndex == j
      ensures currentLine == old(currentLine) && lineNumber == old(lineNumber) && errorMessages == old(errorMessages)
    {
      var sb := ReadQuoted();
      assert "STRCON " + sb == KindName(STRCON) + " " + sb;
      outputTokens := outputTokens + ["STRCON " + sb];
    }

    /** The loop of `processString`: collects the text from the quote at the cursor through the
        next quote, or to the end of the line, and moves past it. */
    method ReadQuoted() returns (sb: string)
      requires currentCharIndex < |currentLine| && currentChar == currentLine[currentCharIndex]
      modifies this
      ensures var j := old(StringEnd(currentLine, currentCharIndex + 1));
        sb == old(currentLine[currentCharIndex..j]) && currentCharIndex == j
      ensures currentLine == old(currentLine) && lineNumber == old(lineNumber)
      ensures outputTokens == old(outputTokens) && errorMessages == old(errorMessages)
    {
      ghost var line, i0 := currentLine, currentCharIndex;
      sb := [currentChar];
      currentCharIndex := currentCharIndex + 1;
      while currentCharIndex < |currentLine|
        invariant currentLine == line && lineNumber == old(lineNumber) && outputTokens == old(outputTokens)
        invariant errorMessages == old(errorMessages)
        invariant i0 < currentCharIndex <= |line|
        invariant sb == line[i0..currentCharIndex]
        invariant StringEnd(line, currentCharIndex) == StringEnd(line, i0 + 1)
      {
        currentChar := currentLine[currentCharIndex];
        assert line[i0..currentCharIndex + 1] == sb + [currentChar];
        sb := sb + [currentChar];
        currentCharIndex := currentCharIndex + 1;
        if currentChar == '"' {
          assert StringEnd(line, currentCharIndex - 1) == currentCharIndex;
          break;
        }
      }
    }

    /** `processOperator`: a two-character key, else a one-character key, written with the
        table's kind name; a stray `&` or `|` reports error `a` at the current line, and any
        other stray character is skipped. The second test of `&` and `|` in the last branch
        can never succeed and is not modelled. */
    method ProcessOperator()
      requires currentCharIndex < |currentLine| && currentChar == currentLine[currentCharIndex]
      modifies this
      ensures var (s, j) := old(OperatorAt(currentLine, currentCharIndex, lineNumber));
        Extends(old(outputTokens), old(errorMessages), Logged(s)) &&
        currentCharIndex == j
      ensures currentLine == old(currentLine) && lineNumber == old(lineNumber) && currentChar == old(currentChar)
    {
      if currentCharIndex + 1 < |currentLine| {
        var twoCharOp := currentLine[currentCharIndex..currentCharIndex + 2];
        TokenMapKeys(twoCharOp);
        if TokenMap(twoCharOp).Some? {
          TokenMapNames(twoCharOp);
          outputTokens := outputTokens + [TokenMap(twoCharOp).value + " " + twoCharOp];
          currentCharIndex := currentCharIndex + 2;
          return;
        }
      }
      var singleCharOp := [currentChar];
      TokenMapKeys(singleCharOp);
      if TokenMap(singleCharOp).Some? {
        TokenMapNames(singleCharOp);
        outputTokens := outputTokens + [TokenMap(singleCharOp).value + " " + singleCharOp];
        currentCharIndex := currentCharIndex + 1;
      } else if currentChar == '&' || currentChar == '|' {
        errorMessages := errorMessages + Messages([lineNumber]);
        currentCharIndex := currentCharIndex + 1;
      } else {
        currentCharIndex := currentCharIndex + 1;
      }
    }
  }
}

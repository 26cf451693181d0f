/** The parser's output trace (src/parser/Parser.java, `outputToken` and `outputSyntaxNode`),
    described as a function of the tree a production builds.

    A production writes, in order, the trace of each child and, at the end, the line
    `<Name>` (nothing for `BlockItem`, `Decl` and `BType`). The six binary-operator
    productions differ: they write `<Name>` right after each operand and not at the end, so a
    node with children `e0 op1 e1 ... opn en` writes it n+1 times.

    A trace is kept as a sequence of `Line`s, each remembering which of the two writers produced
    it; `Text` gives the string that writer put in the file. The properties are proved on lines
    and carried over to the written text by `TerminalTexts`, `TextsMember` and `CountTexts`. */
module Trace {
  import opened Wrappers
  import opened Keywords
  import opened Tokens
  import opened SyntaxTree

  /** The node names `outputSyntaxNode` does not write. */
  predicate Suppressed(p: Production) {
    p.BlockItem? || p.Decl? || p.BType?
  }

  /** The productions that write their name once per operand. */
  predicate BinaryFamily(p: Production) {
    p.AddExp? || p.MulExp? || p.RelExp? || p.EqExp? || p.LAndExp? || p.LOrExp?
  }

  /** One line of the parser's output: `outputToken` of a token, or `outputSyntaxNode` of a
      node named `name`. */
  datatype Line = Echo(token: Token) | Reduced(name: Production)

  /** The string the line puts in the output file. */
  function Text(line: Line): string {
    match line
    case Echo(tok) => tok.ToString()
    case Reduced(name) => "<" + Name(name) + ">"
  }

  /** The written text of a trace, line by line. */
  function Texts(trace: seq<Line>): (r: seq<string>)
    ensures |r| == |trace|
  {
    if trace == [] then [] else Texts(trace[..|trace| - 1]) + [Text(trace[|trace| - 1])]
  }

  /** What `outputSyntaxNode` writes for a node named `name`. */
  function Reduction(name: Production): seq<Line> {
    if Suppressed(name) then [] else [Reduced(name)]
  }

  /** What a node named `name` writes right after its child `k`: a binary production writes its
      name after each operand (operands sit at even positions); other productions nothing. */
  function After(name: Production, k: nat): seq<Line> {
    if BinaryFamily(name) && k % 2 == 0 then [Reduced(name)] else []
  }

  /** What a node writes once all its children are in place: the final `outputSyntaxNode` of an
      ordinary production; nothing more for a binary one, whose last operand already wrote it. */
  function Closing(name: Production): seq<Line> {
    if BinaryFamily(name) then [] else Reduction(name)
  }

  /** The trace of a subtree. */
  function Emission(t: Tree): seq<Line>
    decreases t
  {
    match t
    case Leaf(tok) => [Echo(tok)]
    case Interior(name, cs) => Body(name, cs, |cs|) + Closing(name)
  }

  /** The trace a node named `name` has written once its first `n` children `cs[..n]` are in place. */
  function Body(name: Production, cs: seq<Tree>, n: nat): seq<Line>
    requires n <= |cs|
    decreases cs, n
  {
    if n == 0 then []
    else Body(name, cs, n - 1) + Emission(cs[n - 1]) + After(name, n - 1)
  }

  /** The tokens below a subtree, left to right. */
  function Frontier(t: Tree): seq<Token>
    decreases t
  {
    match t
    case Leaf(tok) => [tok]
    case Interior(_, cs) => Frontiers(cs, |cs|)
  }

  /** The tokens below the first `n` trees of `cs`. */
  function Frontiers(cs: seq<Tree>, n: nat): seq<Token>
    requires n <= |cs|
    decreases cs, n
  {
    if n == 0 then [] else Frontiers(cs, n - 1) + Frontier(cs[n - 1])
  }

  /** The tokens a trace echoes, in order. */
  function Echoes(trace: seq<Line>): seq<Token> {
    if trace == [] then []
    else Echoes(trace[..|trace| - 1]) + (match trace[|trace| - 1] case Echo(tok) => [tok] case Reduced(_) => [])
  }

  /** A written line that `outputSyntaxNode` produced rather than `outputToken`: it starts with `<`. */
  predicate IsNameLine(line: string) {
    |line| > 0 && line[0] == '<'
  }

  /** The written lines that do not start with `<`, in order. */
  function TerminalLines(text: seq<string>): seq<string> {
    if text == [] then []
    else TerminalLines(text[..|text| - 1]) + (if IsNameLine(text[|text| - 1]) then [] else [text[|text| - 1]])
  }

  /** `toString` of each token, in order. */
  function Renders(ts: seq<Token>): seq<string> {
    if ts == [] then [] else Renders(ts[..|ts| - 1]) + [ts[|ts| - 1].ToString()]
  }

  /** How often `x` occurs in `s`. */
  function Count<T(==)>(x: T, s: seq<T>): nat {
    if s == [] then 0 else Count(x, s[..|s| - 1]) + (if s[|s| - 1] == x then 1 else 0)
  }

  // ---------------------------------------------------------------------------
  // Distribution over concatenation

  lemma {:induction false} TextsAppend(a: seq<Line>, b: seq<Line>)
    ensures Texts(a + b) == Texts(a) + Texts(b)
    decreases |b|
  {
    if b == [] {
      assert a + b == a;
    } else {
      var lead := b[..|b| - 1];
      assert (a + b)[..|a + b| - 1] == a + lead && (a + b)[|a + b| - 1] == b[|b| - 1];
      assert Texts(a + b) == Texts(a + lead) + [Text(b[|b| - 1])];
      TextsAppend(a, lead);
    }
  }

  lemma {:induction false} EchoesAppend(a: seq<Line>, b: seq<Line>)
    ensures Echoes(a + b) == Echoes(a) + Echoes(b)
    decreases |b|
  {
    if b == [] {
      assert a + b == a;
    } else {
      EchoesAppend(a, b[..|b| - 1]);
      assert (a + b)[..|a + b| - 1] == a + b[..|b| - 1];
    }
  }

  lemma {:induction false} TerminalLinesAppend(a: seq<string>, b: seq<string>)
    ensures TerminalLines(a + b) == TerminalLines(a) + TerminalLines(b)
    decreases |b|
  {
    if b == [] {
      assert a + b == a;
    } else {
      TerminalLinesAppend(a, b[..|b| - 1]);
      assert (a + b)[..|a + b| - 1] == a + b[..|b| - 1];
    }
  }

  lemma {:induction false} RendersAppend(a: seq<Token>, b: seq<Token>)
    ensures Renders(a + b) == Renders(a) + Renders(b)
    decreases |b|
  {
    if b == [] {
      assert a + b == a;
    } else {
      RendersAppend(a, b[..|b| - 1]);
      assert (a + b)[..|a + b| - 1] == a + b[..|b| - 1];
    }
  }

  lemma {:induction false} CountAppend<T>(x: T, a: seq<T>, b: seq<T>)
    ensures Count(x, a + b) == Count(x, a) + Count(x, b)
    decreases |b|
  {
    if b == [] {
      assert a + b == a;
    } else {
      CountAppend(x, a, b[..|b| - 1]);
      assert (a + b)[..|a + b| - 1] == a + b[..|b| - 1];
    }
  }

  /** Adding a child extends the body by the child's trace and, in a binary production, the
      name line that follows an operand; the frontier grows by the child's frontier. */
  lemma BodySnoc(name: Production, cs: seq<Tree>, c: Tree)
    ensures Body(name, cs + [c], |cs| + 1) == Body(name, cs, |cs|) + Emission(c) + After(name, |cs|)
    ensures Frontiers(cs + [c], |cs| + 1) == Frontiers(cs, |cs|) + Frontier(c)
  {
    Prefix(name, cs, [c], |cs|);
    assert (cs + [c])[|cs|] == c;
  }

  /** `BodySnoc` for a trace that holds the body of `cs` after `trace0` and then the lines a new
      last child `c` adds. */
  lemma Grow(name: Production, cs: seq<Tree>, c: Tree, trace0: seq<Line>, written: seq<Line>, trace: seq<Line>)
    requires written == trace0 + Body(name, cs, |cs|)
    requires trace == written + Emission(c) + After(name, |cs|)
    ensures trace == trace0 + Body(name, cs + [c], |cs| + 1)
    ensures Frontiers(cs + [c], |cs| + 1) == Frontiers(cs, |cs|) + Frontier(c)
  {
    BodySnoc(name, cs, c);
    Regroup(trace0, Body(name, cs, |cs|), Emission(c) + After(name, |cs|));
    Regroup(Body(name, cs, |cs|), Emission(c), After(name, |cs|));
  }

  /** The body and the frontier of the first `k` children do not see the children after them. */
  lemma {:induction false} Prefix(name: Production, cs: seq<Tree>, ds: seq<Tree>, k: nat)
    requires k <= |cs|
    ensures Body(name, cs + ds, k) == Body(name, cs, k)
    ensures Frontiers(cs + ds, k) == Frontiers(cs, k)
    decreases k
  {
    if k > 0 {
      Prefix(name, cs, ds, k - 1);
      assert (cs + ds)[k - 1] == cs[k - 1];
    }
  }

  // ---------------------------------------------------------------------------
  // From lines to the written text

  /** A character of `s`, or a blank past its end. */
  function CharAt(s: string, i: nat): char {
    if i < |s| then s[i] else ' '
  }

  /** The length of a name and five of its characters: enough to tell the names apart. */
  function Key(s: string): (nat, char, char, char, char, char) {
    (|s|, CharAt(s, 0), CharAt(s, 1), CharAt(s, 2), CharAt(s, 4), CharAt(s, 5))
  }

  /** The production whose name has key `k`. */
  function FromKey(k: (nat, char, char, char, char, char)): Production {
    if k == (8, 'C', 'o', 'm', 'U', 'n') then CompUnit
    else if k == (4, 'D', 'e', 'c', ' ', ' ') then Decl
    else if k == (9, 'C', 'o', 'n', 't', 'D') then ConstDecl
    else if k == (5, 'B', 'T', 'y', 'e', ' ') then BType
    else if k == (8, 'C', 'o', 'n', 't', 'D') then ConstDef
    else if k == (12, 'C', 'o', 'n', 't', 'I') then ConstInitVal
    else if k == (7, 'V', 'a', 'r', 'e', 'c') then VarDecl
    else if k == (6, 'V', 'a', 'r', 'e', 'f') then VarDef
    else if k == (7, 'I', 'n', 'i', 'V', 'a') then InitVal
    else if k == (7, 'F', 'u', 'n', 'D', 'e') then FuncDef
    else if k == (11, 'M', 'a', 'i', 'F', 'u') then MainFuncDef
    else if k == (8, 'F', 'u', 'n', 'T', 'y') then FuncType
    else if k == (11, 'F', 'u', 'n', 'F', 'P') then FuncFParams
    else if k == (10, 'F', 'u', 'n', 'F', 'P') then FuncFParam
    else if k == (5, 'B', 'l', 'o', 'k', ' ') then Block
    else if k == (9, 'B', 'l', 'o', 'k', 'I') then BlockItem
    else if k == (4, 'S', 't', 'm', ' ', ' ') then Stmt
    else if k == (7, 'F', 'o', 'r', 't', 'm') then ForStmt
    else if k == (3, 'E', 'x', 'p', ' ', ' ') then Exp
    else if k == (4, 'C', 'o', 'n', ' ', ' ') then Cond
    else if k == (4, 'L', 'V', 'a', ' ', ' ') then LVal
    else if k == (10, 'P', 'r', 'i', 'a', 'r') then PrimaryExp
    else if k == (6, 'N', 'u', 'm', 'e', 'r') then Number
    else if k == (8, 'U', 'n', 'a', 'y', 'E') then UnaryExp
    else if k == (7, 'U', 'n', 'a', 'y', 'O') then UnaryOp
    else if k == (11, 'F', 'u', 'n', 'R', 'P') then FuncRParams
    else if k == (6, 'M', 'u', 'l', 'x', 'p') then MulExp
    else if k == (6, 'A', 'd', 'd', 'x', 'p') then AddExp
    else if k == (6, 'R', 'e', 'l', 'x', 'p') then RelExp
    else if k == (5, 'E', 'q', 'E', 'p', ' ') then EqExp
    else if k == (7, 'L', 'A', 'n', 'E', 'x') then LAndExp
    else if k == (6, 'L', 'O', 'r', 'x', 'p') then LOrExp
    else ConstExp
  }

  lemma FromKeyOfName(p: Production)
    ensures FromKey(Key(Name(p))) == p
  {
    match p
    case CompUnit => assert Key(Name(p)) == (8, 'C', 'o', 'm', 'U', 'n');
    case Decl => assert Key(Name(p)) == (4, 'D', 'e', 'c', ' ', ' ');
    case ConstDecl => assert Key(Name(p)) == (9, 'C', 'o', 'n', 't', 'D');
    case BType => assert Key(Name(p)) == (5, 'B', 'T', 'y', 'e', ' ');
    case ConstDef => assert Key(Name(p)) == (8, 'C', 'o', 'n', 't', 'D');
    case ConstInitVal => assert Key(Name(p)) == (12, 'C', 'o', 'n', 't', 'I');
    case VarDecl => assert Key(Name(p)) == (7, 'V', 'a', 'r', 'e', 'c');
    case VarDef => assert Key(Name(p)) == (6, 'V', 'a', 'r', 'e', 'f');
    case InitVal => assert Key(Name(p)) == (7, 'I', 'n', 'i', 'V', 'a');
    case FuncDef => assert Key(Name(p)) == (7, 'F', 'u', 'n', 'D', 'e');
    case MainFuncDef => assert Key(Name(p)) == (11, 'M', 'a', 'i', 'F', 'u');
    case FuncType => assert Key(Name(p)) == (8, 'F', 'u', 'n', 'T', 'y');
    case FuncFParams => assert Key(Name(p)) == (11, 'F', 'u', 'n', 'F', 'P');
    case FuncFParam => assert Key(Name(p)) == (10, 'F', 'u', 'n', 'F', 'P');
    case Block => assert Key(Name(p)) == (5, 'B', 'l', 'o', 'k', ' ');
    case BlockItem => assert Key(Name(p)) == (9, 'B', 'l', 'o', 'k', 'I');
    case Stmt => assert Key(Name(p)) == (4, 'S', 't', 'm', ' ', ' ');
    case ForStmt => assert Key(Name(p)) == (7, 'F', 'o', 'r', 't', 'm');
    case Exp => assert Key(Name(p)) == (3, 'E', 'x', 'p', ' ', ' ');
    case Cond => assert Key(Name(p)) == (4, 'C', 'o', 'n', ' ', ' ');
    case LVal => assert Key(Name(p)) == (4, 'L', 'V', 'a', ' ', ' ');
    case PrimaryExp => assert Key(Name(p)) == (10, 'P', 'r', 'i', 'a', 'r');
    case Number => assert Key(Name(p)) == (6, 'N', 'u', 'm', 'e', 'r');
    case UnaryExp => assert Key(Name(p)) == (8, 'U', 'n', 'a', 'y', 'E');
    case UnaryOp => assert Key(Name(p)) == (7, 'U', 'n', 'a', 'y', 'O');
    case FuncRParams => assert Key(Name(p)) == (11, 'F', 'u', 'n', 'R', 'P');
    case MulExp => assert Key(Name(p)) == (6, 'M', 'u', 'l', 'x', 'p');
    case AddExp => assert Key(Name(p)) == (6, 'A', 'd', 'd', 'x', 'p');
    case RelExp => assert Key(Name(p)) == (6, 'R', 'e', 'l', 'x', 'p');
    case EqExp => assert Key(Name(p)) == (5, 'E', 'q', 'E', 'p', ' ');
    case LAndExp => assert Key(Name(p)) == (7, 'L', 'A', 'n', 'E', 'x');
    case LOrExp => assert Key(Name(p)) == (6, 'L', 'O', 'r', 'x', 'p');
    case ConstExp => assert Key(Name(p)) == (8, 'C', 'o', 'n', 't', 'E');
  }

  /** Distinct productions have distinct names, so a written `<Name>` line says which
      production wrote it. */
  lemma NamesDiffer(p: Production, q: Production)
    ensures Name(p) == Name(q) <==> p == q
  {
    FromKeyOfName(p);
    FromKeyOfName(q);
  }

  /** A line reads `<s>` exactly when it is the name line of `s`: a token's `toString` never
      starts with `<`, and names are distinct. */
  lemma TextNames(line: Line, s: Production)
    ensures Text(line) == "<" + Name(s) + ">" <==> line == Reduced(s)
  {
    match line
    case Echo(tok) =>
      ToStringIsNotAMarker(tok);
      assert ("<" + Name(s) + ">")[0] == '<';
    case Reduced(name) =>
      if Text(line) == "<" + Name(s) + ">" {
        var n := Name(name);
        assert n == Text(line)[1..|n| + 1];
        assert Name(s) == ("<" + Name(s) + ">")[1..|Name(s)| + 1];
        NamesDiffer(name, s);
      }
  }

  /** Reading only the lines that do not start with `<` gives `toString` of the echoed tokens. */
  lemma {:induction false} TerminalTexts(trace: seq<Line>)
    ensures TerminalLines(Texts(trace)) == Renders(Echoes(trace))
    decreases |trace|
  {
    if trace != [] {
      var init, last := trace[..|trace| - 1], trace[|trace| - 1];
      assert trace == init + [last];
      TerminalTexts(init);
      TerminalText(last);
      TextsAppend(init, [last]);
      EchoesAppend(init, [last]);
      TerminalLinesAppend(Texts(init), Texts([last]));
      RendersAppend(Echoes(init), Echoes([last]));
    }
  }

  /** `TerminalTexts` for a single line. */
  lemma TerminalText(line: Line)
    ensures TerminalLines(Texts([line])) == Renders(Echoes([line]))
  {
    assert [line][..0] == [];
    match line
    case Echo(tok) =>
      assert Texts([line]) == [tok.ToString()] && Echoes([line]) == [tok];
      ToStringIsNotAMarker(tok);
      assert TerminalLines([tok.ToString()]) == [tok.ToString()] && Renders([tok]) == [tok.ToString()];
    case Reduced(name) =>
      assert Texts([line]) == [Text(line)] && Echoes([line]) == [];
      assert Text(line)[0] == '<';
      assert TerminalLines([Text(line)]) == [];
  }

  /** `<s>` is written exactly when the name line of `s` is in the trace. */
  lemma {:induction false} TextsMember(trace: seq<Line>, s: Production)
    ensures "<" + Name(s) + ">" in Texts(trace) <==> Reduced(s) in trace
    decreases |trace|
  {
    if trace != [] {
      var init, last, m := trace[..|trace| - 1], trace[|trace| - 1], "<" + Name(s) + ">";
      assert trace == init + [last];
      calc {
        m in Texts(trace);
      == { assert Texts(trace) == Texts(init) + [Text(last)]; }
        m in Texts(init) || m == Text(last);
      == { TextsMember(init, s); TextNames(last, s); }
        Reduced(s) in init || Reduced(s) == last;
      }
    }
  }

  /** `<s>` is written as often as the name line of `s` occurs in the trace. */
  lemma {:induction false} CountTexts(trace: seq<Line>, s: Production)
    ensures Count("<" + Name(s) + ">", Texts(trace)) == Count(Reduced(s), trace)
    decreases |trace|
  {
    if trace != [] {
      var init := trace[..|trace| - 1];
      CountTexts(init, s);
      TextNames(trace[|trace| - 1], s);
      assert Texts(trace)[..|trace| - 1] == Texts(init);
    }
  }

  // ---------------------------------------------------------------------------
  // The properties of the trace

  /** The echo property: the token lines of a production's trace are exactly the tokens it
      consumed, in order. */
  lemma {:induction false} EchoesFrontier(t: Tree)
    ensures Echoes(Emission(t)) == Frontier(t)
    decreases t
  {
    match t
    case Leaf(tok) =>
      assert Echoes([Echo(tok)]) == Echoes([]) + [tok];
    case Interior(name, cs) =>
      EchoesFrontiers(name, cs, |cs|);
      EchoesAppend(Body(name, cs, |cs|), Closing(name));
      NameLinesEchoNothing(name, 0);
  }

  lemma {:induction false} EchoesFrontiers(name: Production, cs: seq<Tree>, n: nat)
    requires n <= |cs|
    ensures Echoes(Body(name, cs, n)) == Frontiers(cs, n)
    decreases cs, n
  {
    if n > 0 {
      var b, e, a := Body(name, cs, n - 1), Emission(cs[n - 1]), After(name, n - 1);
      calc {
        Echoes(Body(name, cs, n));
        Echoes(b + e + a);
      == { EchoesAppend(b + e, a); NameLinesEchoNothing(name, n - 1); }
        Echoes(b + e) + [];
      == { EchoesAppend(b, e); }
        Echoes(b) + Echoes(e);
      == { EchoesFrontiers(name, cs, n - 1); EchoesFrontier(cs[n - 1]); }
        Frontiers(cs, n - 1) + Frontier(cs[n - 1]);
      }
    }
  }

  /** The lines `outputSyntaxNode` writes echo no token. */
  lemma NameLinesEchoNothing(name: Production, k: nat)
    ensures Echoes(Closing(name)) == []
    ensures Echoes(After(name, k)) == []
  {
    assert Echoes([Reduced(name)]) == Echoes([]) + [];
  }

  /** The echo property on the written text: the lines of a production's output that do not start
      with `<` are `toString` of exactly the tokens it consumed. */
  lemma TerminalLinesOfEmission(t: Tree)
    ensures TerminalLines(Texts(Emission(t))) == Renders(Frontier(t))
  {
    TerminalTexts(Emission(t));
    EchoesFrontier(t);
  }

  /** `outputSyntaxNode` never writes `<BlockItem>`, `<Decl>` or `<BType>`: no trace contains them. */
  lemma {:induction false} NoSuppressedLine(t: Tree, s: Production)
    requires Suppressed(s)
    ensures Reduced(s) !in Emission(t)
    decreases t
  {
    match t
    case Leaf(tok) =>
    case Interior(name, cs) =>
      NoSuppressedLines(name, cs, |cs|, s);
  }

  lemma {:induction false} NoSuppressedLines(name: Production, cs: seq<Tree>, n: nat, s: Production)
    requires n <= |cs| && Suppressed(s)
    ensures Reduced(s) !in Body(name, cs, n)
    decreases cs, n
  {
    if n > 0 {
      NoSuppressedLines(name, cs, n - 1, s);
      NoSuppressedLine(cs[n - 1], s);
    }
  }

  /** The same on the written text. */
  lemma NoSuppressedText(t: Tree, s: Production)
    requires Suppressed(s)
    ensures "<" + Name(s) + ">" !in Texts(Emission(t))
  {
    NoSuppressedLine(t, s);
    TextsMember(Emission(t), s);
  }

  /** The children of a binary node: a tree of the production `operand`, then any number of
      operator tokens of the kinds `ops`, each followed by a further operand. */
  predicate Alternating(cs: seq<Tree>, operand: Production, ops: set<TokenKind>)
    ensures Alternating(cs, operand, ops) ==> |cs| % 2 == 1
    decreases |cs|
  {
    if |cs| == 1 then cs[0].Interior? && cs[0].name == operand
    else
      3 <= |cs| && Alternating(cs[..|cs| - 2], operand, ops) &&
      cs[|cs| - 2].Leaf? && cs[|cs| - 2].token.kind in ops &&
      cs[|cs| - 1].Interior? && cs[|cs| - 1].name == operand
  }

  /** The subtrees among `cs`, that is, the children that are not tokens. */
  function Subtrees(cs: seq<Tree>): nat {
    if cs == [] then 0 else Subtrees(cs[..|cs| - 1]) + (if cs[|cs| - 1].Interior? then 1 else 0)
  }

  /** One operand makes alternating children. */
  lemma AlternatingStart(e: Tree, operand: Production, ops: set<TokenKind>)
    requires e.Interior? && e.name == operand
    ensures Alternating([e], operand, ops)
  {
  }

  /** An operator token followed by a further operand keeps the children alternating. */
  lemma AlternatingSnoc(cs: seq<Tree>, op: Tree, e: Tree, operand: Production, ops: set<TokenKind>)
    requires Alternating(cs, operand, ops)
    requires op.Leaf? && op.token.kind in ops && e.Interior? && e.name == operand
    ensures Alternating(cs + [op] + [e], operand, ops)
  {
    assert (cs + [op] + [e])[..|cs|] == cs;
  }

  /** Alternating children, position by position: an odd number of them, with operands at the
      even positions and operator tokens at the odd ones; and children of that layout are
      alternating. */
  lemma {:induction false} AlternatingPositions(cs: seq<Tree>, operand: Production, ops: set<TokenKind>)
    ensures Alternating(cs, operand, ops) <==>
      |cs| % 2 == 1 &&
      forall i :: 0 <= i < |cs| ==>
        if i % 2 == 0 then cs[i].Interior? && cs[i].name == operand
        else cs[i].Leaf? && cs[i].token.kind in ops
    decreases |cs|
  {
    if 3 <= |cs| {
      var prefix := cs[..|cs| - 2];
      AlternatingPositions(prefix, operand, ops);
      assert forall i :: 0 <= i < |prefix| ==> prefix[i] == cs[i];
    }
  }

  /** Alternating children hold one operand more than operators: `(|cs| + 1) / 2` subtrees. */
  lemma {:induction false} AlternatingSubtrees(cs: seq<Tree>, operand: Production, ops: set<TokenKind>)
    requires Alternating(cs, operand, ops)
    ensures Subtrees(cs) == (|cs| + 1) / 2
    decreases |cs|
  {
    var n := |cs|;
    if n == 1 {
      assert cs[..0] == [];
    } else {
      var init, prefix := cs[..n - 1], cs[..n - 2];
      assert init[..n - 2] == prefix;
      AlternatingSubtrees(prefix, operand, ops);
    }
  }

  /** The lines `line` that the first `n` trees of `cs` write. */
  function CountBelow(line: Line, cs: seq<Tree>, n: nat): nat
    requires n <= |cs|
  {
    if n == 0 then 0 else CountBelow(line, cs, n - 1) + Count(line, Emission(cs[n - 1]))
  }

  /** A binary node writes its own name once per even position of its children, besides
      whatever its children write. */
  lemma {:induction false} BinaryNodeCount(name: Production, cs: seq<Tree>)
    requires BinaryFamily(name)
    ensures Count(Reduced(name), Emission(Interior(name, cs))) == (|cs| + 1) / 2 + CountBelow(Reduced(name), cs, |cs|)
  {
    BodyCount(name, cs, |cs|);
    assert Closing(name) == [];
    assert Emission(Interior(name, cs)) == Body(name, cs, |cs|) + Closing(name);
    assert Body(name, cs, |cs|) + [] == Body(name, cs, |cs|);
  }

  lemma {:induction false} BodyCount(name: Production, cs: seq<Tree>, n: nat)
    requires n <= |cs| && BinaryFamily(name)
    ensures Count(Reduced(name), Body(name, cs, n)) == (n + 1) / 2 + CountBelow(Reduced(name), cs, n)
    decreases n
  {
    if n > 0 {
      var line, k := Reduced(name), n - 1;
      var b, e, a := Body(name, cs, k), Emission(cs[k]), After(name, k);
      BodyCount(name, cs, k);
      assert Body(name, cs, n) == b + e + a;
      CountAppend(line, b + e, a);
      CountAppend(line, b, e);
      AfterCount(name, k);
      assert (k + 2) / 2 == (k + 1) / 2 + Count(line, a);
    }
  }

  /** A binary production writes its name once after each even position. */
  lemma AfterCount(name: Production, k: nat)
    requires BinaryFamily(name)
    ensures Count(Reduced(name), After(name, k)) == if k % 2 == 0 then 1 else 0
  {
    assert Count(Reduced(name), [Reduced(name)]) == Count(Reduced(name), []) + 1;
  }

  /** A binary node whose children alternate operands and operators writes its own name once
      per operand, besides whatever its children write: with n operands, the node contributes
      exactly n `<Name>` lines. */
  lemma OperandLines(name: Production, cs: seq<Tree>, operand: Production, ops: set<TokenKind>)
    requires BinaryFamily(name) && Alternating(cs, operand, ops)
    ensures Count(Reduced(name), Emission(Interior(name, cs))) == Subtrees(cs) + CountBelow(Reduced(name), cs, |cs|)
  {
    BinaryNodeCount(name, cs);
    AlternatingSubtrees(cs, operand, ops);
  }

  /** In a binary node with alternating children, the name line follows each operand and no
      operator. */
  lemma AfterOperand(name: Production, cs: seq<Tree>, k: nat, operand: Production, ops: set<TokenKind>)
    requires BinaryFamily(name) && Alternating(cs, operand, ops) && k < |cs|
    ensures After(name, k) == if cs[k].Interior? then [Reduced(name)] else []
  {
    AlternatingPositions(cs, operand, ops);
  }
}

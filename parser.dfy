/** The recursive-descent parser (src/parser/Parser.java).

    A `Parser` walks a fixed token list with a cursor `tokenIndex` that only moves forward,
    builds `SyntaxNode` trees, appends diagnostics to an `ErrorHandler` and writes its trace
    (the lines of `parserWriter`, kept here as `trace`). Every production is a method that
    either returns the node it built or stops with a `Fault`:
    - `IndexOutOfBounds` where the Java code calls `tokens.get` past the end of the list
      (it throws there, and nothing catches the exception);
    - `NoProgress` where `parseBlock` would repeat a block item that consumed nothing, which
      in Java loops forever.

    Each production promises, on success, that it consumed exactly the tokens below the tree
    it built and wrote exactly that tree's `Emission` (module `Trace`) to the trace. */
module Parsing {
  import opened Wrappers
  import opened Keywords
  import opened Tokens
  import opened SyntaxTree
  import opened Trace
  import Diagnostics

  /** Why a parse stops without a tree. */
  datatype Fault = IndexOutOfBounds | NoProgress

  /** The result of a step that may stop: a value, or the fault that ended the parse. */
  datatype Outcome<T> = Success(value: T) | Failure(fault: Fault)
  {
    predicate IsFailure() {
      Failure?
    }

    function PropagateFailure<U>(): Outcome<U>
      requires Failure?
    {
      Failure(fault)
    }

    function Extract(): T
      requires Success?
    {
      value
    }
  }

  /** The result of a step that produces nothing but may stop. */
  datatype Status = Done | Stop(fault: Fault)
  {
    predicate IsFailure() {
      Stop?
    }

    function PropagateFailure<U>(): Outcome<U>
      requires Stop?
    {
      Failure(fault)
    }
  }

  /** A tree whose root is the production `name`. */
  predicate Named(t: Tree, name: Production) {
    t.Interior? && t.name == name
  }

  /** `after` is `before` with one more child, a tree of the production `name`. */
  predicate Grew(before: seq<Tree>, after: seq<Tree>, name: Production) {
    |after| == |before| + 1 && after == before + [after[|before|]] && Named(after[|before|], name)
  }

  /** `after` is `before` with two more children: the token tree `op`, then a tree of the
      production `name`. */
  predicate GrewBy(before: seq<Tree>, after: seq<Tree>, op: Tree, name: Production) {
    |after| == |before| + 2 && after == before + [op] + [after[|before| + 1]] && Named(after[|before| + 1], name)
  }

  /** A round of a binary production's loop keeps its children alternating. */
  lemma AlternatingRound(before: seq<Tree>, after: seq<Tree>, op: Tree, operand: Production, ops: set<TokenKind>)
    requires Alternating(before, operand, ops) && op.Leaf? && op.token.kind in ops
    requires GrewBy(before, after, op, operand)
    ensures Alternating(after, operand, ops)
  {
    AlternatingSnoc(before, op, after[|before| + 1], operand, ops);
  }

  // ---------------------------------------------------------------------------
  // Statement forms

  /** One child of a statement: a token of a kind, a token of any kind (`consumeToken` does not
      check the kind it is given), or a tree of a production. */
  datatype Piece = Kind(kind: TokenKind) | AnyToken | Node(name: Production)

  /** A part of a statement form: one piece, an optional piece, zero or more pairs of pieces,
      or an optional pair. */
  datatype Part = One(p: Piece) | Maybe(p: Piece) | Pairs(a: Piece, b: Piece) | MaybePair(a: Piece, b: Piece)

  predicate Fits(t: Tree, p: Piece) {
    match p
    case Kind(k) => t.Leaf? && t.token.kind == k
    case AnyToken => t.Leaf?
    case Node(name) => Named(t, name)
  }

  /** The children `cs` have the form `ps`. */
  predicate Matches(cs: seq<Tree>, ps: seq<Part>)
    decreases |cs|, |ps|
  {
    if ps == [] then cs == []
    else match ps[0]
      case One(p) => cs != [] && Fits(cs[0], p) && Matches(cs[1..], ps[1..])
      case Maybe(p) => Matches(cs, ps[1..]) || (cs != [] && Fits(cs[0], p) && Matches(cs[1..], ps[1..]))
      case Pairs(a, b) => Matches(cs, ps[1..]) || (2 <= |cs| && Fits(cs[0], a) && Fits(cs[1], b) && Matches(cs[2..], ps))
      case MaybePair(a, b) => Matches(cs, ps[1..]) || (2 <= |cs| && Fits(cs[0], a) && Fits(cs[1], b) && Matches(cs[2..], ps[1..]))
  }

  /** Forms compose: children of form `ps` followed by children of form `qs` have form `ps + qs`. */
  lemma {:induction false} MatchesAppend(cs: seq<Tree>, ds: seq<Tree>, ps: seq<Part>, qs: seq<Part>)
    requires Matches(cs, ps) && Matches(ds, qs)
    ensures Matches(cs + ds, ps + qs)
    decreases |cs|, |ps|
  {
    if ps == [] {
      assert cs + ds == ds && ps + qs == qs;
    } else {
      assert (ps + qs)[0] == ps[0] && (ps + qs)[1..] == ps[1..] + qs;
      match ps[0]
      case One(p) =>
        MatchesAppend(cs[1..], ds, ps[1..], qs);
        assert (cs + ds)[0] == cs[0] && (cs + ds)[1..] == cs[1..] + ds;
      case Maybe(p) =>
        if Matches(cs, ps[1..]) {
          MatchesAppend(cs, ds, ps[1..], qs);
        } else {
          MatchesAppend(cs[1..], ds, ps[1..], qs);
          assert (cs + ds)[0] == cs[0] && (cs + ds)[1..] == cs[1..] + ds;
        }
      case Pairs(a, b) =>
        if Matches(cs, ps[1..]) {
          MatchesAppend(cs, ds, ps[1..], qs);
        } else {
          MatchesAppend(cs[2..], ds, ps, qs);
          assert (cs + ds)[0] == cs[0] && (cs + ds)[1] == cs[1] && (cs + ds)[2..] == cs[2..] + ds;
        }
      case MaybePair(a, b) =>
        if Matches(cs, ps[1..]) {
          MatchesAppend(cs, ds, ps[1..], qs);
        } else {
          MatchesAppend(cs[2..], ds, ps[1..], qs);
          assert (cs + ds)[0] == cs[0] && (cs + ds)[1] == cs[1] && (cs + ds)[2..] == cs[2..] + ds;
        }
    }
  }

  /** One more pair keeps the form of a repetition. */
  lemma PairsSnoc(cs: seq<Tree>, x: Tree, y: Tree, a: Piece, b: Piece)
    requires Matches(cs, [Pairs(a, b)]) && Fits(x, a) && Fits(y, b)
    ensures Matches(cs + [x, y], [Pairs(a, b)])
  {
    var p := Pairs(a, b);
    assert Matches([x, y], [p]) by {
      assert [x, y][2..] == [];
    }
    MatchesAppend(cs, [x, y], [p], [p]);
    assert [p] + [p] == [p, p];
    PairsAbsorb(cs + [x, y], a, b);
  }

  /** Two repetitions of the same pair are one. */
  lemma {:induction false} PairsAbsorb(cs: seq<Tree>, a: Piece, b: Piece)
    requires Matches(cs, [Pairs(a, b), Pairs(a, b)])
    ensures Matches(cs, [Pairs(a, b)])
    decreases |cs|
  {
    var p := Pairs(a, b);
    assert [p, p][1..] == [p];
    if !Matches(cs, [p]) {
      PairsAbsorb(cs[2..], a, b);
    }
  }

  /** `after` is `before` followed by children of the form `ps`. */
  ghost predicate Extends(before: seq<Tree>, after: seq<Tree>, ps: seq<Part>) {
    |before| <= |after| && after[..|before|] == before && Matches(after[|before|..], ps)
  }

  /** Extensions compose. */
  lemma ExtendsTrans(a: seq<Tree>, b: seq<Tree>, c: seq<Tree>, ps: seq<Part>, qs: seq<Part>)
    requires Extends(a, b, ps) && Extends(b, c, qs)
    ensures Extends(a, c, ps + qs)
  {
    assert c[..|b|][..|a|] == c[..|a|];
    assert c[|a|..] == b[|a|..] + c[|b|..];
    MatchesAppend(b[|a|..], c[|b|..], ps, qs);
  }

  /** Extensions by one part each compose into an extension by all of them, in order. */
  lemma Steps2(c0: seq<Tree>, c1: seq<Tree>, c2: seq<Tree>, p1: Part, p2: Part)
    requires Extends(c0, c1, [p1]) && Extends(c1, c2, [p2])
    ensures Extends(c0, c2, [p1, p2])
  {
    ExtendsTrans(c0, c1, c2, [p1], [p2]);
    assert [p1] + [p2] == [p1, p2];
  }

  lemma Steps3(c0: seq<Tree>, c1: seq<Tree>, c2: seq<Tree>, c3: seq<Tree>, p1: Part, p2: Part, p3: Part)
    requires Extends(c0, c1, [p1]) && Extends(c1, c2, [p2]) && Extends(c2, c3, [p3])
    ensures Extends(c0, c3, [p1, p2, p3])
  {
    Steps2(c0, c1, c2, p1, p2);
    ExtendsTrans(c0, c2, c3, [p1, p2], [p3]);
    assert [p1, p2] + [p3] == [p1, p2, p3];
  }

  lemma Steps4(c0: seq<Tree>, c1: seq<Tree>, c2: seq<Tree>, c3: seq<Tree>, c4: seq<Tree>, p1: Part, p2: Part, p3: Part, p4: Part)
    requires Extends(c0, c1, [p1]) && Extends(c1, c2, [p2]) && Extends(c2, c3, [p3]) && Extends(c3, c4, [p4])
    ensures Extends(c0, c4, [p1, p2, p3, p4])
  {
    Steps3(c0, c1, c2, c3, p1, p2, p3);
    ExtendsTrans(c0, c3, c4, [p1, p2, p3], [p4]);
    assert [p1, p2, p3] + [p4] == [p1, p2, p3, p4];
  }

  lemma Steps6(c0: seq<Tree>, c1: seq<Tree>, c2: seq<Tree>, c3: seq<Tree>, c4: seq<Tree>, c5: seq<Tree>, c6: seq<Tree>,
               p1: Part, p2: Part, p3: Part, p4: Part, p5: Part, p6: Part)
    requires Extends(c0, c1, [p1]) && Extends(c1, c2, [p2]) && Extends(c2, c3, [p3])
    requires Extends(c3, c4, [p4]) && Extends(c4, c5, [p5]) && Extends(c5, c6, [p6])
    ensures Extends(c0, c6, [p1, p2, p3, p4, p5, p6])
  {
    Steps4(c0, c1, c2, c3, c4, p1, p2, p3, p4);
    Steps2(c4, c5, c6, p5, p6);
    ExtendsTrans(c0, c4, c6, [p1, p2, p3, p4], [p5, p6]);
    assert [p1, p2, p3, p4] + [p5, p6] == [p1, p2, p3, p4, p5, p6];
  }

  /** From the empty list, an extension is the whole form. */
  lemma ExtendsEmpty(cs: seq<Tree>, ps: seq<Part>)
    requires Extends([], cs, ps)
    ensures Matches(cs, ps)
  {
    assert cs[0..] == cs;
  }

  /** One child of the piece `p`. */
  lemma ExtendsOne(before: seq<Tree>, after: seq<Tree>, t: Tree, p: Piece)
    requires after == before + [t] && Fits(t, p)
    ensures Extends(before, after, [One(p)]) && Extends(before, after, [Maybe(p)])
  {
    assert after[..|before|] == before && after[|before|..] == [t] && [t][1..] == [];
  }

  /** No children, for a part that may be absent. */
  lemma ExtendsNone(cs: seq<Tree>, part: Part)
    requires part.Maybe? || part.Pairs? || part.MaybePair?
    ensures Extends(cs, cs, [part])
  {
    assert cs[..|cs|] == cs && cs[|cs|..] == [] && [part][1..] == [];
  }

  /** A token of the piece `a`, then a grown child of the piece `b`. */
  lemma ExtendsPair(c0: seq<Tree>, c1: seq<Tree>, c2: seq<Tree>, x: Tree, a: Piece, b: Piece)
    requires c1 == c0 + [x] && Fits(x, a)
    requires |c2| == |c1| + 1 && c2 == c1 + [c2[|c1|]] && Fits(c2[|c1|], b)
    ensures Extends(c0, c2, [MaybePair(a, b)])
  {
    var y := c2[|c1|];
    assert c2 == c0 + [x, y] && c2[..|c0|] == c0 && c2[|c0|..] == [x, y];
    assert [x, y][2..] == [] && [MaybePair(a, b)][1..] == [];
  }

  /** One more round of a repetition. */
  lemma ExtendsRound(c0: seq<Tree>, ci: seq<Tree>, c1: seq<Tree>, c2: seq<Tree>, x: Tree, a: Piece, b: Piece)
    requires Extends(c0, ci, [Pairs(a, b)])
    requires c1 == ci + [x] && Fits(x, a)
    requires |c2| == |c1| + 1 && c2 == c1 + [c2[|c1|]] && Fits(c2[|c1|], b)
    ensures Extends(c0, c2, [Pairs(a, b)])
  {
    var y := c2[|c1|];
    assert c2 == ci + [x, y] && c2[..|c0|] == c0;
    assert c2[|c0|..] == ci[|c0|..] + [x, y];
    PairsSnoc(ci[|c0|..], x, y, a, b);
  }

  /** A grown child of the production `name`. */
  lemma ExtendsGrew(before: seq<Tree>, after: seq<Tree>, name: Production)
    requires Grew(before, after, name)
    ensures Extends(before, after, [One(Node(name))]) && Extends(before, after, [Maybe(Node(name))])
  {
    ExtendsOne(before, after, after[|before|], Node(name));
  }

  /** A call in a `UnaryExp`: `IDENFR ( [FuncRParams] [)]`, the identifier's kind unchecked. */
  function CallForm(): seq<Part> {
    [One(AnyToken), One(Kind(LPARENT)), Maybe(Node(FuncRParams)), Maybe(Kind(RPARENT))]
  }

  /** The steps of a call make its form. */
  lemma CallFormed(c0: seq<Tree>, c1: seq<Tree>, c2: seq<Tree>, c3: seq<Tree>, c4: seq<Tree>, t0: Tree, t1: Tree)
    requires c1 == c0 + [t0] && t0.Leaf? && c2 == c1 + [t1] && Fits(t1, Kind(LPARENT))
    requires Extends(c2, c3, [Maybe(Node(FuncRParams))]) && Extends(c3, c4, [Maybe(Kind(RPARENT))])
    ensures Extends(c0, c4, CallForm())
  {
    ExtendsOne(c0, c1, t0, AnyToken);
    ExtendsOne(c1, c2, t1, Kind(LPARENT));
    Steps4(c0, c1, c2, c3, c4, One(AnyToken), One(Kind(LPARENT)), Maybe(Node(FuncRParams)), Maybe(Kind(RPARENT)));
  }

  /** `if ( Cond [)] Stmt [else Stmt]`. */
  function IfForm(): seq<Part> {
    [One(Kind(IFTK)), One(AnyToken), One(Node(Cond)), Maybe(Kind(RPARENT)), One(Node(Stmt)),
     MaybePair(Kind(ELSETK), Node(Stmt))]
  }

  /** `for ( [ForStmt] ; [Cond] ; [ForStmt] [)] Stmt`, in three pieces and the body. */
  function ForForm(): seq<Part> {
    ForHead() + ForMiddle() + ForTail() + [One(Node(Stmt))]
  }

  /** `for ( [ForStmt] ;` */
  function ForHead(): seq<Part> {
    [One(Kind(FORTK)), One(AnyToken), Maybe(Node(ForStmt)), One(AnyToken)]
  }

  /** `[Cond] ;` */
  function ForMiddle(): seq<Part> {
    [Maybe(Node(Cond)), One(AnyToken)]
  }

  /** `[ForStmt] [)]` */
  function ForTail(): seq<Part> {
    [Maybe(Node(ForStmt)), Maybe(Kind(RPARENT))]
  }

  /** `break [;]` or `continue [;]`, by the head's kind. */
  function JumpForm(head: TokenKind): seq<Part> {
    [One(Kind(head)), Maybe(Kind(SEMICN))]
  }

  /** `return [Exp] [;]`. */
  function ReturnForm(): seq<Part> {
    [One(Kind(RETURNTK)), Maybe(Node(Exp)), Maybe(Kind(SEMICN))]
  }

  /** `printf ( STRCON { , Exp } [)] [;]`. */
  function PrintfForm(): seq<Part> {
    [One(Kind(PRINTFTK)), One(AnyToken), One(AnyToken), Pairs(Kind(COMMA), Node(Exp)), Maybe(Kind(RPARENT)),
     Maybe(Kind(SEMICN))]
  }

  /** A `Block`. */
  function BlockForm(): seq<Part> {
    [One(Node(Block))]
  }

  /** `LVal = Exp`, shared by an assignment statement and a `ForStmt`. */
  function AssignmentForm(): seq<Part> {
    [One(Node(LVal)), One(AnyToken), One(Node(Exp))]
  }

  /** `LVal = Exp [;]`. */
  function AssignForm(): seq<Part> {
    AssignmentForm() + [Maybe(Kind(SEMICN))]
  }

  /** The steps of an `if` statement make its form. */
  lemma IfFormed(c0: seq<Tree>, c1: seq<Tree>, c2: seq<Tree>, c3: seq<Tree>, c4: seq<Tree>, c5: seq<Tree>, c6: seq<Tree>,
                 t0: Tree, t1: Tree)
    requires c0 == [] && c1 == c0 + [t0] && Fits(t0, Kind(IFTK)) && c2 == c1 + [t1] && t1.Leaf?
    requires Grew(c2, c3, Cond) && Extends(c3, c4, [Maybe(Kind(RPARENT))]) && Grew(c4, c5, Stmt)
    requires Extends(c5, c6, [MaybePair(Kind(ELSETK), Node(Stmt))])
    ensures Matches(c6, IfForm())
  {
    ExtendsOne(c0, c1, t0, Kind(IFTK));
    ExtendsOne(c1, c2, t1, AnyToken);
    ExtendsGrew(c2, c3, Cond);
    ExtendsGrew(c4, c5, Stmt);
    Steps6(c0, c1, c2, c3, c4, c5, c6, One(Kind(IFTK)), One(AnyToken), One(Node(Cond)), Maybe(Kind(RPARENT)),
           One(Node(Stmt)), MaybePair(Kind(ELSETK), Node(Stmt)));
    ExtendsEmpty(c6, IfForm());
  }

  /** The steps of a `printf` statement make its form. */
  lemma PrintfFormed(c0: seq<Tree>, c1: seq<Tree>, c2: seq<Tree>, c3: seq<Tree>, c4: seq<Tree>, c5: seq<Tree>, c6: seq<Tree>,
                     t0: Tree, t1: Tree, t2: Tree)
    requires c0 == [] && c1 == c0 + [t0] && Fits(t0, Kind(PRINTFTK)) && c2 == c1 + [t1] && t1.Leaf?
    requires c3 == c2 + [t2] && t2.Leaf? && Extends(c3, c4, [Pairs(Kind(COMMA), Node(Exp))])
    requires Extends(c4, c5, [Maybe(Kind(RPARENT))]) && Extends(c5, c6, [Maybe(Kind(SEMICN))])
    ensures Matches(c6, PrintfForm())
  {
    ExtendsOne(c0, c1, t0, Kind(PRINTFTK));
    ExtendsOne(c1, c2, t1, AnyToken);
    ExtendsOne(c2, c3, t2, AnyToken);
    Steps6(c0, c1, c2, c3, c4, c5, c6, One(Kind(PRINTFTK)), One(AnyToken), One(AnyToken), Pairs(Kind(COMMA), Node(Exp)),
           Maybe(Kind(RPARENT)), Maybe(Kind(SEMICN)));
    ExtendsEmpty(c6, PrintfForm());
  }

  /** The steps of a `return` statement make its form. */
  lemma ReturnFormed(c0: seq<Tree>, c1: seq<Tree>, c2: seq<Tree>, c3: seq<Tree>, t: Tree)
    requires c0 == [] && c1 == c0 + [t] && Fits(t, Kind(RETURNTK))
    requires Extends(c1, c2, [Maybe(Node(Exp))]) && Extends(c2, c3, [Maybe(Kind(SEMICN))])
    ensures Matches(c3, ReturnForm())
  {
    ExtendsOne(c0, c1, t, Kind(RETURNTK));
    Steps3(c0, c1, c2, c3, One(Kind(RETURNTK)), Maybe(Node(Exp)), Maybe(Kind(SEMICN)));
    ExtendsEmpty(c3, ReturnForm());
  }

  /** The steps of an expression statement make its form: an optional expression, then an
      optional `;`. */
  lemma ExpFormed(c0: seq<Tree>, c1: seq<Tree>, c2: seq<Tree>)
    requires c0 == [] && Extends(c0, c1, [Maybe(Node(Exp))]) && Extends(c1, c2, [Maybe(Kind(SEMICN))])
    ensures Matches(c2, ExpForm())
  {
    Steps2(c0, c1, c2, Maybe(Node(Exp)), Maybe(Kind(SEMICN)));
    ExtendsEmpty(c2, ExpForm());
  }

  /** The steps of `LVal = Exp` make its form. */
  lemma AssignmentFormed(c0: seq<Tree>, c1: seq<Tree>, c2: seq<Tree>, c3: seq<Tree>, t: Tree)
    requires Grew(c0, c1, LVal) && c2 == c1 + [t] && t.Leaf? && Grew(c2, c3, Exp)
    ensures Extends(c0, c3, AssignmentForm())
  {
    ExtendsGrew(c0, c1, LVal);
    ExtendsOne(c1, c2, t, AnyToken);
    ExtendsGrew(c2, c3, Exp);
    Steps3(c0, c1, c2, c3, One(Node(LVal)), One(AnyToken), One(Node(Exp)));
  }

  /** An assignment and an optional `;` make an assignment statement's form. */
  lemma AssignFormed(c0: seq<Tree>, c1: seq<Tree>, c2: seq<Tree>)
    requires c0 == [] && Extends(c0, c1, AssignmentForm()) && Extends(c1, c2, [Maybe(Kind(SEMICN))])
    ensures Matches(c2, AssignForm())
  {
    ExtendsTrans(c0, c1, c2, AssignmentForm(), [Maybe(Kind(SEMICN))]);
    ExtendsEmpty(c2, AssignForm());
  }

  /** `[Exp] [;]`. */
  function ExpForm(): seq<Part> {
    [Maybe(Node(Exp)), Maybe(Kind(SEMICN))]
  }

  /** The form `parseStmt` chooses at cursor `i` of `ts`: by the head token, then by the token
      after it, as its `if` chain tests them. (A bracketed optional part is missing exactly when
      the parser reported it, or did not find the head that starts it.) */
  function StmtForm(ts: seq<Token>, i: nat): seq<Part> {
    var head := if i < |ts| then Some(ts[i].kind) else None;
    var next := if i + 1 < |ts| then Some(ts[i + 1].kind) else None;
    if head == Some(IFTK) then IfForm()
    else if head == Some(FORTK) then ForForm()
    else if head == Some(BREAKTK) || head == Some(CONTINUETK) then JumpForm(head.value)
    else if head == Some(RETURNTK) then ReturnForm()
    else if head == Some(PRINTFTK) then PrintfForm()
    else if head == Some(LBRACE) then BlockForm()
    else if next == Some(LBRACK) || next == Some(ASSIGN) then AssignForm()
    else ExpForm()
  }

  /** The kinds that may start an expression, as tested before `Exp` in `return`, in an
      expression statement and before `FuncRParams`. */
  predicate ExpStart(k: TokenKind) {
    k == PLUS || k == MINU || k == NOT || k == IDENFR || k == LPARENT || k == INTCON
  }

  /** The children of a `CompUnit`: declarations, then function definitions, then `main`. */
  predicate Sections(cs: seq<Tree>) {
    |cs| > 0 && Named(cs[|cs| - 1], MainFuncDef) &&
    (forall i :: 0 <= i < |cs| - 1 ==> Named(cs[i], Decl) || Named(cs[i], FuncDef)) &&
    (forall i, j :: 0 <= i < j < |cs| - 1 && Named(cs[j], Decl) ==> Named(cs[i], Decl))
  }

  /** `cs` is `k` declarations followed by function definitions, as `parseCompUnit` has them before `main`. */
  predicate DeclsThenFuncDefs(cs: seq<Tree>, k: nat) {
    k <= |cs| &&
    (forall i :: 0 <= i < k ==> Named(cs[i], Decl)) &&
    (forall i :: k <= i < |cs| ==> Named(cs[i], FuncDef))
  }

  /** One more function definition keeps the order. */
  lemma DeclsThenFuncDefsSnoc(cs: seq<Tree>, k: nat, child: Tree)
    requires DeclsThenFuncDefs(cs, k) && Named(child, FuncDef)
    ensures DeclsThenFuncDefs(cs + [child], k)
  {
  }

  /** Declarations, then function definitions, then `main` are the sections of a `CompUnit`. */
  lemma SectionsFormed(cs: seq<Tree>, k: nat, main: Tree)
    requires DeclsThenFuncDefs(cs, k) && Named(main, MainFuncDef)
    ensures Sections(cs + [main])
  {
  }

  /** The tokens `ts[i..j]`, built one token at a time as the cursor moves from `i` to `j`. */
  function Span(ts: seq<Token>, i: nat, j: nat): (r: seq<Token>)
    requires i <= j <= |ts|
    ensures |r| == j - i
    decreases j - i
  {
    if i == j then [] else Span(ts, i, j - 1) + [ts[j - 1]]
  }

  /** The tokens consumed from `i` to `k` are those from `i` to `j`, then those from `j` to `k`. */
  lemma {:induction false} SpanSplit(ts: seq<Token>, i: nat, j: nat, k: nat)
    requires i <= j <= k <= |ts|
    ensures Span(ts, i, k) == Span(ts, i, j) + Span(ts, j, k)
    decreases k - j
  {
    if j < k {
      SpanSplit(ts, i, j, k - 1);
    }
  }

  /** `Span` is the slice. */
  lemma {:induction false} SpanIsSlice(ts: seq<Token>, i: nat, j: nat)
    requires i <= j <= |ts|
    ensures Span(ts, i, j) == ts[i..j]
    decreases j - i
  {
    if i < j {
      SpanIsSlice(ts, i, j - 1);
      assert ts[i..j] == ts[i..j - 1] + [ts[j - 1]];
    }
  }

  /** What `parse` promises about the lines written between `trace0` and `trace`, which consumed
      `consumed`: the lines that do not start with `<` are `toString` of the consumed tokens, in
      order; the last line is `<CompUnit>`; and none is `<BlockItem>`, `<Decl>` or `<BType>`. */
  predicate Written(trace0: seq<Line>, trace: seq<Line>, consumed: seq<Token>) {
    |trace0| < |trace| && trace[..|trace0|] == trace0 &&
    TerminalLines(Texts(trace)) == TerminalLines(Texts(trace0)) + Renders(consumed) &&
    Text(trace[|trace| - 1]) == "<CompUnit>" &&
    var written := Texts(trace[|trace0|..]);
    "<BlockItem>" !in written && "<Decl>" !in written && "<BType>" !in written
  }

  /** The emission of a `CompUnit` whose leaves are the tokens `ts[i..j]` is written as `parse`
      promises. */
  lemma CompUnitWritten(trace0: seq<Line>, t: Tree, ts: seq<Token>, i: nat, j: nat)
    requires Named(t, CompUnit) && i <= j <= |ts| && Frontier(t) == Span(ts, i, j)
    ensures Written(trace0, trace0 + Emission(t), ts[i..j])
  {
    var e := Emission(t);
    var trace := trace0 + e;
    assert trace[..|trace0|] == trace0 && trace[|trace0|..] == e;
    WrittenEchoes(trace0, t, ts, i, j);
    ClosedByCompUnit(t);
    assert trace[|trace| - 1] == e[|e| - 1];
    SuppressedNotWritten(t);
  }

  /** The lines of an emission that do not start with `<`, appended to a trace, are `toString`
      of the tokens below the tree. */
  lemma WrittenEchoes(trace0: seq<Line>, t: Tree, ts: seq<Token>, i: nat, j: nat)
    requires i <= j <= |ts| && Frontier(t) == Span(ts, i, j)
    ensures TerminalLines(Texts(trace0 + Emission(t))) == TerminalLines(Texts(trace0)) + Renders(ts[i..j])
  {
    calc {
      TerminalLines(Texts(trace0 + Emission(t)));
    == { TextsAppend(trace0, Emission(t)); }
      TerminalLines(Texts(trace0) + Texts(Emission(t)));
    == { TerminalLinesAppend(Texts(trace0), Texts(Emission(t))); }
      TerminalLines(Texts(trace0)) + TerminalLines(Texts(Emission(t)));
    == { TerminalLinesOfEmission(t); SpanIsSlice(ts, i, j); }
      TerminalLines(Texts(trace0)) + Renders(ts[i..j]);
    }
  }

  /** A `CompUnit` writes its name last. */
  lemma ClosedByCompUnit(t: Tree)
    requires Named(t, CompUnit)
    ensures |Emission(t)| > 0 && Text(Emission(t)[|Emission(t)| - 1]) == "<CompUnit>"
  {
    assert Closing(CompUnit) == [Reduced(CompUnit)];
  }

  /** No tree writes `<BlockItem>`, `<Decl>` or `<BType>`. */
  lemma SuppressedNotWritten(t: Tree)
    ensures var written := Texts(Emission(t));
            "<BlockItem>" !in written && "<Decl>" !in written && "<BType>" !in written
  {
    NoSuppressedText(t, BlockItem);
    assert "<" + Name(BlockItem) + ">" == "<BlockItem>";
    NoSuppressedText(t, Decl);
    assert "<" + Name(Decl) + ">" == "<Decl>";
    NoSuppressedText(t, BType);
    assert "<" + Name(BType) + ">" == "<BType>";
  }

  /** A node made for an ordinary production: each child is followed by nothing, and the name
      is written once all are in place. */
  predicate Ordinary(node: SyntaxNode) {
    node.syntaxType.Some? && !BinaryFamily(node.syntaxType.value)
  }

  /** A node made for a binary production: each operand is followed by the name. */
  predicate Binary(node: SyntaxNode) {
    node.syntaxType.Some? && BinaryFamily(node.syntaxType.value)
  }

  class Parser {
    const tokens: seq<Token>
    var tokenIndex: nat
    const errorHandler: Diagnostics.ErrorHandler
    /** The lines written to `parserWriter`, in order. */
    var trace: seq<Line>
    var rootNode: Option<SyntaxNode>

    ghost predicate Valid()
      reads this
    {
      tokenIndex <= |tokens|
    }

    /** `Parser(tokens, errorHandler, parserWriter)`: the cursor at the first token, nothing written. */
    constructor (tokens: seq<Token>, errorHandler: Diagnostics.ErrorHandler)
      ensures this.tokens == tokens && this.errorHandler == errorHandler
      ensures tokenIndex == 0 && trace == [] && rootNode == None
      ensures Valid()
    {
      this.tokens := tokens;
      this.errorHandler := errorHandler;
      tokenIndex := 0;
      trace := [];
      rootNode := None;
    }

    // -------------------------------------------------------------------------
    // Cursor helpers

    /** `matchToken`: the kind test on the current token, without a bounds check, so it
        fails at the end of the list. */
    function MatchToken(kind: TokenKind): (r: Outcome<bool>)
      reads this
      ensures r.Success? <==> tokenIndex < |tokens|
      ensures r.Success? ==> (r.value <==> tokens[tokenIndex].kind == kind)
    {
      if tokenIndex < |tokens| then Success(tokens[tokenIndex].kind == kind) else Failure(IndexOutOfBounds)
    }

    /** The guarded test `tokenIndex < tokens.size() && matchToken(kind)` that most branches use. */
    predicate At(kind: TokenKind)
      reads this
    {
      tokenIndex < |tokens| && tokens[tokenIndex].kind == kind
    }

    /** The guarded test for a token that may start an expression. */
    predicate AtExpStart()
      reads this
    {
      tokenIndex < |tokens| && ExpStart(tokens[tokenIndex].kind)
    }

    /** `preMatchToken`: the kind test one token ahead; false when there is no such token. */
    function PreMatchToken(kind: TokenKind): (r: bool)
      reads this
      ensures r <==> tokenIndex + 1 < |tokens| && tokens[tokenIndex + 1].kind == kind
    {
      if tokenIndex + 1 >= |tokens| then false else tokens[tokenIndex + 1].kind == kind
    }

    /** `prePreMatchToken`: the kind test two tokens ahead; false when there is no such token. */
    function PrePreMatchToken(kind: TokenKind): (r: bool)
      reads this
      ensures r <==> tokenIndex + 2 < |tokens| && tokens[tokenIndex + 2].kind == kind
    {
      if tokenIndex + 2 >= |tokens| then false else tokens[tokenIndex + 2].kind == kind
    }

    /** `getTokenLine`: the line the parser reports errors at. Once a token has been consumed it
        is the line of the last consumed token, whether or not the cursor is at the end; with no
        tokens at all it is 0; before the first token of a non-empty list the Java code reads
        index -1 and fails. */
    function TokenLine(): (r: Outcome<int>)
      reads this
      ensures 0 < tokenIndex <= |tokens| ==> r == Success(tokens[tokenIndex - 1].lineNumber)
      ensures r.Failure? <==> tokenIndex == 0 && |tokens| > 0
      ensures tokens == [] ==> r == Success(0)
    {
      if tokenIndex < |tokens| then
        (if tokenIndex == 0 then Failure(IndexOutOfBounds) else Success(tokens[tokenIndex - 1].lineNumber))
      else if |tokens| > 0 then Success(tokens[|tokens| - 1].lineNumber)
      else Success(0)
    }

    /** `consumeToken`: returns the current token and advances the cursor by exactly one; the
        expected kind is ignored. Past the end of the list it fails and moves nothing. */
    method ConsumeToken(expectedType: TokenKind) returns (r: Outcome<Token>)
      modifies this
      ensures old(tokenIndex) < |tokens| ==> r == Success(tokens[old(tokenIndex)]) && tokenIndex == old(tokenIndex) + 1
      ensures old(tokenIndex) >= |tokens| ==> r.Failure? && tokenIndex == old(tokenIndex)
      ensures trace == old(trace)
    {
      if tokenIndex >= |tokens| {
        return Failure(IndexOutOfBounds);
      }
      r := Success(tokens[tokenIndex]);
      tokenIndex := tokenIndex + 1;
    }

    /** `outputToken`: writes the token's `toString` as one line. */
    method OutputToken(token: Token)
      modifies this
      ensures trace == old(trace) + [Echo(token)]
      ensures tokenIndex == old(tokenIndex)
    {
      trace := trace + [Echo(token)];
    }

    /** `outputSyntaxNode`: writes `<Name>`, except for `BlockItem`, `Decl` and `BType`. */
    method OutputSyntaxNode(node: SyntaxNode)
      requires node.syntaxType.Some?
      modifies this
      ensures trace == old(trace) + Reduction(node.syntaxType.value)
      ensures tokenIndex == old(tokenIndex)
    {
      var name := node.syntaxType.value;
      if name == BlockItem || name == Decl || name == BType {
        return;
      }
      trace := trace + [Reduced(name)];
    }

    // -------------------------------------------------------------------------
    // The state of a production under construction

    /** `node`, a production begun at cursor `start` with trace `trace0`, has its children in
        place: when the cursor stood at `index` and the trace was `written`, the production had
        consumed exactly the tokens below its children and written exactly their body. */
    ghost predicate Mark(node: SyntaxNode, start: nat, trace0: seq<Line>, index: nat, written: seq<Line>)
      reads node
    {
      node.shape.Interior? && node.syntaxType == Some(node.shape.name) &&
      start <= index <= |tokens| &&
      written == trace0 + Body(node.shape.name, node.shape.children, |node.shape.children|) &&
      Frontiers(node.shape.children, |node.shape.children|) == Span(tokens, start, index)
    }

    /** `Mark` in the current state. */
    ghost predicate Building(node: SyntaxNode, start: nat, trace0: seq<Line>)
      reads this, node
    {
      Mark(node, start, trace0, tokenIndex, trace)
    }

    /** `node` is a finished production begun at cursor `start` with trace `trace0`: the
        tokens consumed since are exactly its frontier, and what was written since is exactly
        its emission. */
    ghost predicate Produced(node: SyntaxNode, start: nat, trace0: seq<Line>)
      reads this, node
    {
      start <= tokenIndex <= |tokens| &&
      trace == trace0 + Emission(node.shape) && Frontier(node.shape) == Span(tokens, start, tokenIndex)
    }

    // -------------------------------------------------------------------------
    // The steps every production is made of

    /** The idiom after each `consumeToken`: wrap the token in a terminal node, add it as the
        next child of `node` and echo it to the trace. */
    method Shift(node: SyntaxNode, expectedType: TokenKind, ghost start: nat, ghost trace0: seq<Line>) returns (s: Status)
      requires Building(node, start, trace0) && (Ordinary(node) || |node.shape.children| % 2 == 1)
      modifies this, node
      ensures Building(node, start, trace0)
      ensures s.Done? <==> old(tokenIndex) < |tokens|
      ensures s.Done? ==> tokenIndex == old(tokenIndex) + 1 &&
                          node.shape == Interior(old(node.shape.name), old(node.shape.children) + [Leaf(tokens[old(tokenIndex)])])
      ensures s.Stop? ==> tokenIndex == old(tokenIndex) && trace == old(trace) && node.shape == old(node.shape)
    {
      var t := ConsumeToken(expectedType);
      if t.Failure? {
        return Stop(t.fault);
      }
      var leaf := new SyntaxNode.OfToken(TERMINAL, t.value);
      node.AddChild(leaf);
      OutputToken(t.value);
      assert trace == old(trace) + Emission(leaf.shape) + After(node.shape.name, |old(node.shape.children)|);
      Grow(node.shape.name, old(node.shape.children), leaf.shape, trace0, old(trace), trace);
      assert Span(tokens, start, tokenIndex) == Span(tokens, start, old(tokenIndex)) + [t.value];
      return Done;
    }

    /** `addChild` of a finished sub-production `child`, begun when `node` was marked at
        (`mid`, `written`). */
    method Adopt(node: SyntaxNode, child: SyntaxNode, ghost start: nat, ghost trace0: seq<Line>, ghost mid: nat, ghost written: seq<Line>)
      requires node != child && Mark(node, start, trace0, mid, written)
      requires Ordinary(node) || |node.shape.children| % 2 == 1
      requires Produced(child, mid, written)
      modifies node
      ensures node.shape == Interior(old(node.shape.name), old(node.shape.children) + [old(child.shape)])
      ensures Building(node, start, trace0)
    {
      node.AddChild(child);
      assert trace == written + Emission(child.shape) + After(node.shape.name, |old(node.shape.children)|);
      Grow(node.shape.name, old(node.shape.children), child.shape, trace0, written, trace);
      SpanSplit(tokens, start, mid, tokenIndex);
    }

    /** A binary production's `addChild` of an operand followed by `outputSyntaxNode`. */
    method AdoptOperand(node: SyntaxNode, child: SyntaxNode, ghost start: nat, ghost trace0: seq<Line>, ghost mid: nat, ghost written: seq<Line>)
      requires node != child && Mark(node, start, trace0, mid, written)
      requires Binary(node) && |node.shape.children| % 2 == 0
      requires Produced(child, mid, written)
      modifies node, this
      ensures node.shape == Interior(old(node.shape.name), old(node.shape.children) + [old(child.shape)])
      ensures Building(node, start, trace0)
      ensures tokenIndex == old(tokenIndex)
    {
      node.AddChild(child);
      OutputSyntaxNode(node);
      Grow(node.shape.name, old(node.shape.children), child.shape, trace0, written, trace);
      SpanSplit(tokens, start, mid, tokenIndex);
    }

    /** A binary production is finished once its last operand is in place: its last
        `outputSyntaxNode` has already been written. */
    lemma Finished(node: SyntaxNode, start: nat, trace0: seq<Line>)
      requires Building(node, start, trace0) && Binary(node)
      ensures Produced(node, start, trace0)
    {
    }

    /** The final `outputSyntaxNode` of an ordinary production. */
    method Close(node: SyntaxNode, ghost start: nat, ghost trace0: seq<Line>)
      requires Building(node, start, trace0) && Ordinary(node)
      modifies this
      ensures Produced(node, start, trace0)
    {
      OutputSyntaxNode(node);
    }

    /** `Shift` where a guard has already seen the current token: it cannot fail. */
    method Accept(node: SyntaxNode, expectedType: TokenKind, ghost start: nat, ghost trace0: seq<Line>)
      requires Building(node, start, trace0) && (Ordinary(node) || |node.shape.children| % 2 == 1)
      requires tokenIndex < |tokens|
      modifies this, node
      ensures Building(node, start, trace0)
      ensures tokenIndex == old(tokenIndex) + 1
      ensures node.shape == Interior(old(node.shape.name), old(node.shape.children) + [Leaf(tokens[old(tokenIndex)])])
    {
      var s := Shift(node, expectedType, start, trace0);
    }

    /** The recovery idiom for a closing `;`, `)` or `]` once some token has been consumed:
        when the current token has the expected kind it is shifted; otherwise nothing is
        consumed or written and `code` is reported at `getTokenLine()`, the line of the last
        consumed token. */
    method Expect(node: SyntaxNode, kind: TokenKind, code: string, ghost start: nat, ghost trace0: seq<Line>)
      requires Building(node, start, trace0) && (Ordinary(node) || |node.shape.children| % 2 == 1)
      requires 0 < tokenIndex
      modifies this, node, errorHandler
      ensures Building(node, start, trace0)
      ensures old(At(kind)) ==> tokenIndex == old(tokenIndex) + 1 &&
                                node.shape == Interior(old(node.shape.name), old(node.shape.children) + [Leaf(tokens[old(tokenIndex)])]) &&
                                errorHandler.errorMessages == old(errorHandler.errorMessages)
      ensures !old(At(kind)) ==> tokenIndex == old(tokenIndex) && trace == old(trace) && node.shape == old(node.shape) &&
                                 errorHandler.errorMessages == old(errorHandler.errorMessages) + [Diagnostics.Entry(tokens[tokenIndex - 1].lineNumber, code)]
    {
      if At(kind) {
        Accept(node, kind, start, trace0);
      } else {
        var line := TokenLine();
        errorHandler.ReportError(line.value, code);
      }
    }

    /** `Expect` as one step of a production: whichever way the test goes, the node is still
        being built and the cursor has not moved back. */
    method ExpectStep(node: SyntaxNode, kind: TokenKind, code: string, ghost start: nat, ghost trace0: seq<Line>)
      requires Building(node, start, trace0) && Ordinary(node)
      requires 0 < tokenIndex
      modifies this, node, errorHandler
      ensures Valid() && Building(node, start, trace0) && old(tokenIndex) <= tokenIndex
      ensures Extends(old(node.shape.children), node.shape.children, [Maybe(Kind(kind))])
    {
      ghost var c0, i0, hit := node.shape.children, tokenIndex, At(kind);
      Expect(node, kind, code, start, trace0);
      if hit {
        ExtendsOne(c0, node.shape.children, Leaf(tokens[i0]), Kind(kind));
      } else {
        ExtendsNone(c0, Maybe(Kind(kind)));
      }
    }

    /** `Expect` where the cursor may still be at the first token: there `getTokenLine()` of a
        non-empty list fails. */
    method ExpectOrStop(node: SyntaxNode, kind: TokenKind, code: string, ghost start: nat, ghost trace0: seq<Line>) returns (s: Status)
      requires Building(node, start, trace0) && (Ordinary(node) || |node.shape.children| % 2 == 1)
      modifies this, node, errorHandler
      ensures Building(node, start, trace0)
      ensures old(At(kind)) ==> s.Done? && tokenIndex == old(tokenIndex) + 1 &&
                                node.shape == Interior(old(node.shape.name), old(node.shape.children) + [Leaf(tokens[old(tokenIndex)])]) &&
                                errorHandler.errorMessages == old(errorHandler.errorMessages)
      ensures !old(At(kind)) ==> tokenIndex == old(tokenIndex) && trace == old(trace) && node.shape == old(node.shape)
      ensures !old(At(kind)) ==> (s.Done? <==> old(TokenLine()).Success?)
      ensures !old(At(kind)) && s.Done? ==>
                errorHandler.errorMessages == old(errorHandler.errorMessages) + [Diagnostics.Entry(old(TokenLine()).value, code)]
      ensures s.Stop? ==> errorHandler.errorMessages == old(errorHandler.errorMessages)
    {
      if At(kind) {
        Accept(node, kind, start, trace0);
        return Done;
      }
      var line := TokenLine();
      if line.Failure? {
        return Stop(line.fault);
      }
      errorHandler.ReportError(line.value, code);
      return Done;
    }

    /** `ExpectOrStop` as one step of a production: when it does not stop, the node is still
        being built and has gained at most the expected token. */
    method ExpectOrStopStep(node: SyntaxNode, kind: TokenKind, code: string, ghost start: nat, ghost trace0: seq<Line>) returns (s: Status)
      requires Building(node, start, trace0) && Ordinary(node)
      modifies this, node, errorHandler
      ensures Valid() && old(tokenIndex) <= tokenIndex
      ensures s.Done? ==> Building(node, start, trace0) && Extends(old(node.shape.children), node.shape.children, [Maybe(Kind(kind))])
    {
      ghost var c0, i0, hit := node.shape.children, tokenIndex, At(kind);
      s := ExpectOrStop(node, kind, code, start, trace0);
      if hit {
        ExtendsOne(c0, node.shape.children, Leaf(tokens[i0]), Kind(kind));
      } else {
        ExtendsNone(c0, Maybe(Kind(kind)));
      }
    }

    /** The operator step of `LAndExp` and `LOrExp`: the operator is shifted; when it is the
        lone character `lone` (the lexer also gives a single `&` or `|` the kind AND or OR),
        code `a` is reported at `getTokenLine()`, which is then the operator's own line. (The
        Java code reports between `addChild` and `outputToken`; the trace and the diagnostics
        are separate lists, so the order is not observable.) */
    method ShiftLogical(node: SyntaxNode, lone: string, ghost start: nat, ghost trace0: seq<Line>)
      requires Building(node, start, trace0) && (Ordinary(node) || |node.shape.children| % 2 == 1)
      requires tokenIndex < |tokens|
      modifies this, node, errorHandler
      ensures Building(node, start, trace0)
      ensures tokenIndex == old(tokenIndex) + 1
      ensures node.shape == Interior(old(node.shape.name), old(node.shape.children) + [Leaf(tokens[old(tokenIndex)])])
      ensures var op := tokens[old(tokenIndex)];
              errorHandler.errorMessages == old(errorHandler.errorMessages) + (if op.value == lone then [Diagnostics.Entry(op.lineNumber, "a")] else [])
    {
      Accept(node, tokens[tokenIndex].kind, start, trace0);
      if tokens[tokenIndex - 1].value == lone {
        var line := TokenLine();
        errorHandler.ReportError(line.value, "a");
      }
    }

    // -------------------------------------------------------------------------
    // The entry point

    /** `parse`: a `CompUnit` from the cursor on, kept as `rootNode`. On success the parser has
        written exactly the emission of the tree it returns; the written lines that do not
        start with `<` are `toString` of the consumed tokens, in order; the last line is
        `<CompUnit>`; and no `<BlockItem>`, `<Decl>` or `<BType>` line was written. */
    method Parse() returns (r: Outcome<SyntaxNode>)
      requires Valid()
      modifies this, errorHandler
      ensures Valid() && old(tokenIndex) <= tokenIndex
      ensures r.Success? ==> rootNode == Some(r.value) && Named(r.value.shape, CompUnit) && Sections(r.value.shape.children)
      ensures r.Success? ==> trace == old(trace) + Emission(r.value.shape)
      ensures r.Success? ==> Written(old(trace), trace, tokens[old(tokenIndex)..tokenIndex])
    {
      ghost var start, trace0 := tokenIndex, trace;
      var root :- ParseCompUnit();
      rootNode := Some(root);
      CompUnitWritten(trace0, root.shape, tokens, start, tokenIndex);
      return Success(root);
    }

    // -------------------------------------------------------------------------
    // The productions. Each `decreases` pairs the unread tokens with a rank: a production
    // calls one of lower rank before consuming anything, and any production after it has
    // consumed a token.

    /** `parseCompUnit`: declarations while the head is `const`, `static` or `int IDENFR` not
        followed by `(`; then function definitions while the head is `void` or `int IDENFR (`;
        then `main`. */
    method ParseCompUnit() returns (r: Outcome<SyntaxNode>)
      requires Valid()
      modifies this, errorHandler
      ensures Valid() && old(tokenIndex) <= tokenIndex
      ensures r.Success? ==> fresh(r.value) && Named(r.value.shape, CompUnit) && Produced(r.value, old(tokenIndex), old(trace))
      ensures r.Success? ==> Sections(r.value.shape.children)
      decreases |tokens| - tokenIndex, 24
    {
      var node := new SyntaxNode.OfSyntaxType(NON_TERMINAL, CompUnit);
      ghost var start, trace0 := tokenIndex, trace;
      :- CompUnitDecls(node, start, trace0);
      ghost var decls := |node.shape.children|;
      :- CompUnitFuncDefs(node, start, trace0);
      ghost var cs, mainFuncDef := node.shape.children, node.shape;
      var s;
      s, mainFuncDef := AdoptMainFuncDef(node, start, trace0);
      if s.Stop? {
        return Failure(s.fault);
      }
      SectionsFormed(cs, decls, mainFuncDef);
      Close(node, start, trace0);
      return Success(node);
    }

    /** The declaration loop of `parseCompUnit`. */
    method CompUnitDecls(node: SyntaxNode, ghost start: nat, ghost trace0: seq<Line>) returns (s: Status)
      requires Building(node, start, trace0) && node.syntaxType == Some(CompUnit) && node.shape.children == []
      modifies this, errorHandler, node
      ensures Valid() && old(tokenIndex) <= tokenIndex
      ensures s.Done? ==> Building(node, start, trace0)
      ensures s.Done? ==> forall i :: 0 <= i < |node.shape.children| ==> Named(node.shape.children[i], Decl)
      decreases |tokens| - tokenIndex, 23
    {
      while At(CONSTTK) || At(STATICTK) || (At(INTTK) && PreMatchToken(IDENFR) && !PrePreMatchToken(LPARENT))
        invariant Valid() && old(tokenIndex) <= tokenIndex && Building(node, start, trace0)
        invariant forall i :: 0 <= i < |node.shape.children| ==> Named(node.shape.children[i], Decl)
        decreases |tokens| - tokenIndex
      {
        ghost var decl;
        s, decl := AdoptDecl(node, start, trace0);
        if s.Stop? {
          return;
        }
      }
      return Done;
    }

    /** The function definition loop of `parseCompUnit`. */
    method CompUnitFuncDefs(node: SyntaxNode, ghost start: nat, ghost trace0: seq<Line>) returns (s: Status)
      requires Building(node, start, trace0) && node.syntaxType == Some(CompUnit) && forall i :: 0 <= i < |node.shape.children| ==> Named(node.shape.children[i], Decl)
      modifies this, errorHandler, node
      ensures Valid() && old(tokenIndex) <= tokenIndex
      ensures s.Done? ==> Building(node, start, trace0)
      ensures s.Done? ==> DeclsThenFuncDefs(node.shape.children, |old(node.shape.children)|)
      decreases |tokens| - tokenIndex, 23
    {
      ghost var k := |node.shape.children|;
      while At(VOIDTK) || (At(INTTK) && PreMatchToken(IDENFR) && PrePreMatchToken(LPARENT))
        invariant Valid() && old(tokenIndex) <= tokenIndex && Building(node, start, trace0)
        invariant DeclsThenFuncDefs(node.shape.children, k)
        decreases |tokens| - tokenIndex
      {
        ghost var cs, funcDef := node.shape.children, node.shape;
        s, funcDef := AdoptFuncDef(node, start, trace0);
        if s.Stop? {
          return;
        }
        DeclsThenFuncDefsSnoc(cs, k, funcDef);
      }
      return Done;
    }

    /** `parseDecl`: a `ConstDecl` when the head is `const`, else a `VarDecl`. Always consumes. */
    method ParseDecl() returns (r: Outcome<SyntaxNode>)
      requires Valid()
      modifies this, errorHandler
      ensures Valid() && old(tokenIndex) <= tokenIndex
      ensures r.Success? ==> fresh(r.value) && Named(r.value.shape, Decl) && Produced(r.value, old(tokenIndex), old(trace))
      ensures r.Success? ==> old(tokenIndex) < tokenIndex
      decreases |tokens| - tokenIndex, 4
    {
      var node := new SyntaxNode.OfSyntaxType(NON_TERMINAL, Decl);
      ghost var start, trace0 := tokenIndex, trace;
      if At(CONSTTK) {
        :- AdoptConstDecl(node, start, trace0);
      } else {
        :- AdoptVarDecl(node, start, trace0);
      }
      Close(node, start, trace0);
      return Success(node);
    }

    /** `parseConstDecl`: `const BType ConstDef { , ConstDef }` and `;`, or error `i`. */
    method ParseConstDecl() returns (r: Outcome<SyntaxNode>)
      requires Valid()
      modifies this, errorHandler
      ensures Valid() && old(tokenIndex) <= tokenIndex
      ensures r.Success? ==> fresh(r.value) && Named(r.value.shape, ConstDecl) && Produced(r.value, old(tokenIndex), old(trace))
      ensures r.Success? ==> old(tokenIndex) < tokenIndex
      decreases |tokens| - tokenIndex, 0
    {
      var node := new SyntaxNode.OfSyntaxType(NON_TERMINAL, ConstDecl);
      ghost var start, trace0 := tokenIndex, trace;
      :- Shift(node, CONSTTK, start, trace0);
      :- AdoptBType(node, start, trace0);
      :- ConstDefs(node, start, trace0);
      ExpectStep(node, SEMICN, "i", start, trace0);
      Close(node, start, trace0);
      return Success(node);
    }

    /** The `ConstDef { , ConstDef }` of `parseConstDecl`. */
    method ConstDefs(node: SyntaxNode, ghost start: nat, ghost trace0: seq<Line>) returns (s: Status)
      requires Building(node, start, trace0) && Ordinary(node)
      modifies this, errorHandler, node
      ensures Valid() && old(tokenIndex) <= tokenIndex
      ensures s.Done? ==> Building(node, start, trace0)
      decreases |tokens| - tokenIndex, 2
    {
      s := AdoptConstDef(node, start, trace0);
      if s.Stop? {
        return;
      }
      while At(COMMA)
        invariant Valid() && old(tokenIndex) <= tokenIndex && Building(node, start, trace0)
        decreases |tokens| - tokenIndex
      {
        Accept(node, COMMA, start, trace0);
        s := AdoptConstDef(node, start, trace0);
        if s.Stop? {
          return;
        }
      }
      return Done;
    }

    /** `parseBType`: the `int` token, whatever it is. */
    method ParseBType() returns (r: Outcome<SyntaxNode>)
      requires Valid()
      modifies this, errorHandler
      ensures Valid() && old(tokenIndex) <= tokenIndex
      ensures r.Success? ==> fresh(r.value) && Named(r.value.shape, BType) && Produced(r.value, old(tokenIndex), old(trace))
      ensures r.Success? ==> tokenIndex == old(tokenIndex) + 1
      decreases |tokens| - tokenIndex, 0
    {
      var node := new SyntaxNode.OfSyntaxType(NON_TERMINAL, BType);
      ghost var start, trace0 := tokenIndex, trace;
      :- Shift(node, INTTK, start, trace0);
      Close(node, start, trace0);
      return Success(node);
    }

    /** `parseConstDef`: `IDENFR [ '[' ConstExp ']' ] = ConstInitVal`. The `]` test here has no
        bounds check, and the `=` is taken unconditionally. */
    method ParseConstDef() returns (r: Outcome<SyntaxNode>)
      requires Valid()
      modifies this, errorHandler
      ensures Valid() && old(tokenIndex) <= tokenIndex
      ensures r.Success? ==> fresh(r.value) && Named(r.value.shape, ConstDef) && Produced(r.value, old(tokenIndex), old(trace))
      decreases |tokens| - tokenIndex, 0
    {
      var node := new SyntaxNode.OfSyntaxType(NON_TERMINAL, ConstDef);
      ghost var start, trace0 := tokenIndex, trace;
      :- Shift(node, IDENFR, start, trace0);
      :- ConstDefDimension(node, start, trace0);
      :- Shift(node, ASSIGN, start, trace0);
      :- AdoptConstInitVal(node, start, trace0);
      Close(node, start, trace0);
      return Success(node);
    }

    /** The optional `[ ConstExp ]` of `parseConstDef`; the test for `]` reads the head without a
        bounds check. */
    method ConstDefDimension(node: SyntaxNode, ghost start: nat, ghost trace0: seq<Line>) returns (s: Status)
      requires Building(node, start, trace0) && Ordinary(node)
      modifies this, errorHandler, node
      ensures Valid() && old(tokenIndex) <= tokenIndex
      ensures s.Done? ==> Building(node, start, trace0)
      decreases |tokens| - tokenIndex, 0
    {
      if At(LBRACK) {
        Accept(node, LBRACK, start, trace0);
        s := AdoptConstExp(node, start, trace0);
        if s.Stop? {
          return;
        }
        var closing := MatchToken(RBRACK);
        if closing.Failure? {
          return Stop(closing.fault);
        }
        ExpectStep(node, RBRACK, "k", start, trace0);
      }
      return Done;
    }

    /** `parseConstExp`: an `AddExp`. */
    method ParseConstExp() returns (r: Outcome<SyntaxNode>)
      requires Valid()
      modifies this, errorHandler
      ensures Valid() && old(tokenIndex) <= tokenIndex
      ensures r.Success? ==> fresh(r.value) && Named(r.value.shape, ConstExp) && Produced(r.value, old(tokenIndex), old(trace))
      decreases |tokens| - tokenIndex, 10
    {
      var node := new SyntaxNode.OfSyntaxType(NON_TERMINAL, ConstExp);
      ghost var start, trace0 := tokenIndex, trace;
      :- AdoptAddExp(node, start, trace0);
      Close(node, start, trace0);
      return Success(node);
    }

    /** `parseAddExp`: `MulExp { (+ | -) MulExp }`, writing `<AddExp>` after each operand. */
    method ParseAddExp() returns (r: Outcome<SyntaxNode>)
      requires Valid()
      modifies this, errorHandler
      ensures Valid() && old(tokenIndex) <= tokenIndex
      ensures r.Success? ==> fresh(r.value) && Named(r.value.shape, AddExp) && Produced(r.value, old(tokenIndex), old(trace))
      ensures r.Success? ==> Alternating(r.value.shape.children, MulExp, {PLUS, MINU})
      decreases |tokens| - tokenIndex, 8
    {
      var node := new SyntaxNode.OfSyntaxType(NON_TERMINAL, AddExp);
      ghost var start, trace0 := tokenIndex, trace;
      :- AdoptMulExpOperand(node, start, trace0);
      AlternatingStart(node.shape.children[0], MulExp, {PLUS, MINU});
      assert node.shape.children == [node.shape.children[0]];
      while At(PLUS) || At(MINU)
        invariant Valid() && start <= tokenIndex && Building(node, start, trace0)
        invariant Alternating(node.shape.children, MulExp, {PLUS, MINU})
        decreases |tokens| - tokenIndex
      {
        ghost var cs, op := node.shape.children, Leaf(tokens[tokenIndex]);
        :- AddExpStep(node, start, trace0);
        AlternatingRound(cs, node.shape.children, op, MulExp, {PLUS, MINU});
      }
      Finished(node, start, trace0);
      return Success(node);
    }

    /** One round of the `AddExp` loop: the operator, then the next operand and its `<AddExp>`. */
    method AddExpStep(node: SyntaxNode, ghost start: nat, ghost trace0: seq<Line>) returns (s: Status)
      requires Building(node, start, trace0) && node.syntaxType == Some(AddExp)
      requires |node.shape.children| % 2 == 1 && (At(PLUS) || At(MINU))
      modifies this, errorHandler, node
      ensures Valid() && old(tokenIndex) < tokenIndex
      ensures s.Done? ==> Building(node, start, trace0) &&
                          GrewBy(old(node.shape.children), node.shape.children, Leaf(old(tokens[tokenIndex])), MulExp)
      decreases |tokens| - tokenIndex, 0
    {
      // `consumeToken` of the operator's own kind; the expected kind is not checked anyway
      Accept(node, tokens[tokenIndex].kind, start, trace0);
      s := AdoptMulExpOperand(node, start, trace0);
    }

    /** `parseMulExp`: `UnaryExp { (* | / | %) UnaryExp }`, writing `<MulExp>` after each operand. */
    method ParseMulExp() returns (r: Outcome<SyntaxNode>)
      requires Valid()
      modifies this, errorHandler
      ensures Valid() && old(tokenIndex) <= tokenIndex
      ensures r.Success? ==> fresh(r.value) && Named(r.value.shape, MulExp) && Produced(r.value, old(tokenIndex), old(trace))
      ensures r.Success? ==> Alternating(r.value.shape.children, UnaryExp, {MULT, DIV, MOD})
      decreases |tokens| - tokenIndex, 6
    {
      var node := new SyntaxNode.OfSyntaxType(NON_TERMINAL, MulExp);
      ghost var start, trace0 := tokenIndex, trace;
      :- AdoptUnaryExpOperand(node, start, trace0);
      AlternatingStart(node.shape.children[0], UnaryExp, {MULT, DIV, MOD});
      assert node.shape.children == [node.shape.children[0]];
      while At(MULT) || At(DIV) || At(MOD)
        invariant Valid() && start <= tokenIndex && Building(node, start, trace0)
        invariant Alternating(node.shape.children, UnaryExp, {MULT, DIV, MOD})
        decreases |tokens| - tokenIndex
      {
        ghost var cs, op := node.shape.children, Leaf(tokens[tokenIndex]);
        :- MulExpStep(node, start, trace0);
        AlternatingRound(cs, node.shape.children, op, UnaryExp, {MULT, DIV, MOD});
      }
      Finished(node, start, trace0);
      return Success(node);
    }

    /** One round of the `MulExp` loop: the operator, then the next operand and its `<MulExp>`. */
    method MulExpStep(node: SyntaxNode, ghost start: nat, ghost trace0: seq<Line>) returns (s: Status)
      requires Building(node, start, trace0) && node.syntaxType == Some(MulExp)
      requires |node.shape.children| % 2 == 1 && (At(MULT) || At(DIV) || At(MOD))
      modifies this, errorHandler, node
      ensures Valid() && old(tokenIndex) < tokenIndex
      ensures s.Done? ==> Building(node, start, trace0) &&
                          GrewBy(old(node.shape.children), node.shape.children, Leaf(old(tokens[tokenIndex])), UnaryExp)
      decreases |tokens| - tokenIndex, 0
    {
      // `consumeToken` of the operator's own kind; the expected kind is not checked anyway
      Accept(node, tokens[tokenIndex].kind, start, trace0);
      s := AdoptUnaryExpOperand(node, start, trace0);
    }

    /** `parseUnaryExp`: `UnaryOp UnaryExp` when the head is `+`, `-` or `!`; otherwise (testing
        the head without a bounds check) a `PrimaryExp` when it is `(` or a number; otherwise a
        call `IDENFR ( [FuncRParams] )` when the next token is `(`, with error `j` for a missing
        `)`; otherwise a `PrimaryExp`. */
    method ParseUnaryExp() returns (r: Outcome<SyntaxNode>)
      requires Valid()
      modifies this, errorHandler
      ensures Valid() && old(tokenIndex) <= tokenIndex
      ensures r.Success? ==> fresh(r.value) && Named(r.value.shape, UnaryExp) && Produced(r.value, old(tokenIndex), old(trace))
      decreases |tokens| - tokenIndex, 4
    {
      var node := new SyntaxNode.OfSyntaxType(NON_TERMINAL, UnaryExp);
      ghost var start, trace0 := tokenIndex, trace;
      if At(PLUS) || At(MINU) || At(NOT) {
        ghost var mid, written := tokenIndex, trace;
        var unaryOp := ParseUnaryOp();
        Adopt(node, unaryOp, start, trace0, mid, written);
        :- AdoptUnaryExp(node, start, trace0);
        Close(node, start, trace0);
        return Success(node);
      }
      var isParen :- MatchToken(LPARENT);
      // once the first test has read the head, the second cannot fail
      if isParen || At(INTCON) {
        :- AdoptPrimaryExp(node, start, trace0);
      } else if PreMatchToken(LPARENT) {
        :- FunctionCall(node, start, trace0);
      } else {
        :- AdoptPrimaryExp(node, start, trace0);
      }
      Close(node, start, trace0);
      return Success(node);
    }

    /** The call form of `parseUnaryExp`: `IDENFR (`, the arguments when the head may start an
        expression, then `)` or error `j`. */
    method FunctionCall(node: SyntaxNode, ghost start: nat, ghost trace0: seq<Line>) returns (s: Status)
      requires Building(node, start, trace0) && Ordinary(node) && PreMatchToken(LPARENT)
      modifies this, errorHandler, node
      ensures Valid() && old(tokenIndex) <= tokenIndex
      ensures s.Done? ==> Building(node, start, trace0)
      ensures s.Done? ==> Extends(old(node.shape.children), node.shape.children, CallForm())
      decreases |tokens| - tokenIndex, 3
    {
      ghost var c0, t0, t1 := node.shape.children, Leaf(tokens[tokenIndex]), Leaf(tokens[tokenIndex + 1]);
      assert Fits(t1, Kind(LPARENT));
      Accept(node, IDENFR, start, trace0);
      ghost var c1 := node.shape.children;
      assert c1 == c0 + [t0];
      Accept(node, LPARENT, start, trace0);
      ghost var c2 := node.shape.children;
      assert c2 == c1 + [t1];
      if AtExpStart() {
        s := AdoptFuncRParams(node, start, trace0);
        if s.Stop? {
          return;
        }
        ExtendsGrew(c2, node.shape.children, FuncRParams);
      } else {
        ExtendsNone(c2, Maybe(Node(FuncRParams)));
      }
      ghost var c3 := node.shape.children;
      ExpectStep(node, RPARENT, "j", start, trace0);
      CallFormed(c0, c1, c2, c3, node.shape.children, t0, t1);
      return Done;
    }

    /** `parsePrimaryExp`: `( Exp )` with error `j` for a missing `)`; an `LVal` when the head is
        an identifier; otherwise a `Number`. */
    method ParsePrimaryExp() returns (r: Outcome<SyntaxNode>)
      requires Valid()
      modifies this, errorHandler
      ensures Valid() && old(tokenIndex) <= tokenIndex
      ensures r.Success? ==> fresh(r.value) && Named(r.value.shape, PrimaryExp) && Produced(r.value, old(tokenIndex), old(trace))
      decreases |tokens| - tokenIndex, 2
    {
      var node := new SyntaxNode.OfSyntaxType(NON_TERMINAL, PrimaryExp);
      ghost var start, trace0 := tokenIndex, trace;
      if At(LPARENT) {
        Accept(node, LPARENT, start, trace0);
        :- AdoptExp(node, start, trace0);
        ExpectStep(node, RPARENT, "j", start, trace0);
      } else if At(IDENFR) {
        :- AdoptLVal(node, start, trace0);
      } else {
        :- AdoptNumber(node, start, trace0);
      }
      Close(node, start, trace0);
      return Success(node);
    }

    /** `parseExp`: an `AddExp`. */
    method ParseExp() returns (r: Outcome<SyntaxNode>)
      requires Valid()
      modifies this, errorHandler
      ensures Valid() && old(tokenIndex) <= tokenIndex
      ensures r.Success? ==> fresh(r.value) && Named(r.value.shape, Exp) && Produced(r.value, old(tokenIndex), old(trace))
      decreases |tokens| - tokenIndex, 10
    {
      var node := new SyntaxNode.OfSyntaxType(NON_TERMINAL, Exp);
      ghost var start, trace0 := tokenIndex, trace;
      :- AdoptAddExp(node, start, trace0);
      Close(node, start, trace0);
      return Success(node);
    }

    /** `parseLVal`: `IDENFR [ '[' Exp ']' ]`, with error `k` for a missing `]`. */
    method ParseLVal() returns (r: Outcome<SyntaxNode>)
      requires Valid()
      modifies this, errorHandler
      ensures Valid() && old(tokenIndex) <= tokenIndex
      ensures r.Success? ==> fresh(r.value) && Named(r.value.shape, LVal) && Produced(r.value, old(tokenIndex), old(trace))
      decreases |tokens| - tokenIndex, 0
    {
      var node := new SyntaxNode.OfSyntaxType(NON_TERMINAL, LVal);
      ghost var start, trace0 := tokenIndex, trace;
      :- Shift(node, IDENFR, start, trace0);
      if At(LBRACK) {
        Accept(node, LBRACK, start, trace0);
        :- AdoptExp(node, start, trace0);
        ExpectStep(node, RBRACK, "k", start, trace0);
      }
      Close(node, start, trace0);
      return Success(node);
    }

    /** `parseNumber`: the integer constant, whatever the token is. */
    method ParseNumber() returns (r: Outcome<SyntaxNode>)
      requires Valid()
      modifies this, errorHandler
      ensures Valid() && old(tokenIndex) <= tokenIndex
      ensures r.Success? ==> fresh(r.value) && Named(r.value.shape, Number) && Produced(r.value, old(tokenIndex), old(trace))
      decreases |tokens| - tokenIndex, 0
    {
      var node := new SyntaxNode.OfSyntaxType(NON_TERMINAL, Number);
      ghost var start, trace0 := tokenIndex, trace;
      :- Shift(node, INTCON, start, trace0);
      Close(node, start, trace0);
      return Success(node);
    }

    /** `parseFuncRParams`: `Exp { , Exp }`; a comma that is the last token is not taken. */
    method ParseFuncRParams() returns (r: Outcome<SyntaxNode>)
      requires Valid()
      modifies this, errorHandler
      ensures Valid() && old(tokenIndex) <= tokenIndex
      ensures r.Success? ==> fresh(r.value) && Named(r.value.shape, FuncRParams) && Produced(r.value, old(tokenIndex), old(trace))
      decreases |tokens| - tokenIndex, 12
    {
      var node := new SyntaxNode.OfSyntaxType(NON_TERMINAL, FuncRParams);
      ghost var start, trace0 := tokenIndex, trace;
      :- AdoptExp(node, start, trace0);
      :- FuncRParamList(node, start, trace0);
      Close(node, start, trace0);
      return Success(node);
    }

    /** The `{ , Exp }` loop of `parseFuncRParams`. */
    method FuncRParamList(node: SyntaxNode, ghost start: nat, ghost trace0: seq<Line>) returns (s: Status)
      requires Building(node, start, trace0) && Ordinary(node)
      modifies this, errorHandler, node
      ensures Valid() && old(tokenIndex) <= tokenIndex
      ensures s.Done? ==> Building(node, start, trace0)
      decreases |tokens| - tokenIndex, 0
    {
      while tokenIndex + 1 < |tokens| && At(COMMA)
        invariant Valid() && old(tokenIndex) <= tokenIndex && Building(node, start, trace0)
        decreases |tokens| - tokenIndex
      {
        Accept(node, COMMA, start, trace0);
        s := AdoptExp(node, start, trace0);
        if s.Stop? {
          return;
        }
      }
      return Done;
    }

    /** `parseUnaryOp`: the `+`, `-` or `!` at the head (any token there is taken as `!` when it
        is neither `+` nor `-`); nothing at the end of the list. It cannot fail. */
    method ParseUnaryOp() returns (node: SyntaxNode)
      requires Valid()
      modifies this
      ensures fresh(node) && Named(node.shape, UnaryOp) && Produced(node, old(tokenIndex), old(trace))
      ensures tokenIndex == if old(tokenIndex) < |tokens| then old(tokenIndex) + 1 else old(tokenIndex)
    {
      node := new SyntaxNode.OfSyntaxType(NON_TERMINAL, UnaryOp);
      ghost var start, trace0 := tokenIndex, trace;
      if tokenIndex < |tokens| {
        if At(PLUS) {
          Accept(node, PLUS, start, trace0);
        } else if At(MINU) {
          Accept(node, MINU, start, trace0);
        } else {
          Accept(node, NOT, start, trace0);
        }
      }
      Close(node, start, trace0);
    }

    /** `parseConstInitVal`: `{ }`, or `{ ConstExp { , ConstExp } }` with the closing brace taken
        unconditionally, or a plain `ConstExp`. */
    method ParseConstInitVal() returns (r: Outcome<SyntaxNode>)
      requires Valid()
      modifies this, errorHandler
      ensures Valid() && old(tokenIndex) <= tokenIndex
      ensures r.Success? ==> fresh(r.value) && Named(r.value.shape, ConstInitVal) && Produced(r.value, old(tokenIndex), old(trace))
      decreases |tokens| - tokenIndex, 12
    {
      var node := new SyntaxNode.OfSyntaxType(NON_TERMINAL, ConstInitVal);
      ghost var start, trace0 := tokenIndex, trace;
      if At(LBRACE) {
        Accept(node, LBRACE, start, trace0);
        if At(RBRACE) {
          Accept(node, RBRACE, start, trace0);
        } else {
          :- AdoptConstExp(node, start, trace0);
          :- ConstInitValList(node, start, trace0);
          :- Shift(node, RBRACE, start, trace0);
        }
      } else {
        :- AdoptConstExp(node, start, trace0);
      }
      Close(node, start, trace0);
      return Success(node);
    }

    /** The `{ , ConstExp }` loop of `parseConstInitVal`. */
    method ConstInitValList(node: SyntaxNode, ghost start: nat, ghost trace0: seq<Line>) returns (s: Status)
      requires Building(node, start, trace0) && Ordinary(node)
      modifies this, errorHandler, node
      ensures Valid() && old(tokenIndex) <= tokenIndex
      ensures s.Done? ==> Building(node, start, trace0)
      decreases |tokens| - tokenIndex, 0
    {
      while At(COMMA)
        invariant Valid() && old(tokenIndex) <= tokenIndex && Building(node, start, trace0)
        decreases |tokens| - tokenIndex
      {
        Accept(node, COMMA, start, trace0);
        s := AdoptConstExp(node, start, trace0);
        if s.Stop? {
          return;
        }
      }
      return Done;
    }

    /** `parseVarDecl`: `[static] BType VarDef { , VarDef }` and `;`, or error `i`. */
    method ParseVarDecl() returns (r: Outcome<SyntaxNode>)
      requires Valid()
      modifies this, errorHandler
      ensures Valid() && old(tokenIndex) <= tokenIndex
      ensures r.Success? ==> fresh(r.value) && Named(r.value.shape, VarDecl) && Produced(r.value, old(tokenIndex), old(trace))
      ensures r.Success? ==> old(tokenIndex) < tokenIndex
      decreases |tokens| - tokenIndex, 2
    {
      var node := new SyntaxNode.OfSyntaxType(NON_TERMINAL, VarDecl);
      ghost var start, trace0 := tokenIndex, trace;
      if At(STATICTK) {
        Accept(node, STATICTK, start, trace0);
      }
      :- AdoptBType(node, start, trace0);
      :- VarDefs(node, start, trace0);
      ExpectStep(node, SEMICN, "i", start, trace0);
      Close(node, start, trace0);
      return Success(node);
    }

    /** The `VarDef { , VarDef }` of `parseVarDecl`. */
    method VarDefs(node: SyntaxNode, ghost start: nat, ghost trace0: seq<Line>) returns (s: Status)
      requires Building(node, start, trace0) && Ordinary(node)
      modifies this, errorHandler, node
      ensures Valid() && old(tokenIndex) <= tokenIndex
      ensures s.Done? ==> Building(node, start, trace0)
      decreases |tokens| - tokenIndex, 2
    {
      s := AdoptVarDef(node, start, trace0);
      if s.Stop? {
        return;
      }
      while At(COMMA)
        invariant Valid() && old(tokenIndex) <= tokenIndex && Building(node, start, trace0)
        decreases |tokens| - tokenIndex
      {
        Accept(node, COMMA, start, trace0);
        s := AdoptVarDef(node, start, trace0);
        if s.Stop? {
          return;
        }
      }
      return Done;
    }

    /** `parseVarDef`: `IDENFR [ '[' ConstExp ']' ] [ = InitVal ]`, with error `k` for a missing `]`. */
    method ParseVarDef() returns (r: Outcome<SyntaxNode>)
      requires Valid()
      modifies this, errorHandler
      ensures Valid() && old(tokenIndex) <= tokenIndex
      ensures r.Success? ==> fresh(r.value) && Named(r.value.shape, VarDef) && Produced(r.value, old(tokenIndex), old(trace))
      decreases |tokens| - tokenIndex, 0
    {
      var node := new SyntaxNode.OfSyntaxType(NON_TERMINAL, VarDef);
      ghost var start, trace0 := tokenIndex, trace;
      :- Shift(node, IDENFR, start, trace0);
      :- VarDefDimension(node, start, trace0);
      :- VarDefInit(node, start, trace0);
      Close(node, start, trace0);
      return Success(node);
    }

    /** The optional `[ ConstExp ]` of `parseVarDef`, with error `k` for a missing `]`. */
    method VarDefDimension(node: SyntaxNode, ghost start: nat, ghost trace0: seq<Line>) returns (s: Status)
      requires Building(node, start, trace0) && Ordinary(node)
      modifies this, errorHandler, node
      ensures Valid() && old(tokenIndex) <= tokenIndex
      ensures s.Done? ==> Building(node, start, trace0)
      decreases |tokens| - tokenIndex, 0
    {
      if At(LBRACK) {
        Accept(node, LBRACK, start, trace0);
        s := AdoptConstExp(node, start, trace0);
        if s.Stop? {
          return;
        }
        ExpectStep(node, RBRACK, "k", start, trace0);
      }
      return Done;
    }

    /** The optional `= InitVal` of `parseVarDef`. */
    method VarDefInit(node: SyntaxNode, ghost start: nat, ghost trace0: seq<Line>) returns (s: Status)
      requires Building(node, start, trace0) && Ordinary(node)
      modifies this, errorHandler, node
      ensures Valid() && old(tokenIndex) <= tokenIndex
      ensures s.Done? ==> Building(node, start, trace0)
      decreases |tokens| - tokenIndex, 0
    {
      if At(ASSIGN) {
        Accept(node, ASSIGN, start, trace0);
        s := AdoptInitVal(node, start, trace0);
        if s.Stop? {
          return;
        }
      }
      return Done;
    }

    /** `parseInitVal`: `{ }`, or `{ Exp { , Exp } }` with the closing brace taken
        unconditionally, or a plain `Exp`. */
    method ParseInitVal() returns (r: Outcome<SyntaxNode>)
      requires Valid()
      modifies this, errorHandler
      ensures Valid() && old(tokenIndex) <= tokenIndex
      ensures r.Success? ==> fresh(r.value) && Named(r.value.shape, InitVal) && Produced(r.value, old(tokenIndex), old(trace))
      decreases |tokens| - tokenIndex, 12
    {
      var node := new SyntaxNode.OfSyntaxType(NON_TERMINAL, InitVal);
      ghost var start, trace0 := tokenIndex, trace;
      if At(LBRACE) {
        Accept(node, LBRACE, start, trace0);
        if At(RBRACE) {
          Accept(node, RBRACE, start, trace0);
        } else {
          :- AdoptExp(node, start, trace0);
          :- InitValList(node, start, trace0);
          :- Shift(node, RBRACE, start, trace0);
        }
      } else {
        :- AdoptExp(node, start, trace0);
      }
      Close(node, start, trace0);
      return Success(node);
    }

    /** The `{ , Exp }` loop of `parseInitVal`. */
    method InitValList(node: SyntaxNode, ghost start: nat, ghost trace0: seq<Line>) returns (s: Status)
      requires Building(node, start, trace0) && Ordinary(node)
      modifies this, errorHandler, node
      ensures Valid() && old(tokenIndex) <= tokenIndex
      ensures s.Done? ==> Building(node, start, trace0)
      decreases |tokens| - tokenIndex, 0
    {
      while At(COMMA)
        invariant Valid() && old(tokenIndex) <= tokenIndex && Building(node, start, trace0)
        decreases |tokens| - tokenIndex
      {
        Accept(node, COMMA, start, trace0);
        s := AdoptExp(node, start, trace0);
        if s.Stop? {
          return;
        }
      }
      return Done;
    }

    /** `parseFuncDef`: `FuncType IDENFR ( [FuncFParams] )` with error `j` for a missing `)`, then
        a `Block`. Always consumes. */
    method ParseFuncDef() returns (r: Outcome<SyntaxNode>)
      requires Valid()
      modifies this, errorHandler
      ensures Valid() && old(tokenIndex) <= tokenIndex
      ensures r.Success? ==> fresh(r.value) && Named(r.value.shape, FuncDef) && Produced(r.value, old(tokenIndex), old(trace))
      ensures r.Success? ==> old(tokenIndex) < tokenIndex
      decreases |tokens| - tokenIndex, 2
    {
      var node := new SyntaxNode.OfSyntaxType(NON_TERMINAL, FuncDef);
      ghost var start, trace0 := tokenIndex, trace;
      :- AdoptFuncType(node, start, trace0);
      :- Shift(node, IDENFR, start, trace0);
      :- FuncDefParams(node, start, trace0);
      :- AdoptBlock(node, start, trace0);
      Close(node, start, trace0);
      return Success(node);
    }

    /** The `( [FuncFParams] )` of `parseFuncDef`, the parameters parsed when the head is `int`,
        with error `j` for a missing `)`. */
    method FuncDefParams(node: SyntaxNode, ghost start: nat, ghost trace0: seq<Line>) returns (s: Status)
      requires Building(node, start, trace0) && Ordinary(node)
      modifies this, errorHandler, node
      ensures Valid() && old(tokenIndex) <= tokenIndex
      ensures s.Done? ==> Building(node, start, trace0)
      decreases |tokens| - tokenIndex, 0
    {
      s := Shift(node, LPARENT, start, trace0);
      if s.Stop? {
        return;
      }
      if At(INTTK) {
        s := AdoptFuncFParams(node, start, trace0);
        if s.Stop? {
          return;
        }
      }
      ExpectStep(node, RPARENT, "j", start, trace0);
      return Done;
    }

    /** `parseFuncType`: `int` when the head is `int`, otherwise the token taken as `void`. */
    method ParseFuncType() returns (r: Outcome<SyntaxNode>)
      requires Valid()
      modifies this, errorHandler
      ensures Valid() && old(tokenIndex) <= tokenIndex
      ensures r.Success? ==> fresh(r.value) && Named(r.value.shape, FuncType) && Produced(r.value, old(tokenIndex), old(trace))
      ensures r.Success? ==> tokenIndex == old(tokenIndex) + 1
      decreases |tokens| - tokenIndex, 0
    {
      var node := new SyntaxNode.OfSyntaxType(NON_TERMINAL, FuncType);
      ghost var start, trace0 := tokenIndex, trace;
      if At(INTTK) {
        Accept(node, INTTK, start, trace0);
      } else {
        :- Shift(node, VOIDTK, start, trace0);
      }
      Close(node, start, trace0);
      return Success(node);
    }

    /** `parseFuncFParams`: `FuncFParam { , FuncFParam }`. */
    method ParseFuncFParams() returns (r: Outcome<SyntaxNode>)
      requires Valid()
      modifies this, errorHandler
      ensures Valid() && old(tokenIndex) <= tokenIndex
      ensures r.Success? ==> fresh(r.value) && Named(r.value.shape, FuncFParams) && Produced(r.value, old(tokenIndex), old(trace))
      decreases |tokens| - tokenIndex, 4
    {
      var node := new SyntaxNode.OfSyntaxType(NON_TERMINAL, FuncFParams);
      ghost var start, trace0 := tokenIndex, trace;
      :- AdoptFuncFParam(node, start, trace0);
      :- FuncFParamList(node, start, trace0);
      Close(node, start, trace0);
      return Success(node);
    }

    /** The `{ , FuncFParam }` loop of `parseFuncFParams`. */
    method FuncFParamList(node: SyntaxNode, ghost start: nat, ghost trace0: seq<Line>) returns (s: Status)
      requires Building(node, start, trace0) && Ordinary(node)
      modifies this, errorHandler, node
      ensures Valid() && old(tokenIndex) <= tokenIndex
      ensures s.Done? ==> Building(node, start, trace0)
      decreases |tokens| - tokenIndex, 0
    {
      while At(COMMA)
        invariant Valid() && old(tokenIndex) <= tokenIndex && Building(node, start, trace0)
        decreases |tokens| - tokenIndex
      {
        Accept(node, COMMA, start, trace0);
        s := AdoptFuncFParam(node, start, trace0);
        if s.Stop? {
          return;
        }
      }
      return Done;
    }

    /** `parseFuncFParam`: `BType IDENFR [ '[' ']' ]`, with error `k` for a missing `]`. */
    method ParseFuncFParam() returns (r: Outcome<SyntaxNode>)
      requires Valid()
      modifies this, errorHandler
      ensures Valid() && old(tokenIndex) <= tokenIndex
      ensures r.Success? ==> fresh(r.value) && Named(r.value.shape, FuncFParam) && Produced(r.value, old(tokenIndex), old(trace))
      decreases |tokens| - tokenIndex, 2
    {
      var node := new SyntaxNode.OfSyntaxType(NON_TERMINAL, FuncFParam);
      ghost var start, trace0 := tokenIndex, trace;
      :- AdoptBType(node, start, trace0);
      :- Shift(node, IDENFR, start, trace0);
      if At(LBRACK) {
        Accept(node, LBRACK, start, trace0);
        ExpectStep(node, RBRACK, "k", start, trace0);
      }
      Close(node, start, trace0);
      return Success(node);
    }

    /** `parseBlock`: `{ { BlockItem } }`, the closing brace taken unconditionally. The item loop
        runs while the head is not `}`; an item that consumes nothing would be parsed again from
        the same state for ever, which is reported as `NoProgress`. */
    method ParseBlock() returns (r: Outcome<SyntaxNode>)
      requires Valid()
      modifies this, errorHandler
      ensures Valid() && old(tokenIndex) <= tokenIndex
      ensures r.Success? ==> fresh(r.value) && Named(r.value.shape, Block) && Produced(r.value, old(tokenIndex), old(trace))
      decreases |tokens| - tokenIndex, 0
    {
      var node := new SyntaxNode.OfSyntaxType(NON_TERMINAL, Block);
      ghost var start, trace0 := tokenIndex, trace;
      :- Shift(node, LBRACE, start, trace0);
      :- BlockItems(node, start, trace0);
      :- Shift(node, RBRACE, start, trace0);
      Close(node, start, trace0);
      return Success(node);
    }

    /** The item loop of `parseBlock`, while the head is not `}`; an item that consumes nothing
        would be parsed again from the same state for ever, which is reported as `NoProgress`. */
    method BlockItems(node: SyntaxNode, ghost start: nat, ghost trace0: seq<Line>) returns (s: Status)
      requires Building(node, start, trace0) && Ordinary(node)
      modifies this, errorHandler, node
      ensures Valid() && old(tokenIndex) <= tokenIndex
      ensures s.Done? ==> Building(node, start, trace0)
      decreases |tokens| - tokenIndex, 24
    {
      while tokenIndex < |tokens| && !At(RBRACE)
        invariant Valid() && old(tokenIndex) <= tokenIndex && Building(node, start, trace0)
        decreases |tokens| - tokenIndex
      {
        var before := tokenIndex;
        s := AdoptBlockItem(node, start, trace0);
        if s.Stop? {
          return;
        }
        if tokenIndex == before {
          return Stop(NoProgress);
        }
      }
      return Done;
    }

    /** `parseBlockItem`: a `Decl` when the head is `const`, `int` or `static`, else a `Stmt`. */
    method ParseBlockItem() returns (r: Outcome<SyntaxNode>)
      requires Valid()
      modifies this, errorHandler
      ensures Valid() && old(tokenIndex) <= tokenIndex
      ensures r.Success? ==> fresh(r.value) && Named(r.value.shape, BlockItem) && Produced(r.value, old(tokenIndex), old(trace))
      decreases |tokens| - tokenIndex, 22
    {
      var node := new SyntaxNode.OfSyntaxType(NON_TERMINAL, BlockItem);
      ghost var start, trace0 := tokenIndex, trace;
      if At(CONSTTK) || At(INTTK) || At(STATICTK) {
        ghost var decl;
        var s;
        s, decl := AdoptDecl(node, start, trace0);
        if s.Stop? {
          return Failure(s.fault);
        }
      } else {
        :- AdoptStmt(node, start, trace0);
      }
      Close(node, start, trace0);
      return Success(node);
    }

    /** `parseStmt`: chooses the statement form by its head token: `if`, `for`, `break`,
        `continue`, `return`, `printf`, a block; an assignment when the next token is `[` or `=`;
        otherwise an optional expression and `;`. Each form continues in its own method, and
        the statement's children have the form `StmtForm` names for that head. */
    method ParseStmt() returns (r: Outcome<SyntaxNode>)
      requires Valid()
      modifies this, errorHandler
      ensures Valid() && old(tokenIndex) <= tokenIndex
      ensures r.Success? ==> fresh(r.value) && Named(r.value.shape, Stmt) && Produced(r.value, old(tokenIndex), old(trace))
      ensures r.Success? ==> Matches(r.value.shape.children, StmtForm(tokens, old(tokenIndex)))
      decreases |tokens| - tokenIndex, 20
    {
      var node := new SyntaxNode.OfSyntaxType(NON_TERMINAL, Stmt);
      ghost var start, trace0 := tokenIndex, trace;
      ghost var form := StmtForm(tokens, start);
      if At(IFTK) {
        assert form == IfForm();
        r := IfStmt(node, start, trace0);
      } else if At(FORTK) {
        assert form == ForForm();
        r := ForLoop(node, start, trace0);
      } else if At(BREAKTK) || At(CONTINUETK) {
        assert form == JumpForm(tokens[start].kind);
        r := JumpStmt(node, start, trace0);
      } else if At(RETURNTK) {
        assert form == ReturnForm();
        r := ReturnStmt(node, start, trace0);
      } else {
        r := LaterStmt(node, start, trace0);
      }
    }

    /** The rest of `parseStmt`'s `if` chain, once the head is none of `if`, `for`, `break`,
        `continue` and `return`. */
    method LaterStmt(node: SyntaxNode, ghost start: nat, ghost trace0: seq<Line>) returns (r: Outcome<SyntaxNode>)
      requires Building(node, start, trace0) && node.syntaxType == Some(Stmt) && node.shape.children == []
      requires !At(IFTK) && !At(FORTK) && !At(BREAKTK) && !At(CONTINUETK) && !At(RETURNTK)
      modifies this, errorHandler, node
      ensures Valid() && old(tokenIndex) <= tokenIndex
      ensures r.Success? ==> r.value == node && Named(node.shape, Stmt) && Produced(node, start, trace0)
      ensures r.Success? ==> Matches(node.shape.children, StmtForm(tokens, start))
      decreases |tokens| - tokenIndex, 14
    {
      ghost var form := StmtForm(tokens, start);
      if At(PRINTFTK) {
        assert form == PrintfForm();
        r := PrintfStmt(node, start, trace0);
      } else if At(LBRACE) {
        assert form == BlockForm();
        r := BlockStmt(node, start, trace0);
      } else if tokenIndex + 1 < |tokens| && (PreMatchToken(LBRACK) || PreMatchToken(ASSIGN)) {
        assert form == AssignForm();
        r := AssignStmt(node, start, trace0);
      } else {
        assert form == ExpForm();
        r := ExpStmt(node, start, trace0);
      }
    }

    /** `if ( Cond )` with error `j` for a missing `)`, a `Stmt`, and `else Stmt` when the head is `else`. */
    method IfStmt(node: SyntaxNode, ghost start: nat, ghost trace0: seq<Line>) returns (r: Outcome<SyntaxNode>)
      requires Building(node, start, trace0) && node.syntaxType == Some(Stmt) && At(IFTK)
      requires node.shape.children == []
      modifies this, errorHandler, node
      ensures Valid() && old(tokenIndex) <= tokenIndex
      ensures r.Success? ==> r.value == node && Named(node.shape, Stmt) && Produced(node, start, trace0)
      ensures r.Success? ==> Matches(node.shape.children, IfForm())
      decreases |tokens| - tokenIndex, 12
    {
      ghost var c0, i0 := node.shape.children, tokenIndex;
      Accept(node, IFTK, start, trace0);
      ghost var c1, i1 := node.shape.children, tokenIndex;
      :- Shift(node, LPARENT, start, trace0);
      ghost var c2 := node.shape.children;
      :- AdoptCond(node, start, trace0);
      ghost var c3 := node.shape.children;
      ExpectStep(node, RPARENT, "j", start, trace0);
      ghost var c4 := node.shape.children;
      :- AdoptStmt(node, start, trace0);
      ghost var c5 := node.shape.children;
      :- ElseBranch(node, start, trace0);
      IfFormed(c0, c1, c2, c3, c4, c5, node.shape.children, Leaf(tokens[i0]), Leaf(tokens[i1]));
      Close(node, start, trace0);
      return Success(node);
    }

    /** The optional `else Stmt` of an `if` statement, taken when the head is `else`. */
    method ElseBranch(node: SyntaxNode, ghost start: nat, ghost trace0: seq<Line>) returns (s: Status)
      requires Building(node, start, trace0) && Ordinary(node)
      modifies this, errorHandler, node
      ensures Valid() && old(tokenIndex) <= tokenIndex
      ensures s.Done? ==> Building(node, start, trace0)
      ensures s.Done? ==> Extends(old(node.shape.children), node.shape.children, [MaybePair(Kind(ELSETK), Node(Stmt))])
      decreases |tokens| - tokenIndex, 0
    {
      ghost var c0, i0 := node.shape.children, tokenIndex;
      if At(ELSETK) {
        Accept(node, ELSETK, start, trace0);
        ghost var c1 := node.shape.children;
        s := AdoptStmt(node, start, trace0);
        if s.Stop? {
          return;
        }
        ExtendsPair(c0, c1, node.shape.children, Leaf(tokens[i0]), Kind(ELSETK), Node(Stmt));
      } else {
        ExtendsNone(c0, MaybePair(Kind(ELSETK), Node(Stmt)));
      }
      return Done;
    }

    /** `for ( [ForStmt] ; [Cond] ; [ForStmt] )` with both `;` taken unconditionally and error `j`
        for a missing `)`, then a `Stmt`. A `ForStmt` is parsed when the head is an identifier, a
        `Cond` when it is not `;`. */
    method ForLoop(node: SyntaxNode, ghost start: nat, ghost trace0: seq<Line>) returns (r: Outcome<SyntaxNode>)
      requires Building(node, start, trace0) && node.syntaxType == Some(Stmt) && At(FORTK)
      requires node.shape.children == []
      modifies this, errorHandler, node
      ensures Valid() && old(tokenIndex) <= tokenIndex
      ensures r.Success? ==> r.value == node && Named(node.shape, Stmt) && Produced(node, start, trace0)
      ensures r.Success? ==> Matches(node.shape.children, ForForm())
      decreases |tokens| - tokenIndex, 12
    {
      ghost var c0 := node.shape.children;
      var s := ForInit(node, start, trace0);
      if s.Stop? {
        return Failure(s.fault);
      }
      ghost var c1 := node.shape.children;
      :- ForCond(node, start, trace0);
      ghost var c2 := node.shape.children;
      :- ForUpdate(node, start, trace0);
      ghost var c3 := node.shape.children;
      :- AdoptStmt(node, start, trace0);
      ghost var c4 := node.shape.children;
      ExtendsGrew(c3, c4, Stmt);
      ExtendsTrans(c0, c1, c2, ForHead(), ForMiddle());
      ExtendsTrans(c0, c2, c3, ForHead() + ForMiddle(), ForTail());
      ExtendsTrans(c0, c3, c4, ForHead() + ForMiddle() + ForTail(), [One(Node(Stmt))]);
      ExtendsEmpty(c4, ForForm());
      Close(node, start, trace0);
      return Success(node);
    }

    /** `for (`, then the initialising `ForStmt` when the head is an identifier, then `;`. */
    method ForInit(node: SyntaxNode, ghost start: nat, ghost trace0: seq<Line>) returns (s: Status)
      requires Building(node, start, trace0) && Ordinary(node) && At(FORTK)
      modifies this, errorHandler, node
      ensures Valid() && old(tokenIndex) <= tokenIndex
      ensures s.Done? ==> Building(node, start, trace0)
      ensures s.Done? ==> old(tokenIndex) < tokenIndex
      ensures s.Done? ==> Extends(old(node.shape.children), node.shape.children, ForHead())
      decreases |tokens| - tokenIndex, 0
    {
      ghost var c0, i0 := node.shape.children, tokenIndex;
      Accept(node, FORTK, start, trace0);
      ghost var c1, i1 := node.shape.children, tokenIndex;
      ExtendsOne(c0, c1, Leaf(tokens[i0]), Kind(FORTK));
      s := Shift(node, LPARENT, start, trace0);
      if s.Stop? {
        return;
      }
      ghost var c2 := node.shape.children;
      ExtendsOne(c1, c2, Leaf(tokens[i1]), AnyToken);
      if At(IDENFR) {
        s := AdoptForStmt(node, start, trace0);
        if s.Stop? {
          return;
        }
        ExtendsGrew(c2, node.shape.children, ForStmt);
      } else {
        ExtendsNone(c2, Maybe(Node(ForStmt)));
      }
      ghost var c3, i3 := node.shape.children, tokenIndex;
      s := Shift(node, SEMICN, start, trace0);
      if s.Stop? {
        return;
      }
      ExtendsOne(c3, node.shape.children, Leaf(tokens[i3]), AnyToken);
      Steps4(c0, c1, c2, c3, node.shape.children, One(Kind(FORTK)), One(AnyToken), Maybe(Node(ForStmt)), One(AnyToken));
      return Done;
    }

    /** The `Cond` of a `for` when the head is not `;`, then `;`. */
    method ForCond(node: SyntaxNode, ghost start: nat, ghost trace0: seq<Line>) returns (s: Status)
      requires Building(node, start, trace0) && Ordinary(node)
      modifies this, errorHandler, node
      ensures Valid() && old(tokenIndex) <= tokenIndex
      ensures s.Done? ==> Building(node, start, trace0)
      ensures s.Done? ==> old(tokenIndex) < tokenIndex
      ensures s.Done? ==> Extends(old(node.shape.children), node.shape.children, ForMiddle())
      decreases |tokens| - tokenIndex, 20
    {
      ghost var c0 := node.shape.children;
      if tokenIndex < |tokens| && !At(SEMICN) {
        s := AdoptCond(node, start, trace0);
        if s.Stop? {
          return;
        }
        ExtendsGrew(c0, node.shape.children, Cond);
      } else {
        ExtendsNone(c0, Maybe(Node(Cond)));
      }
      ghost var c1, i1 := node.shape.children, tokenIndex;
      s := Shift(node, SEMICN, start, trace0);
      if s.Stop? {
        return;
      }
      ExtendsOne(c1, node.shape.children, Leaf(tokens[i1]), AnyToken);
      Steps2(c0, c1, node.shape.children, Maybe(Node(Cond)), One(AnyToken));
      return Done;
    }

    /** The updating `ForStmt` of a `for` when the head is an identifier, then `)` or error `j`. */
    method ForUpdate(node: SyntaxNode, ghost start: nat, ghost trace0: seq<Line>) returns (s: Status)
      requires Building(node, start, trace0) && Ordinary(node) && 0 < tokenIndex
      modifies this, errorHandler, node
      ensures Valid() && old(tokenIndex) <= tokenIndex
      ensures s.Done? ==> Building(node, start, trace0)
      ensures s.Done? ==> Extends(old(node.shape.children), node.shape.children, ForTail())
      decreases |tokens| - tokenIndex, 5
    {
      ghost var c0 := node.shape.children;
      if At(IDENFR) {
        s := AdoptForStmt(node, start, trace0);
        if s.Stop? {
          return;
        }
        ExtendsGrew(c0, node.shape.children, ForStmt);
      } else {
        ExtendsNone(c0, Maybe(Node(ForStmt)));
      }
      ghost var c1 := node.shape.children;
      ExpectStep(node, RPARENT, "j", start, trace0);
      Steps2(c0, c1, node.shape.children, Maybe(Node(ForStmt)), Maybe(Kind(RPARENT)));
      return Done;
    }

    /** A block statement. */
    method BlockStmt(node: SyntaxNode, ghost start: nat, ghost trace0: seq<Line>) returns (r: Outcome<SyntaxNode>)
      requires Building(node, start, trace0) && node.syntaxType == Some(Stmt) && At(LBRACE)
      requires node.shape.children == []
      modifies this, errorHandler, node
      ensures Valid() && old(tokenIndex) <= tokenIndex
      ensures r.Success? ==> r.value == node && Named(node.shape, Stmt) && Produced(node, start, trace0)
      ensures r.Success? ==> Matches(node.shape.children, BlockForm())
      decreases |tokens| - tokenIndex, 12
    {
      var s := AdoptBlock(node, start, trace0);
      if s.Stop? {
        return Failure(s.fault);
      }
      ExtendsGrew([], node.shape.children, Block);
      ExtendsEmpty(node.shape.children, BlockForm());
      Close(node, start, trace0);
      return Success(node);
    }

    /** `break ;` or `continue ;`, with error `i` for a missing `;`. */
    method JumpStmt(node: SyntaxNode, ghost start: nat, ghost trace0: seq<Line>) returns (r: Outcome<SyntaxNode>)
      requires Building(node, start, trace0) && node.syntaxType == Some(Stmt) && (At(BREAKTK) || At(CONTINUETK))
      requires node.shape.children == []
      modifies this, errorHandler, node
      ensures Valid() && old(tokenIndex) <= tokenIndex
      ensures r.Success? ==> r.value == node && Named(node.shape, Stmt) && Produced(node, start, trace0)
      ensures r.Success? ==> Matches(node.shape.children, JumpForm(tokens[old(tokenIndex)].kind))
      decreases |tokens| - tokenIndex, 12
    {
      ghost var c0, i0 := node.shape.children, tokenIndex;
      ghost var head := tokens[i0].kind;
      Accept(node, tokens[tokenIndex].kind, start, trace0);
      ghost var c1 := node.shape.children;
      ExtendsOne(c0, c1, Leaf(tokens[i0]), Kind(head));
      ExpectStep(node, SEMICN, "i", start, trace0);
      Steps2(c0, c1, node.shape.children, One(Kind(head)), Maybe(Kind(SEMICN)));
      ExtendsEmpty(node.shape.children, JumpForm(head));
      Close(node, start, trace0);
      return Success(node);
    }

    /** `return [Exp] ;`, the expression parsed when the head may start one, error `i` for a missing `;`. */
    method ReturnStmt(node: SyntaxNode, ghost start: nat, ghost trace0: seq<Line>) returns (r: Outcome<SyntaxNode>)
      requires Building(node, start, trace0) && node.syntaxType == Some(Stmt) && At(RETURNTK)
      requires node.shape.children == []
      modifies this, errorHandler, node
      ensures Valid() && old(tokenIndex) <= tokenIndex
      ensures r.Success? ==> r.value == node && Named(node.shape, Stmt) && Produced(node, start, trace0)
      ensures r.Success? ==> Matches(node.shape.children, ReturnForm())
      decreases |tokens| - tokenIndex, 12
    {
      ghost var c0, i0 := node.shape.children, tokenIndex;
      Accept(node, RETURNTK, start, trace0);
      ghost var c1 := node.shape.children;
      :- OptionalExp(node, start, trace0);
      ghost var c2 := node.shape.children;
      ExpectStep(node, SEMICN, "i", start, trace0);
      ReturnFormed(c0, c1, c2, node.shape.children, Leaf(tokens[i0]));
      Close(node, start, trace0);
      return Success(node);
    }

    /** `printf ( STRCON { , Exp } )` with error `j` for a missing `)`, then `;` or error `i`. */
    method PrintfStmt(node: SyntaxNode, ghost start: nat, ghost trace0: seq<Line>) returns (r: Outcome<SyntaxNode>)
      requires Building(node, start, trace0) && node.syntaxType == Some(Stmt) && At(PRINTFTK)
      requires node.shape.children == []
      modifies this, errorHandler, node
      ensures Valid() && old(tokenIndex) <= tokenIndex
      ensures r.Success? ==> r.value == node && Named(node.shape, Stmt) && Produced(node, start, trace0)
      ensures r.Success? ==> Matches(node.shape.children, PrintfForm())
      decreases |tokens| - tokenIndex, 12
    {
      ghost var c0, i0 := node.shape.children, tokenIndex;
      Accept(node, PRINTFTK, start, trace0);
      ghost var c1, i1 := node.shape.children, tokenIndex;
      :- Shift(node, LPARENT, start, trace0);
      ghost var c2, i2 := node.shape.children, tokenIndex;
      :- Shift(node, STRCON, start, trace0);
      ghost var c3 := node.shape.children;
      :- PrintfArgs(node, start, trace0);
      ghost var c4 := node.shape.children;
      ExpectStep(node, RPARENT, "j", start, trace0);
      ghost var c5 := node.shape.children;
      ExpectStep(node, SEMICN, "i", start, trace0);
      PrintfFormed(c0, c1, c2, c3, c4, c5, node.shape.children, Leaf(tokens[i0]), Leaf(tokens[i1]), Leaf(tokens[i2]));
      Close(node, start, trace0);
      return Success(node);
    }

    /** The `{ , Exp }` loop of `printf`. */
    method PrintfArgs(node: SyntaxNode, ghost start: nat, ghost trace0: seq<Line>) returns (s: Status)
      requires Building(node, start, trace0) && Ordinary(node)
      modifies this, errorHandler, node
      ensures Valid() && old(tokenIndex) <= tokenIndex
      ensures s.Done? ==> Building(node, start, trace0)
      ensures s.Done? ==> Extends(old(node.shape.children), node.shape.children, [Pairs(Kind(COMMA), Node(Exp))])
      decreases |tokens| - tokenIndex, 0
    {
      ghost var c0 := node.shape.children;
      ExtendsNone(c0, Pairs(Kind(COMMA), Node(Exp)));
      while At(COMMA)
        invariant Valid() && old(tokenIndex) <= tokenIndex && Building(node, start, trace0)
        invariant Extends(c0, node.shape.children, [Pairs(Kind(COMMA), Node(Exp))])
        decreases |tokens| - tokenIndex
      {
        ghost var ci, i0 := node.shape.children, tokenIndex;
        Accept(node, COMMA, start, trace0);
        ghost var c1 := node.shape.children;
        s := AdoptExp(node, start, trace0);
        if s.Stop? {
          return;
        }
        ExtendsRound(c0, ci, c1, node.shape.children, Leaf(tokens[i0]), Kind(COMMA), Node(Exp));
      }
      return Done;
    }

    /** `LVal = Exp ;` with the `=` taken unconditionally and error `i` for a missing `;`. */
    method AssignStmt(node: SyntaxNode, ghost start: nat, ghost trace0: seq<Line>) returns (r: Outcome<SyntaxNode>)
      requires Building(node, start, trace0) && node.syntaxType == Some(Stmt) && tokenIndex < |tokens|
      requires node.shape.children == []
      modifies this, errorHandler, node
      ensures Valid() && old(tokenIndex) <= tokenIndex
      ensures r.Success? ==> r.value == node && Named(node.shape, Stmt) && Produced(node, start, trace0)
      ensures r.Success? ==> Matches(node.shape.children, AssignForm())
      decreases |tokens| - tokenIndex, 12
    {
      ghost var c0 := node.shape.children;
      var s := Assignment(node, start, trace0);
      if s.Stop? {
        return Failure(s.fault);
      }
      ghost var c1 := node.shape.children;
      ExpectStep(node, SEMICN, "i", start, trace0);
      AssignFormed(c0, c1, node.shape.children);
      Close(node, start, trace0);
      return Success(node);
    }

    /** `[Exp] ;`, the expression parsed when the head may start one, error `i` for a missing `;`. */
    method ExpStmt(node: SyntaxNode, ghost start: nat, ghost trace0: seq<Line>) returns (r: Outcome<SyntaxNode>)
      requires Building(node, start, trace0) && node.syntaxType == Some(Stmt)
      requires node.shape.children == []
      modifies this, errorHandler, node
      ensures Valid() && old(tokenIndex) <= tokenIndex
      ensures r.Success? ==> r.value == node && Named(node.shape, Stmt) && Produced(node, start, trace0)
      ensures r.Success? ==> Matches(node.shape.children, ExpForm())
      decreases |tokens| - tokenIndex, 13
    {
      ghost var c0 := node.shape.children;
      :- OptionalExp(node, start, trace0);
      ghost var c1 := node.shape.children;
      :- ExpectOrStopStep(node, SEMICN, "i", start, trace0);
      ExpFormed(c0, c1, node.shape.children);
      Close(node, start, trace0);
      return Success(node);
    }

    /** `parseCond`: an `LOrExp`. */
    method ParseCond() returns (r: Outcome<SyntaxNode>)
      requires Valid()
      modifies this, errorHandler
      ensures Valid() && old(tokenIndex) <= tokenIndex
      ensures r.Success? ==> fresh(r.value) && Named(r.value.shape, Cond) && Produced(r.value, old(tokenIndex), old(trace))
      decreases |tokens| - tokenIndex, 18
    {
      var node := new SyntaxNode.OfSyntaxType(NON_TERMINAL, Cond);
      ghost var start, trace0 := tokenIndex, trace;
      :- AdoptLOrExp(node, start, trace0);
      Close(node, start, trace0);
      return Success(node);
    }

    /** `parseLOrExp`: `LAndExp { || LAndExp }`, writing `<LOrExp>` after each operand; a lone
        `|` is reported with `a`. */
    method ParseLOrExp() returns (r: Outcome<SyntaxNode>)
      requires Valid()
      modifies this, errorHandler
      ensures Valid() && old(tokenIndex) <= tokenIndex
      ensures r.Success? ==> fresh(r.value) && Named(r.value.shape, LOrExp) && Produced(r.value, old(tokenIndex), old(trace))
      ensures r.Success? ==> Alternating(r.value.shape.children, LAndExp, {OR})
      decreases |tokens| - tokenIndex, 16
    {
      var node := new SyntaxNode.OfSyntaxType(NON_TERMINAL, LOrExp);
      ghost var start, trace0 := tokenIndex, trace;
      :- AdoptLAndExpOperand(node, start, trace0);
      AlternatingStart(node.shape.children[0], LAndExp, {OR});
      assert node.shape.children == [node.shape.children[0]];
      while At(OR)
        invariant Valid() && start <= tokenIndex && Building(node, start, trace0)
        invariant Alternating(node.shape.children, LAndExp, {OR})
        decreases |tokens| - tokenIndex
      {
        ghost var cs, op := node.shape.children, Leaf(tokens[tokenIndex]);
        :- LOrExpStep(node, start, trace0);
        AlternatingRound(cs, node.shape.children, op, LAndExp, {OR});
      }
      Finished(node, start, trace0);
      return Success(node);
    }

    /** One round of the `LOrExp` loop: the operator, then the next operand and its `<LOrExp>`. */
    method LOrExpStep(node: SyntaxNode, ghost start: nat, ghost trace0: seq<Line>) returns (s: Status)
      requires Building(node, start, trace0) && node.syntaxType == Some(LOrExp)
      requires |node.shape.children| % 2 == 1 && (At(OR))
      modifies this, errorHandler, node
      ensures Valid() && old(tokenIndex) < tokenIndex
      ensures s.Done? ==> Building(node, start, trace0) &&
                          GrewBy(old(node.shape.children), node.shape.children, Leaf(old(tokens[tokenIndex])), LAndExp)
      decreases |tokens| - tokenIndex, 0
    {
      ShiftLogical(node, "|", start, trace0);
      s := AdoptLAndExpOperand(node, start, trace0);
    }

    /** `parseLAndExp`: `EqExp { && EqExp }`, writing `<LAndExp>` after each operand; a lone
        `&` is reported with `a`. */
    method ParseLAndExp() returns (r: Outcome<SyntaxNode>)
      requires Valid()
      modifies this, errorHandler
      ensures Valid() && old(tokenIndex) <= tokenIndex
      ensures r.Success? ==> fresh(r.value) && Named(r.value.shape, LAndExp) && Produced(r.value, old(tokenIndex), old(trace))
      ensures r.Success? ==> Alternating(r.value.shape.children, EqExp, {AND})
      decreases |tokens| - tokenIndex, 14
    {
      var node := new SyntaxNode.OfSyntaxType(NON_TERMINAL, LAndExp);
      ghost var start, trace0 := tokenIndex, trace;
      :- AdoptEqExpOperand(node, start, trace0);
      AlternatingStart(node.shape.children[0], EqExp, {AND});
      assert node.shape.children == [node.shape.children[0]];
      while At(AND)
        invariant Valid() && start <= tokenIndex && Building(node, start, trace0)
        invariant Alternating(node.shape.children, EqExp, {AND})
        decreases |tokens| - tokenIndex
      {
        ghost var cs, op := node.shape.children, Leaf(tokens[tokenIndex]);
        :- LAndExpStep(node, start, trace0);
        AlternatingRound(cs, node.shape.children, op, EqExp, {AND});
      }
      Finished(node, start, trace0);
      return Success(node);
    }

    /** One round of the `LAndExp` loop: the operator, then the next operand and its `<LAndExp>`. */
    method LAndExpStep(node: SyntaxNode, ghost start: nat, ghost trace0: seq<Line>) returns (s: Status)
      requires Building(node, start, trace0) && node.syntaxType == Some(LAndExp)
      requires |node.shape.children| % 2 == 1 && (At(AND))
      modifies this, errorHandler, node
      ensures Valid() && old(tokenIndex) < tokenIndex
      ensures s.Done? ==> Building(node, start, trace0) &&
                          GrewBy(old(node.shape.children), node.shape.children, Leaf(old(tokens[tokenIndex])), EqExp)
      decreases |tokens| - tokenIndex, 0
    {
      ShiftLogical(node, "&", start, trace0);
      s := AdoptEqExpOperand(node, start, trace0);
    }

    /** `parseEqExp`: `RelExp { (== | !=) RelExp }`, writing `<EqExp>` after each operand. */
    method ParseEqExp() returns (r: Outcome<SyntaxNode>)
      requires Valid()
      modifies this, errorHandler
      ensures Valid() && old(tokenIndex) <= tokenIndex
      ensures r.Success? ==> fresh(r.value) && Named(r.value.shape, EqExp) && Produced(r.value, old(tokenIndex), old(trace))
      ensures r.Success? ==> Alternating(r.value.shape.children, RelExp, {EQL, NEQ})
      decreases |tokens| - tokenIndex, 12
    {
      var node := new SyntaxNode.OfSyntaxType(NON_TERMINAL, EqExp);
      ghost var start, trace0 := tokenIndex, trace;
      :- AdoptRelExpOperand(node, start, trace0);
      AlternatingStart(node.shape.children[0], RelExp, {EQL, NEQ});
      assert node.shape.children == [node.shape.children[0]];
      while At(EQL) || At(NEQ)
        invariant Valid() && start <= tokenIndex && Building(node, start, trace0)
        invariant Alternating(node.shape.children, RelExp, {EQL, NEQ})
        decreases |tokens| - tokenIndex
      {
        ghost var cs, op := node.shape.children, Leaf(tokens[tokenIndex]);
        :- EqExpStep(node, start, trace0);
        AlternatingRound(cs, node.shape.children, op, RelExp, {EQL, NEQ});
      }
      Finished(node, start, trace0);
      return Success(node);
    }

    /** One round of the `EqExp` loop: the operator, then the next operand and its `<EqExp>`. */
    method EqExpStep(node: SyntaxNode, ghost start: nat, ghost trace0: seq<Line>) returns (s: Status)
      requires Building(node, start, trace0) && node.syntaxType == Some(EqExp)
      requires |node.shape.children| % 2 == 1 && (At(EQL) || At(NEQ))
      modifies this, errorHandler, node
      ensures Valid() && old(tokenIndex) < tokenIndex
      ensures s.Done? ==> Building(node, start, trace0) &&
                          GrewBy(old(node.shape.children), node.shape.children, Leaf(old(tokens[tokenIndex])), RelExp)
      decreases |tokens| - tokenIndex, 0
    {
      // `consumeToken` of the operator's own kind; the expected kind is not checked anyway
      Accept(node, tokens[tokenIndex].kind, start, trace0);
      s := AdoptRelExpOperand(node, start, trace0);
    }

    /** `parseRelExp`: `AddExp { (< | > | <= | >=) AddExp }`, writing `<RelExp>` after each operand. */
    method ParseRelExp() returns (r: Outcome<SyntaxNode>)
      requires Valid()
      modifies this, errorHandler
      ensures Valid() && old(tokenIndex) <= tokenIndex
      ensures r.Success? ==> fresh(r.value) && Named(r.value.shape, RelExp) && Produced(r.value, old(tokenIndex), old(trace))
      ensures r.Success? ==> Alternating(r.value.shape.children, AddExp, {LSS, GRE, LEQ, GEQ})
      decreases |tokens| - tokenIndex, 10
    {
      var node := new SyntaxNode.OfSyntaxType(NON_TERMINAL, RelExp);
      ghost var start, trace0 := tokenIndex, trace;
      :- AdoptAddExpOperand(node, start, trace0);
      AlternatingStart(node.shape.children[0], AddExp, {LSS, GRE, LEQ, GEQ});
      assert node.shape.children == [node.shape.children[0]];
      while At(LSS) || At(GRE) || At(LEQ) || At(GEQ)
        invariant Valid() && start <= tokenIndex && Building(node, start, trace0)
        invariant Alternating(node.shape.children, AddExp, {LSS, GRE, LEQ, GEQ})
        decreases |tokens| - tokenIndex
      {
        ghost var cs, op := node.shape.children, Leaf(tokens[tokenIndex]);
        :- RelExpStep(node, start, trace0);
        AlternatingRound(cs, node.shape.children, op, AddExp, {LSS, GRE, LEQ, GEQ});
      }
      Finished(node, start, trace0);
      return Success(node);
    }

    /** One round of the `RelExp` loop: the operator, then the next operand and its `<RelExp>`. */
    method RelExpStep(node: SyntaxNode, ghost start: nat, ghost trace0: seq<Line>) returns (s: Status)
      requires Building(node, start, trace0) && node.syntaxType == Some(RelExp)
      requires |node.shape.children| % 2 == 1 && (At(LSS) || At(GRE) || At(LEQ) || At(GEQ))
      modifies this, errorHandler, node
      ensures Valid() && old(tokenIndex) < tokenIndex
      ensures s.Done? ==> Building(node, start, trace0) &&
                          GrewBy(old(node.shape.children), node.shape.children, Leaf(old(tokens[tokenIndex])), AddExp)
      decreases |tokens| - tokenIndex, 0
    {
      // `consumeToken` of the operator's own kind; the expected kind is not checked anyway
      Accept(node, tokens[tokenIndex].kind, start, trace0);
      s := AdoptAddExpOperand(node, start, trace0);
    }

    /** `parseForStmt`: `LVal = Exp { , LVal = Exp }`, each `=` taken unconditionally. */
    method ParseForStmt() returns (r: Outcome<SyntaxNode>)
      requires Valid()
      modifies this, errorHandler
      ensures Valid() && old(tokenIndex) <= tokenIndex
      ensures r.Success? ==> fresh(r.value) && Named(r.value.shape, ForStmt) && Produced(r.value, old(tokenIndex), old(trace))
      decreases |tokens| - tokenIndex, 3
    {
      var node := new SyntaxNode.OfSyntaxType(NON_TERMINAL, ForStmt);
      ghost var start, trace0 := tokenIndex, trace;
      :- Assignment(node, start, trace0);
      :- ForStmtList(node, start, trace0);
      Close(node, start, trace0);
      return Success(node);
    }

    /** The `{ , LVal = Exp }` loop of `parseForStmt`. */
    method ForStmtList(node: SyntaxNode, ghost start: nat, ghost trace0: seq<Line>) returns (s: Status)
      requires Building(node, start, trace0) && Ordinary(node)
      modifies this, errorHandler, node
      ensures Valid() && old(tokenIndex) <= tokenIndex
      ensures s.Done? ==> Building(node, start, trace0)
      decreases |tokens| - tokenIndex, 0
    {
      while At(COMMA)
        invariant Valid() && old(tokenIndex) <= tokenIndex && Building(node, start, trace0)
        decreases |tokens| - tokenIndex
      {
        Accept(node, COMMA, start, trace0);
        s := Assignment(node, start, trace0);
        if s.Stop? {
          return;
        }
      }
      return Done;
    }

    /** The optional `Exp` of `return` and of an expression statement, parsed when the head may
        start one. */
    method OptionalExp(node: SyntaxNode, ghost start: nat, ghost trace0: seq<Line>) returns (s: Status)
      requires Building(node, start, trace0) && Ordinary(node)
      modifies this, errorHandler, node
      ensures Valid() && old(tokenIndex) <= tokenIndex
      ensures s.Done? ==> Building(node, start, trace0) && Extends(old(node.shape.children), node.shape.children, [Maybe(Node(Exp))])
      decreases |tokens| - tokenIndex, 12
    {
      ghost var c0 := node.shape.children;
      if AtExpStart() {
        s := AdoptExp(node, start, trace0);
        if s.Done? {
          ExtendsGrew(c0, node.shape.children, Exp);
        }
      } else {
        ExtendsNone(c0, Maybe(Node(Exp)));
        s := Done;
      }
    }

    /** `LVal = Exp`, the `=` taken unconditionally: the part an assignment statement and
        each assignment of `parseForStmt` share. */
    method Assignment(node: SyntaxNode, ghost start: nat, ghost trace0: seq<Line>) returns (s: Status)
      requires Building(node, start, trace0) && Ordinary(node)
      modifies this, errorHandler, node
      ensures Valid() && old(tokenIndex) <= tokenIndex
      ensures s.Done? ==> Building(node, start, trace0) && Extends(old(node.shape.children), node.shape.children, AssignmentForm())
      ensures s.Done? ==> old(tokenIndex) < tokenIndex
      decreases |tokens| - tokenIndex, 2
    {
      ghost var c0 := node.shape.children;
      s := AdoptLVal(node, start, trace0);
      if s.Stop? {
        return;
      }
      ghost var c1, i1 := node.shape.children, tokenIndex;
      s := Shift(node, ASSIGN, start, trace0);
      if s.Stop? {
        return;
      }
      ghost var c2 := node.shape.children;
      s := AdoptExp(node, start, trace0);
      if s.Done? {
        AssignmentFormed(c0, c1, c2, node.shape.children, Leaf(tokens[i1]));
      }
    }

    /** `parseMainFuncDef`: `int main (` taken unconditionally, `)` or error `j`, then a `Block`. */
    method ParseMainFuncDef() returns (r: Outcome<SyntaxNode>)
      requires Valid()
      modifies this, errorHandler
      ensures Valid() && old(tokenIndex) <= tokenIndex
      ensures r.Success? ==> fresh(r.value) && Named(r.value.shape, MainFuncDef) && Produced(r.value, old(tokenIndex), old(trace))
      decreases |tokens| - tokenIndex, 0
    {
      var node := new SyntaxNode.OfSyntaxType(NON_TERMINAL, MainFuncDef);
      ghost var start, trace0 := tokenIndex, trace;
      :- Shift(node, INTTK, start, trace0);
      :- Shift(node, MAINTK, start, trace0);
      :- Shift(node, LPARENT, start, trace0);
      ExpectStep(node, RPARENT, "j", start, trace0);
      :- AdoptBlock(node, start, trace0);
      Close(node, start, trace0);
      return Success(node);
    }

    // -------------------------------------------------------------------------
    // `node.addChild(parseX())`, one method per production X that appears as a child; each
    // `decreases` lies between that of X and those of its callers.

    /** `node.addChild(parseDecl())`, giving the shape of the new child. */
    method AdoptDecl(node: SyntaxNode, ghost start: nat, ghost trace0: seq<Line>) returns (s: Status, ghost child: Tree)
      requires Building(node, start, trace0) && Ordinary(node)
      modifies this, errorHandler, node
      ensures Valid() && old(tokenIndex) <= tokenIndex
      ensures s.Done? ==> Building(node, start, trace0) && Named(child, Decl) &&
                          node.shape.children == old(node.shape.children) + [child]
      ensures s.Done? ==> old(tokenIndex) < tokenIndex
      decreases |tokens| - tokenIndex, 5
    {
      ghost var mid, written := tokenIndex, trace;
      var c := ParseDecl();
      if c.Failure? {
        return Stop(c.fault), node.shape;
      }
      child := c.value.shape;
      Adopt(node, c.value, start, trace0, mid, written);
      return Done, child;
    }

    /** `node.addChild(parseFuncDef())`, giving the shape of the new child. */
    method AdoptFuncDef(node: SyntaxNode, ghost start: nat, ghost trace0: seq<Line>) returns (s: Status, ghost child: Tree)
      requires Building(node, start, trace0) && Ordinary(node)
      modifies this, errorHandler, node
      ensures Valid() && old(tokenIndex) <= tokenIndex
      ensures s.Done? ==> Building(node, start, trace0) && Named(child, FuncDef) &&
                          node.shape.children == old(node.shape.children) + [child]
      ensures s.Done? ==> old(tokenIndex) < tokenIndex
      decreases |tokens| - tokenIndex, 3
    {
      ghost var mid, written := tokenIndex, trace;
      var c := ParseFuncDef();
      if c.Failure? {
        return Stop(c.fault), node.shape;
      }
      child := c.value.shape;
      Adopt(node, c.value, start, trace0, mid, written);
      return Done, child;
    }

    /** `node.addChild(parseMainFuncDef())`, giving the shape of the new child. */
    method AdoptMainFuncDef(node: SyntaxNode, ghost start: nat, ghost trace0: seq<Line>) returns (s: Status, ghost child: Tree)
      requires Building(node, start, trace0) && Ordinary(node)
      modifies this, errorHandler, node
      ensures Valid() && old(tokenIndex) <= tokenIndex
      ensures s.Done? ==> Building(node, start, trace0) && Named(child, MainFuncDef) &&
                          node.shape.children == old(node.shape.children) + [child]
      decreases |tokens| - tokenIndex, 1
    {
      ghost var mid, written := tokenIndex, trace;
      var c := ParseMainFuncDef();
      if c.Failure? {
        return Stop(c.fault), node.shape;
      }
      child := c.value.shape;
      Adopt(node, c.value, start, trace0, mid, written);
      return Done, child;
    }

    /** `node.addChild(parseConstDecl())`. */
    method AdoptConstDecl(node: SyntaxNode, ghost start: nat, ghost trace0: seq<Line>) returns (s: Status)
      requires Building(node, start, trace0) && Ordinary(node)
      modifies this, errorHandler, node
      ensures Valid() && old(tokenIndex) <= tokenIndex
      ensures s.Done? ==> Building(node, start, trace0)
      ensures s.Done? ==> old(tokenIndex) < tokenIndex
      decreases |tokens| - tokenIndex, 1
    {
      ghost var mid, written := tokenIndex, trace;
      var c := ParseConstDecl();
      if c.Failure? {
        return Stop(c.fault);
      }
      Adopt(node, c.value, start, trace0, mid, written);
      return Done;
    }

    /** `node.addChild(parseVarDecl())`. */
    method AdoptVarDecl(node: SyntaxNode, ghost start: nat, ghost trace0: seq<Line>) returns (s: Status)
      requires Building(node, start, trace0) && Ordinary(node)
      modifies this, errorHandler, node
      ensures Valid() && old(tokenIndex) <= tokenIndex
      ensures s.Done? ==> Building(node, start, trace0)
      ensures s.Done? ==> old(tokenIndex) < tokenIndex
      decreases |tokens| - tokenIndex, 3
    {
      ghost var mid, written := tokenIndex, trace;
      var c := ParseVarDecl();
      if c.Failure? {
        return Stop(c.fault);
      }
      Adopt(node, c.value, start, trace0, mid, written);
      return Done;
    }

    /** `node.addChild(parseBType())`. */
    method AdoptBType(node: SyntaxNode, ghost start: nat, ghost trace0: seq<Line>) returns (s: Status)
      requires Building(node, start, trace0) && Ordinary(node)
      modifies this, errorHandler, node
      ensures Valid() && old(tokenIndex) <= tokenIndex
      ensures s.Done? ==> Building(node, start, trace0)
      ensures s.Done? ==> tokenIndex == old(tokenIndex) + 1
      decreases |tokens| - tokenIndex, 1
    {
      ghost var mid, written := tokenIndex, trace;
      var c := ParseBType();
      if c.Failure? {
        return Stop(c.fault);
      }
      Adopt(node, c.value, start, trace0, mid, written);
      return Done;
    }

    /** `node.addChild(parseConstDef())`. */
    method AdoptConstDef(node: SyntaxNode, ghost start: nat, ghost trace0: seq<Line>) returns (s: Status)
      requires Building(node, start, trace0) && Ordinary(node)
      modifies this, errorHandler, node
      ensures Valid() && old(tokenIndex) <= tokenIndex
      ensures s.Done? ==> Building(node, start, trace0)
      decreases |tokens| - tokenIndex, 1
    {
      ghost var mid, written := tokenIndex, trace;
      var c := ParseConstDef();
      if c.Failure? {
        return Stop(c.fault);
      }
      Adopt(node, c.value, start, trace0, mid, written);
      return Done;
    }

    /** `node.addChild(parseConstInitVal())`. */
    method AdoptConstInitVal(node: SyntaxNode, ghost start: nat, ghost trace0: seq<Line>) returns (s: Status)
      requires Building(node, start, trace0) && Ordinary(node)
      modifies this, errorHandler, node
      ensures Valid() && old(tokenIndex) <= tokenIndex
      ensures s.Done? ==> Building(node, start, trace0)
      decreases |tokens| - tokenIndex, 13
    {
      ghost var mid, written := tokenIndex, trace;
      var c := ParseConstInitVal();
      if c.Failure? {
        return Stop(c.fault);
      }
      Adopt(node, c.value, start, trace0, mid, written);
      return Done;
    }

    /** `node.addChild(parseConstExp())`. */
    method AdoptConstExp(node: SyntaxNode, ghost start: nat, ghost trace0: seq<Line>) returns (s: Status)
      requires Building(node, start, trace0) && Ordinary(node)
      modifies this, errorHandler, node
      ensures Valid() && old(tokenIndex) <= tokenIndex
      ensures s.Done? ==> Building(node, start, trace0)
      decreases |tokens| - tokenIndex, 11
    {
      ghost var mid, written := tokenIndex, trace;
      var c := ParseConstExp();
      if c.Failure? {
        return Stop(c.fault);
      }
      Adopt(node, c.value, start, trace0, mid, written);
      return Done;
    }

    /** `node.addChild(parseAddExp())`. */
    method AdoptAddExp(node: SyntaxNode, ghost start: nat, ghost trace0: seq<Line>) returns (s: Status)
      requires Building(node, start, trace0) && Ordinary(node)
      modifies this, errorHandler, node
      ensures Valid() && old(tokenIndex) <= tokenIndex
      ensures s.Done? ==> Building(node, start, trace0)
      decreases |tokens| - tokenIndex, 9
    {
      ghost var mid, written := tokenIndex, trace;
      var c := ParseAddExp();
      if c.Failure? {
        return Stop(c.fault);
      }
      Adopt(node, c.value, start, trace0, mid, written);
      return Done;
    }

    /** `node.addChild(parseUnaryExp())`. */
    method AdoptUnaryExp(node: SyntaxNode, ghost start: nat, ghost trace0: seq<Line>) returns (s: Status)
      requires Building(node, start, trace0) && Ordinary(node)
      modifies this, errorHandler, node
      ensures Valid() && old(tokenIndex) <= tokenIndex
      ensures s.Done? ==> Building(node, start, trace0)
      decreases |tokens| - tokenIndex, 5
    {
      ghost var mid, written := tokenIndex, trace;
      var c := ParseUnaryExp();
      if c.Failure? {
        return Stop(c.fault);
      }
      Adopt(node, c.value, start, trace0, mid, written);
      return Done;
    }

    /** `node.addChild(parsePrimaryExp())`. */
    method AdoptPrimaryExp(node: SyntaxNode, ghost start: nat, ghost trace0: seq<Line>) returns (s: Status)
      requires Building(node, start, trace0) && Ordinary(node)
      modifies this, errorHandler, node
      ensures Valid() && old(tokenIndex) <= tokenIndex
      ensures s.Done? ==> Building(node, start, trace0)
      decreases |tokens| - tokenIndex, 3
    {
      ghost var mid, written := tokenIndex, trace;
      var c := ParsePrimaryExp();
      if c.Failure? {
        return Stop(c.fault);
      }
      Adopt(node, c.value, start, trace0, mid, written);
      return Done;
    }

    /** `node.addChild(parseFuncRParams())`. */
    method AdoptFuncRParams(node: SyntaxNode, ghost start: nat, ghost trace0: seq<Line>) returns (s: Status)
      requires Building(node, start, trace0) && Ordinary(node)
      modifies this, errorHandler, node
      ensures Valid() && old(tokenIndex) <= tokenIndex
      ensures s.Done? ==> Building(node, start, trace0) && Grew(old(node.shape.children), node.shape.children, FuncRParams)
      decreases |tokens| - tokenIndex, 13
    {
      ghost var mid, written := tokenIndex, trace;
      var c := ParseFuncRParams();
      if c.Failure? {
        return Stop(c.fault);
      }
      Adopt(node, c.value, start, trace0, mid, written);
      return Done;
    }

    /** `node.addChild(parseExp())`. */
    method AdoptExp(node: SyntaxNode, ghost start: nat, ghost trace0: seq<Line>) returns (s: Status)
      requires Building(node, start, trace0) && Ordinary(node)
      modifies this, errorHandler, node
      ensures Valid() && old(tokenIndex) <= tokenIndex
      ensures s.Done? ==> Building(node, start, trace0) && Grew(old(node.shape.children), node.shape.children, Exp)
      decreases |tokens| - tokenIndex, 11
    {
      ghost var mid, written := tokenIndex, trace;
      var c := ParseExp();
      if c.Failure? {
        return Stop(c.fault);
      }
      Adopt(node, c.value, start, trace0, mid, written);
      return Done;
    }

    /** `node.addChild(parseLVal())`. */
    method AdoptLVal(node: SyntaxNode, ghost start: nat, ghost trace0: seq<Line>) returns (s: Status)
      requires Building(node, start, trace0) && Ordinary(node)
      modifies this, errorHandler, node
      ensures Valid() && old(tokenIndex) <= tokenIndex
      ensures s.Done? ==> Building(node, start, trace0) && Grew(old(node.shape.children), node.shape.children, LVal)
      decreases |tokens| - tokenIndex, 1
    {
      ghost var mid, written := tokenIndex, trace;
      var c := ParseLVal();
      if c.Failure? {
        return Stop(c.fault);
      }
      Adopt(node, c.value, start, trace0, mid, written);
      return Done;
    }

    /** `node.addChild(parseNumber())`. */
    method AdoptNumber(node: SyntaxNode, ghost start: nat, ghost trace0: seq<Line>) returns (s: Status)
      requires Building(node, start, trace0) && Ordinary(node)
      modifies this, errorHandler, node
      ensures Valid() && old(tokenIndex) <= tokenIndex
      ensures s.Done? ==> Building(node, start, trace0)
      decreases |tokens| - tokenIndex, 1
    {
      ghost var mid, written := tokenIndex, trace;
      var c := ParseNumber();
      if c.Failure? {
        return Stop(c.fault);
      }
      Adopt(node, c.value, start, trace0, mid, written);
      return Done;
    }

    /** `node.addChild(parseVarDef())`. */
    method AdoptVarDef(node: SyntaxNode, ghost start: nat, ghost trace0: seq<Line>) returns (s: Status)
      requires Building(node, start, trace0) && Ordinary(node)
      modifies this, errorHandler, node
      ensures Valid() && old(tokenIndex) <= tokenIndex
      ensures s.Done? ==> Building(node, start, trace0)
      decreases |tokens| - tokenIndex, 1
    {
      ghost var mid, written := tokenIndex, trace;
      var c := ParseVarDef();
      if c.Failure? {
        return Stop(c.fault);
      }
      Adopt(node, c.value, start, trace0, mid, written);
      return Done;
    }

    /** `node.addChild(parseInitVal())`. */
    method AdoptInitVal(node: SyntaxNode, ghost start: nat, ghost trace0: seq<Line>) returns (s: Status)
      requires Building(node, start, trace0) && Ordinary(node)
      modifies this, errorHandler, node
      ensures Valid() && old(tokenIndex) <= tokenIndex
      ensures s.Done? ==> Building(node, start, trace0)
      decreases |tokens| - tokenIndex, 13
    {
      ghost var mid, written := tokenIndex, trace;
      var c := ParseInitVal();
      if c.Failure? {
        return Stop(c.fault);
      }
      Adopt(node, c.value, start, trace0, mid, written);
      return Done;
    }

    /** `node.addChild(parseFuncType())`. */
    method AdoptFuncType(node: SyntaxNode, ghost start: nat, ghost trace0: seq<Line>) returns (s: Status)
      requires Building(node, start, trace0) && Ordinary(node)
      modifies this, errorHandler, node
      ensures Valid() && old(tokenIndex) <= tokenIndex
      ensures s.Done? ==> Building(node, start, trace0)
      ensures s.Done? ==> tokenIndex == old(tokenIndex) + 1
      decreases |tokens| - tokenIndex, 1
    {
      ghost var mid, written := tokenIndex, trace;
      var c := ParseFuncType();
      if c.Failure? {
        return Stop(c.fault);
      }
      Adopt(node, c.value, start, trace0, mid, written);
      return Done;
    }

    /** `node.addChild(parseBlock())`. */
    method AdoptBlock(node: SyntaxNode, ghost start: nat, ghost trace0: seq<Line>) returns (s: Status)
      requires Building(node, start, trace0) && Ordinary(node)
      modifies this, errorHandler, node
      ensures Valid() && old(tokenIndex) <= tokenIndex
      ensures s.Done? ==> Building(node, start, trace0) && Grew(old(node.shape.children), node.shape.children, Block)
      decreases |tokens| - tokenIndex, 1
    {
      ghost var mid, written := tokenIndex, trace;
      var c := ParseBlock();
      if c.Failure? {
        return Stop(c.fault);
      }
      Adopt(node, c.value, start, trace0, mid, written);
      return Done;
    }

    /** `node.addChild(parseFuncFParams())`. */
    method AdoptFuncFParams(node: SyntaxNode, ghost start: nat, ghost trace0: seq<Line>) returns (s: Status)
      requires Building(node, start, trace0) && Ordinary(node)
      modifies this, errorHandler, node
      ensures Valid() && old(tokenIndex) <= tokenIndex
      ensures s.Done? ==> Building(node, start, trace0)
      decreases |tokens| - tokenIndex, 5
    {
      ghost var mid, written := tokenIndex, trace;
      var c := ParseFuncFParams();
      if c.Failure? {
        return Stop(c.fault);
      }
      Adopt(node, c.value, start, trace0, mid, written);
      return Done;
    }

    /** `node.addChild(parseFuncFParam())`. */
    method AdoptFuncFParam(node: SyntaxNode, ghost start: nat, ghost trace0: seq<Line>) returns (s: Status)
      requires Building(node, start, trace0) && Ordinary(node)
      modifies this, errorHandler, node
      ensures Valid() && old(tokenIndex) <= tokenIndex
      ensures s.Done? ==> Building(node, start, trace0)
      decreases |tokens| - tokenIndex, 3
    {
      ghost var mid, written := tokenIndex, trace;
      var c := ParseFuncFParam();
      if c.Failure? {
        return Stop(c.fault);
      }
      Adopt(node, c.value, start, trace0, mid, written);
      return Done;
    }

    /** `node.addChild(parseBlockItem())`. */
    method AdoptBlockItem(node: SyntaxNode, ghost start: nat, ghost trace0: seq<Line>) returns (s: Status)
      requires Building(node, start, trace0) && Ordinary(node)
      modifies this, errorHandler, node
      ensures Valid() && old(tokenIndex) <= tokenIndex
      ensures s.Done? ==> Building(node, start, trace0)
      decreases |tokens| - tokenIndex, 23
    {
      ghost var mid, written := tokenIndex, trace;
      var c := ParseBlockItem();
      if c.Failure? {
        return Stop(c.fault);
      }
      Adopt(node, c.value, start, trace0, mid, written);
      return Done;
    }

    /** `node.addChild(parseStmt())`. */
    method AdoptStmt(node: SyntaxNode, ghost start: nat, ghost trace0: seq<Line>) returns (s: Status)
      requires Building(node, start, trace0) && Ordinary(node)
      modifies this, errorHandler, node
      ensures Valid() && old(tokenIndex) <= tokenIndex
      ensures s.Done? ==> Building(node, start, trace0) && Grew(old(node.shape.children), node.shape.children, Stmt)
      decreases |tokens| - tokenIndex, 21
    {
      ghost var mid, written := tokenIndex, trace;
      var c := ParseStmt();
      if c.Failure? {
        return Stop(c.fault);
      }
      Adopt(node, c.value, start, trace0, mid, written);
      return Done;
    }

    /** `node.addChild(parseCond())`. */
    method AdoptCond(node: SyntaxNode, ghost start: nat, ghost trace0: seq<Line>) returns (s: Status)
      requires Building(node, start, trace0) && Ordinary(node)
      modifies this, errorHandler, node
      ensures Valid() && old(tokenIndex) <= tokenIndex
      ensures s.Done? ==> Building(node, start, trace0) && Grew(old(node.shape.children), node.shape.children, Cond)
      decreases |tokens| - tokenIndex, 19
    {
      ghost var mid, written := tokenIndex, trace;
      var c := ParseCond();
      if c.Failure? {
        return Stop(c.fault);
      }
      Adopt(node, c.value, start, trace0, mid, written);
      return Done;
    }

    /** `node.addChild(parseForStmt())`. */
    method AdoptForStmt(node: SyntaxNode, ghost start: nat, ghost trace0: seq<Line>) returns (s: Status)
      requires Building(node, start, trace0) && Ordinary(node)
      modifies this, errorHandler, node
      ensures Valid() && old(tokenIndex) <= tokenIndex
      ensures s.Done? ==> Building(node, start, trace0) && Grew(old(node.shape.children), node.shape.children, ForStmt)
      decreases |tokens| - tokenIndex, 4
    {
      ghost var mid, written := tokenIndex, trace;
      var c := ParseForStmt();
      if c.Failure? {
        return Stop(c.fault);
      }
      Adopt(node, c.value, start, trace0, mid, written);
      return Done;
    }

    /** `node.addChild(parseLOrExp())`. */
    method AdoptLOrExp(node: SyntaxNode, ghost start: nat, ghost trace0: seq<Line>) returns (s: Status)
      requires Building(node, start, trace0) && Ordinary(node)
      modifies this, errorHandler, node
      ensures Valid() && old(tokenIndex) <= tokenIndex
      ensures s.Done? ==> Building(node, start, trace0)
      decreases |tokens| - tokenIndex, 17
    {
      ghost var mid, written := tokenIndex, trace;
      var c := ParseLOrExp();
      if c.Failure? {
        return Stop(c.fault);
      }
      Adopt(node, c.value, start, trace0, mid, written);
      return Done;
    }

    /** `node.addChild(parseMulExp())` followed by `outputSyntaxNode(node)`: an operand of `AddExp`. */
    method AdoptMulExpOperand(node: SyntaxNode, ghost start: nat, ghost trace0: seq<Line>) returns (s: Status)
      requires Building(node, start, trace0) && node.syntaxType == Some(AddExp) && |node.shape.children| % 2 == 0
      modifies this, errorHandler, node
      ensures Valid() && old(tokenIndex) <= tokenIndex
      ensures s.Done? ==> Building(node, start, trace0) && Grew(old(node.shape.children), node.shape.children, MulExp)
      decreases |tokens| - tokenIndex, 7
    {
      ghost var mid, written := tokenIndex, trace;
      var c := ParseMulExp();
      if c.Failure? {
        return Stop(c.fault);
      }
      AdoptOperand(node, c.value, start, trace0, mid, written);
      return Done;
    }

    /** `node.addChild(parseUnaryExp())` followed by `outputSyntaxNode(node)`: an operand of `MulExp`. */
    method AdoptUnaryExpOperand(node: SyntaxNode, ghost start: nat, ghost trace0: seq<Line>) returns (s: Status)
      requires Building(node, start, trace0) && node.syntaxType == Some(MulExp) && |node.shape.children| % 2 == 0
      modifies this, errorHandler, node
      ensures Valid() && old(tokenIndex) <= tokenIndex
      ensures s.Done? ==> Building(node, start, trace0) && Grew(old(node.shape.children), node.shape.children, UnaryExp)
      decreases |tokens| - tokenIndex, 5
    {
      ghost var mid, written := tokenIndex, trace;
      var c := ParseUnaryExp();
      if c.Failure? {
        return Stop(c.fault);
      }
      AdoptOperand(node, c.value, start, trace0, mid, written);
      return Done;
    }

    /** `node.addChild(parseLAndExp())` followed by `outputSyntaxNode(node)`: an operand of `LOrExp`. */
    method AdoptLAndExpOperand(node: SyntaxNode, ghost start: nat, ghost trace0: seq<Line>) returns (s: Status)
      requires Building(node, start, trace0) && node.syntaxType == Some(LOrExp) && |node.shape.children| % 2 == 0
      modifies this, errorHandler, node
      ensures Valid() && old(tokenIndex) <= tokenIndex
      ensures s.Done? ==> Building(node, start, trace0) && Grew(old(node.shape.children), node.shape.children, LAndExp)
      decreases |tokens| - tokenIndex, 15
    {
      ghost var mid, written := tokenIndex, trace;
      var c := ParseLAndExp();
      if c.Failure? {
        return Stop(c.fault);
      }
      AdoptOperand(node, c.value, start, trace0, mid, written);
      return Done;
    }

    /** `node.addChild(parseEqExp())` followed by `outputSyntaxNode(node)`: an operand of `LAndExp`. */
    method AdoptEqExpOperand(node: SyntaxNode, ghost start: nat, ghost trace0: seq<Line>) returns (s: Status)
      requires Building(node, start, trace0) && node.syntaxType == Some(LAndExp) && |node.shape.children| % 2 == 0
      modifies this, errorHandler, node
      ensures Valid() && old(tokenIndex) <= tokenIndex
      ensures s.Done? ==> Building(node, start, trace0) && Grew(old(node.shape.children), node.shape.children, EqExp)
      decreases |tokens| - tokenIndex, 13
    {
      ghost var mid, written := tokenIndex, trace;
      var c := ParseEqExp();
      if c.Failure? {
        return Stop(c.fault);
      }
      AdoptOperand(node, c.value, start, trace0, mid, written);
      return Done;
    }

    /** `node.addChild(parseRelExp())` followed by `outputSyntaxNode(node)`: an operand of `EqExp`. */
    method AdoptRelExpOperand(node: SyntaxNode, ghost start: nat, ghost trace0: seq<Line>) returns (s: Status)
      requires Building(node, start, trace0) && node.syntaxType == Some(EqExp) && |node.shape.children| % 2 == 0
      modifies this, errorHandler, node
      ensures Valid() && old(tokenIndex) <= tokenIndex
      ensures s.Done? ==> Building(node, start, trace0) && Grew(old(node.shape.children), node.shape.children, RelExp)
      decreases |tokens| - tokenIndex, 11
    {
      ghost var mid, written := tokenIndex, trace;
      var c := ParseRelExp();
      if c.Failure? {
        return Stop(c.fault);
      }
      AdoptOperand(node, c.value, start, trace0, mid, written);
      return Done;
    }

    /** `node.addChild(parseAddExp())` followed by `outputSyntaxNode(node)`: an operand of `RelExp`. */
    method AdoptAddExpOperand(node: SyntaxNode, ghost start: nat, ghost trace0: seq<Line>) returns (s: Status)
      requires Building(node, start, trace0) && node.syntaxType == Some(RelExp) && |node.shape.children| % 2 == 0
      modifies this, errorHandler, node
      ensures Valid() && old(tokenIndex) <= tokenIndex
      ensures s.Done? ==> Building(node, start, trace0) && Grew(old(node.shape.children), node.shape.children, AddExp)
      decreases |tokens| - tokenIndex, 9
    {
      ghost var mid, written := tokenIndex, trace;
      var c := ParseAddExp();
      if c.Failure? {
        return Stop(c.fault);
      }
      AdoptOperand(node, c.value, start, trace0, mid, written);
      return Done;
    }
  }
}

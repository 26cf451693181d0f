/** Parse-tree nodes (src/parser/SyntaxNode.java).
    A `SyntaxNode` is a mutable object: its `children` list grows by `AddChild`
    and its `lineNumber` may be filled in then. Each node also carries a ghost
    `shape`, the value-level tree that its construction has described so far;
    the parser's trace is stated in terms of it. */
module SyntaxTree {
  import opened Wrappers
  import opened Tokens

  datatype NodeType = TERMINAL | NON_TERMINAL

  /** The syntax types the parser gives its nodes: one per nonterminal of the grammar. */
  datatype Production =
      CompUnit | Decl | ConstDecl | BType | ConstDef | ConstInitVal | VarDecl | VarDef | InitVal
    | FuncDef | MainFuncDef | FuncType | FuncFParams | FuncFParam | Block | BlockItem | Stmt
    | ForStmt | Exp | Cond | LVal | PrimaryExp | Number | UnaryExp | UnaryOp | FuncRParams | MulExp
    | AddExp | RelExp | EqExp | LAndExp | LOrExp | ConstExp

  /** The string the Java code passes as the syntax type: the nonterminal's own name. */
  function Name(p: Production): string {
    match p
    case CompUnit => "CompUnit"
    case Decl => "Decl"
    case ConstDecl => "ConstDecl"
    case BType => "BType"
    case ConstDef => "ConstDef"
    case ConstInitVal => "ConstInitVal"
    case VarDecl => "VarDecl"
    case VarDef => "VarDef"
    case InitVal => "InitVal"
    case FuncDef => "FuncDef"
    case MainFuncDef => "MainFuncDef"
    case FuncType => "FuncType"
    case FuncFParams => "FuncFParams"
    case FuncFParam => "FuncFParam"
    case Block => "Block"
    case BlockItem => "BlockItem"
    case Stmt => "Stmt"
    case ForStmt => "ForStmt"
    case Exp => "Exp"
    case Cond => "Cond"
    case LVal => "LVal"
    case PrimaryExp => "PrimaryExp"
    case Number => "Number"
    case UnaryExp => "UnaryExp"
    case UnaryOp => "UnaryOp"
    case FuncRParams => "FuncRParams"
    case MulExp => "MulExp"
    case AddExp => "AddExp"
    case RelExp => "RelExp"
    case EqExp => "EqExp"
    case LAndExp => "LAndExp"
    case LOrExp => "LOrExp"
    case ConstExp => "ConstExp"
  }

  /** The tree a node stands for: a token leaf, or a named node over its children in order. */
  datatype Tree = Leaf(token: Token) | Interior(name: Production, children: seq<Tree>)

  /** The line a node built from this tree reports: a leaf's token line; for an inner node, the
      stored line of its first child, or -1 when it has none. */
  function FirstLine(t: Tree): int {
    match t
    case Leaf(tok) => tok.lineNumber
    case Interior(_, cs) => if cs == [] then -1 else FirstLine(cs[0])
  }

  /** What `toString` prints for a node built from this tree. */
  function Label(t: Tree): string {
    match t
    case Leaf(tok) => tok.ToString()
    case Interior(name, _) => Name(name)
  }

  class SyntaxNode {
    const nodeType: NodeType
    const syntaxType: Option<Production>
    const token: Option<Token>
    var lineNumber: int
    var children: seq<SyntaxNode>
    ghost var shape: Tree

    /** The node agrees with its shape: its kind, name or token, its number of children,
        and its stored line (and that of its first child) are the ones the shape determines. */
    ghost predicate Consistent()
      reads this, children
    {
      match shape
      case Leaf(tok) =>
        nodeType == TERMINAL && token == Some(tok) && lineNumber == tok.lineNumber
      case Interior(name, cs) =>
        nodeType == NON_TERMINAL && syntaxType == Some(name) && token == None &&
        |children| == |cs| && lineNumber == FirstLine(shape) &&
        (children != [] ==> children[0].lineNumber == FirstLine(cs[0]))
    }

    /** `SyntaxNode(type, syntaxType)`: no token, no children, line -1. */
    constructor OfSyntaxType(nodeType: NodeType, syntaxType: Production)
      ensures this.nodeType == nodeType && this.syntaxType == Some(syntaxType) && token == None
      ensures lineNumber == -1 && children == []
      ensures shape == Interior(syntaxType, [])
      ensures nodeType == NON_TERMINAL ==> Consistent()
    {
      this.nodeType := nodeType;
      this.syntaxType := Some(syntaxType);
      this.token := None;
      lineNumber := -1;
      children := [];
      shape := Interior(syntaxType, []);
    }

    /** `SyntaxNode(type, token)`: no syntax type, the token's line. */
    constructor OfToken(nodeType: NodeType, token: Token)
      ensures this.nodeType == nodeType && syntaxType == None && this.token == Some(token)
      ensures lineNumber == token.lineNumber && children == []
      ensures shape == Leaf(token)
      ensures nodeType == TERMINAL ==> Consistent()
    {
      this.nodeType := nodeType;
      this.syntaxType := None;
      this.token := Some(token);
      lineNumber := token.lineNumber;
      children := [];
      shape := Leaf(token);
    }

    /** `addChild`: appends `node`; while the stored line is still -1 it takes the stored
        line of the first child. A consistent node stays consistent when a consistent child
        is added. */
    method AddChild(node: SyntaxNode)
      modifies this
      ensures children == old(children) + [node]
      ensures lineNumber == if old(lineNumber) == -1 then old((children + [node])[0].lineNumber) else old(lineNumber)
      ensures shape == if old(shape).Interior? then Interior(old(shape).name, old(shape).children + [old(node.shape)]) else old(shape)
      ensures old(Consistent()) && old(shape).Interior? && node != this && old(node.Consistent()) ==> Consistent()
    {
      children := children + [node];
      if lineNumber == -1 {
        lineNumber := children[0].lineNumber;
      }
      if shape.Interior? {
        shape := Interior(shape.name, shape.children + [node.shape]);
      }
    }

    /** `getLineNumber`: the stored line unless it is -1; then a terminal's token line; then
        the first child's stored line; else -1. On a consistent node this is the first line
        of its shape. */
    function GetLineNumber(): (r: int)
      reads this, children
      ensures Consistent() ==> r == FirstLine(shape)
      ensures r != -1 ==> r == lineNumber || (nodeType == TERMINAL && token.Some? && r == token.value.lineNumber)
                          || (children != [] && r == children[0].lineNumber)
    {
      if lineNumber != -1 then lineNumber
      else if nodeType == TERMINAL && token.Some? then token.value.lineNumber
      else if children != [] then children[0].lineNumber
      else -1
    }

    /** `toString`: the syntax type of a non-terminal (possibly null), the token's `toString` for a
        terminal (which must have a token). On a consistent node this is the label of its shape. */
    function ToString(): (r: Option<string>)
      requires nodeType == TERMINAL ==> token.Some?
      reads this
      ensures Consistent() ==> r == Some(Label(shape))
      ensures nodeType == NON_TERMINAL ==> (r.Some? <==> syntaxType.Some?)
    {
      if nodeType == NON_TERMINAL then
        (if syntaxType.Some? then Some(Name(syntaxType.value)) else None)
      else Some(token.value.ToString())
    }
  }
}

/** The token kinds and the keyword table (src/lexer/Keyword.java).
    `TokenType.java` is not part of this model; `TokenKind` lists the kinds the code uses,
    and `KindName` is the enum constant's name, which is what Java prints for it. */
module Keywords {
  import opened Wrappers

  datatype TokenKind =
    | IDENFR | INTCON | STRCON
    | CONSTTK | INTTK | STATICTK | BREAKTK | CONTINUETK | IFTK | ELSETK | FORTK
    | RETURNTK | VOIDTK | MAINTK | PRINTFTK
    | NOT | AND | OR | PLUS | MINU | MULT | DIV | MOD
    | LSS | LEQ | GRE | GEQ | EQL | NEQ | ASSIGN
    | SEMICN | COMMA | LPARENT | RPARENT | LBRACK | RBRACK | LBRACE | RBRACE

  /** The name Java's `Enum.toString` gives each kind. */
  function KindName(k: TokenKind): string {
    match k
    case IDENFR => "IDENFR"       case INTCON => "INTCON"     case STRCON => "STRCON"
    case CONSTTK => "CONSTTK"     case INTTK => "INTTK"       case STATICTK => "STATICTK"
    case BREAKTK => "BREAKTK"     case CONTINUETK => "CONTINUETK"
    case IFTK => "IFTK"           case ELSETK => "ELSETK"     case FORTK => "FORTK"
    case RETURNTK => "RETURNTK"   case VOIDTK => "VOIDTK"     case MAINTK => "MAINTK"
    case PRINTFTK => "PRINTFTK"
    case NOT => "NOT"             case AND => "AND"           case OR => "OR"
    case PLUS => "PLUS"           case MINU => "MINU"         case MULT => "MULT"
    case DIV => "DIV"             case MOD => "MOD"
    case LSS => "LSS"             case LEQ => "LEQ"           case GRE => "GRE"
    case GEQ => "GEQ"             case EQL => "EQL"           case NEQ => "NEQ"
    case ASSIGN => "ASSIGN"
    case SEMICN => "SEMICN"       case COMMA => "COMMA"
    case LPARENT => "LPARENT"     case RPARENT => "RPARENT"
    case LBRACK => "LBRACK"       case RBRACK => "RBRACK"
    case LBRACE => "LBRACE"       case RBRACE => "RBRACE"
  }

  /** A kind name is non-empty, starts with an upper-case letter and has no space:
      it cannot be mistaken for a `<Name>` trace line. */
  lemma KindNameShape(k: TokenKind)
    ensures |KindName(k)| > 0 && 'A' <= KindName(k)[0] <= 'Z'
    ensures ' ' !in KindName(k)
  {
  }

  /** The kind a name denotes (the enum's `valueOf`), or `None` for any other string. */
  function KindOfName(s: string): Option<TokenKind> {
    match s
    case "IDENFR" => Some(IDENFR) case "INTCON" => Some(INTCON) case "STRCON" => Some(STRCON)
    case "CONSTTK" => Some(CONSTTK) case "INTTK" => Some(INTTK) case "STATICTK" => Some(STATICTK)
    case "BREAKTK" => Some(BREAKTK) case "CONTINUETK" => Some(CONTINUETK) case "IFTK" => Some(IFTK)
    case "ELSETK" => Some(ELSETK) case "FORTK" => Some(FORTK) case "RETURNTK" => Some(RETURNTK)
    case "VOIDTK" => Some(VOIDTK) case "MAINTK" => Some(MAINTK) case "PRINTFTK" => Some(PRINTFTK)
    case "NOT" => Some(NOT) case "AND" => Some(AND) case "OR" => Some(OR) case "PLUS" => Some(PLUS)
    case "MINU" => Some(MINU) case "MULT" => Some(MULT) case "DIV" => Some(DIV)
    case "MOD" => Some(MOD) case "LSS" => Some(LSS) case "LEQ" => Some(LEQ) case "GRE" => Some(GRE)
    case "GEQ" => Some(GEQ) case "EQL" => Some(EQL) case "NEQ" => Some(NEQ)
    case "ASSIGN" => Some(ASSIGN) case "SEMICN" => Some(SEMICN) case "COMMA" => Some(COMMA)
    case "LPARENT" => Some(LPARENT) case "RPARENT" => Some(RPARENT) case "LBRACK" => Some(LBRACK)
    case "RBRACK" => Some(RBRACK) case "LBRACE" => Some(LBRACE) case "RBRACE" => Some(RBRACE)
    case _ => None
  }

  /** Round trip: the name of a kind denotes that kind. */
  lemma KindNameRoundTrip(k: TokenKind)
    ensures KindOfName(KindName(k)) == Some(k)
  {
  }

  /** Distinct kinds print differently. */
  lemma {:induction false} KindNameInjective(k1: TokenKind, k2: TokenKind)
    requires KindName(k1) == KindName(k2)
    ensures k1 == k2
  {
    KindNameRoundTrip(k1);
    KindNameRoundTrip(k2);
  }

  /** The static block of Keyword.java, read as the lookup `keywordMap.get(s)`:
      twelve reserved words, then the operators and separators, and `None`
      (Java's null) for every other string. Neither "&" nor "|" is a key. */
  function GetTokenType(s: string): Option<TokenKind> {
    match s
    case "const" => Some(CONSTTK)   case "int" => Some(INTTK)
    case "static" => Some(STATICTK) case "break" => Some(BREAKTK)
    case "continue" => Some(CONTINUETK) case "if" => Some(IFTK)
    case "else" => Some(ELSETK)     case "for" => Some(FORTK)
    case "return" => Some(RETURNTK) case "void" => Some(VOIDTK)
    case "main" => Some(MAINTK)     case "printf" => Some(PRINTFTK)
    case "!" => Some(NOT)   case "&&" => Some(AND)  case "||" => Some(OR)
    case "+" => Some(PLUS)  case "-" => Some(MINU)  case "*" => Some(MULT)
    case "/" => Some(DIV)   case "%" => Some(MOD)
    case "<" => Some(LSS)   case "<=" => Some(LEQ)  case ">" => Some(GRE)
    case ">=" => Some(GEQ)  case "==" => Some(EQL)  case "!=" => Some(NEQ)
    case "=" => Some(ASSIGN)
    case ";" => Some(SEMICN) case "," => Some(COMMA)
    case "(" => Some(LPARENT) case ")" => Some(RPARENT)
    case "[" => Some(LBRACK)  case "]" => Some(RBRACK)
    case "{" => Some(LBRACE)  case "}" => Some(RBRACE)
    case _ => None
  }

  /** `Keyword.isKeyword`: `containsKey`, i.e. the lookup is not null. */
  function IsKeyword(s: string): bool {
    GetTokenType(s).Some?
  }

  /** The twelve reserved words, as listed in the static block. */
  const ReservedWords: set<string> :=
    {"const", "int", "static", "break", "continue", "if", "else", "for",
     "return", "void", "main", "printf"}

  /** The one-character operators of the static block. */
  const SingleCharacterOperators: set<string> := {"!", "+", "-", "*", "/", "%", "<", ">", "="}

  /** The separators of the static block. */
  const Separators: set<string> := {";", ",", "(", ")", "[", "]", "{", "}"}

  /** The one-character operators and separators of the static block. */
  const SingleCharacterPunctuation: set<string> := SingleCharacterOperators + Separators

  /** The two-character operators of the static block. */
  const TwoCharacterOperators: set<string> := {"&&", "||", "<=", ">=", "==", "!="}

  /** The operators and separators of the static block. */
  const Punctuation: set<string> := SingleCharacterPunctuation + TwoCharacterOperators

  /** The key set of the table is exactly the reserved words and the punctuation. */
  lemma KeySet(s: string)
    ensures IsKeyword(s) <==> s in ReservedWords || s in Punctuation
  {
  }

  /** The inverse of the table: the one lexeme each table kind is keyed by. */
  function Lexeme(k: TokenKind): Option<string> {
    match k
    case IDENFR => None  case INTCON => None  case STRCON => None
    case CONSTTK => Some("const")  case INTTK => Some("int")  case STATICTK => Some("static")
    case BREAKTK => Some("break")  case CONTINUETK => Some("continue")  case IFTK => Some("if")
    case ELSETK => Some("else")  case FORTK => Some("for")  case RETURNTK => Some("return")
    case VOIDTK => Some("void")  case MAINTK => Some("main")  case PRINTFTK => Some("printf")
    case NOT => Some("!")  case AND => Some("&&")  case OR => Some("||")  case PLUS => Some("+")
    case MINU => Some("-")  case MULT => Some("*")  case DIV => Some("/")  case MOD => Some("%")
    case LSS => Some("<")  case LEQ => Some("<=")  case GRE => Some(">")  case GEQ => Some(">=")
    case EQL => Some("==")  case NEQ => Some("!=")  case ASSIGN => Some("=")
    case SEMICN => Some(";")  case COMMA => Some(",")  case LPARENT => Some("(")
    case RPARENT => Some(")")  case LBRACK => Some("[")  case RBRACK => Some("]")
    case LBRACE => Some("{")  case RBRACE => Some("}")
  }

  /** Round trip: looking a key up and inverting the kind gives the key back. */
  lemma LexemeInvertsTable(s: string)
    requires IsKeyword(s)
    ensures Lexeme(GetTokenType(s).value) == Some(s)
  {
  }

  /** Round trip the other way: a kind with a lexeme is what the table maps that lexeme to. */
  lemma TableInvertsLexeme(k: TokenKind)
    requires Lexeme(k).Some?
    ensures GetTokenType(Lexeme(k).value) == Some(k)
  {
  }

  /** The table is injective: distinct keys map to distinct kinds. */
  lemma TableInjective(s1: string, s2: string)
    requires IsKeyword(s1) && IsKeyword(s2) && s1 != s2
    ensures GetTokenType(s1) != GetTokenType(s2)
  {
    LexemeInvertsTable(s1);
    LexemeInvertsTable(s2);
  }

  /** There are twelve reserved words. */
  lemma ReservedWordCount()
    ensures |ReservedWords| == 12
  {
  }

  /** There are seventeen one-character operators and separators. */
  lemma {:induction false} SingleCharacterPunctuationCount()
    ensures |SingleCharacterPunctuation| == 17
  {
    OperatorAndSeparatorCounts();
    OperatorsAreNotSeparators();
    assert SingleCharacterOperators * Separators == {};
  }

  lemma OperatorAndSeparatorCounts()
    ensures |SingleCharacterOperators| == 9 && |Separators| == 8
  {
  }

  /** No one-character operator is a separator. */
  lemma OperatorsAreNotSeparators()
    ensures SingleCharacterOperators !! Separators
  {
  }

  /** The one-character punctuation has length one and the operators of length two have length two. */
  lemma PunctuationLengths()
    ensures forall s :: s in SingleCharacterPunctuation ==> |s| == 1
    ensures forall s :: s in TwoCharacterOperators ==> |s| == 2
  {
  }

  /** There are twenty-three operators and separators. */
  lemma {:induction false} PunctuationCount()
    ensures |Punctuation| == 23
  {
    SingleCharacterPunctuationCount();
    assert |TwoCharacterOperators| == 6;
    PunctuationLengths();
    assert SingleCharacterPunctuation * TwoCharacterOperators == {};
  }

  /** No reserved word is punctuation. */
  lemma ReservedWordsAreNotPunctuation()
    ensures ReservedWords !! Punctuation
  {
  }

  /** The table has exactly 35 keys. */
  lemma {:induction false} TableSize()
    ensures |ReservedWords + Punctuation| == 35
  {
    ReservedWordCount();
    PunctuationCount();
    ReservedWordsAreNotPunctuation();
    assert ReservedWords * Punctuation == {};
  }

  /** The reserved words map to their `*TK` kinds. */
  lemma ReservedWordKinds()
    ensures GetTokenType("const") == Some(CONSTTK) && GetTokenType("int") == Some(INTTK)
    ensures GetTokenType("static") == Some(STATICTK) && GetTokenType("break") == Some(BREAKTK)
    ensures GetTokenType("continue") == Some(CONTINUETK) && GetTokenType("if") == Some(IFTK)
    ensures GetTokenType("else") == Some(ELSETK) && GetTokenType("for") == Some(FORTK)
    ensures GetTokenType("return") == Some(RETURNTK) && GetTokenType("void") == Some(VOIDTK)
    ensures GetTokenType("main") == Some(MAINTK) && GetTokenType("printf") == Some(PRINTFTK)
  {
  }

  /** The two-character keys are the six two-character operators and the reserved word "if". */
  lemma TwoCharacterKeys(s: string)
    requires |s| == 2
    ensures IsKeyword(s) <==> s in TwoCharacterOperators || s == "if"
  {
  }

  /** Every key is either a reserved word (a run of lower-case letters) or has one or two characters. */
  lemma KeyLengths(s: string)
    requires IsKeyword(s)
    ensures s in ReservedWords || 1 <= |s| <= 2
  {
  }

  /** A lone `&` or `|` is not a key, so the lexer falls through to its AND/OR case. */
  lemma LoneAmpersandAndBarAreNotKeys()
    ensures !IsKeyword("&") && !IsKeyword("|")
    ensures GetTokenType("&") == None && GetTokenType("|") == None
  {
  }
}

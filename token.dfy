/** A lexical token (src/lexer/Token.java): an immutable record of its kind,
    its lexeme and the line it was read on. The getters are the datatype's
    destructors `kind`, `value` and `lineNumber`. */
module Tokens {
  import opened Wrappers
  import opened Keywords

  datatype Token = Token(kind: TokenKind, value: string, lineNumber: int)
  {
    /** `Token.toString`: the kind's name, one space, the lexeme. */
    function ToString(): string {
      KindName(kind) + " " + value
    }
  }

  /** The printed form starts with the kind's name followed by a space; everything after it is the lexeme. */
  lemma ToStringLayout(t: Token)
    ensures |t.ToString()| == |KindName(t.kind)| + 1 + |t.value|
    ensures t.ToString()[..|KindName(t.kind)|] == KindName(t.kind)
    ensures t.ToString()[|KindName(t.kind)|] == ' '
    ensures t.ToString()[|KindName(t.kind)| + 1..] == t.value
  {
  }

  /** Splitting the printed form at its first space gives back the kind's name. */
  lemma {:induction false} ToStringKindPrefix(t: Token)
    ensures BeforeSpace(t.ToString()) == KindName(t.kind)
  {
    KindNameShape(t.kind);
    BeforeSpaceOfJoin(KindName(t.kind), t.value);
  }

  /** The printed form determines the kind and the lexeme: two tokens print the same
      exactly when they agree on both (the line number is not printed). */
  lemma {:induction false} ToStringInjective(t1: Token, t2: Token)
    ensures t1.ToString() == t2.ToString() <==> t1.kind == t2.kind && t1.value == t2.value
  {
    if t1.ToString() == t2.ToString() {
      ToStringKindPrefix(t1);
      ToStringKindPrefix(t2);
      KindNameInjective(t1.kind, t2.kind);
      ToStringLayout(t1);
      ToStringLayout(t2);
    }
  }

  /** No printed token starts with `<`, so token lines and `<Name>` lines of a trace never collide. */
  lemma {:induction false} ToStringIsNotAMarker(t: Token)
    ensures |t.ToString()| > 0 && t.ToString()[0] != '<'
  {
    KindNameShape(t.kind);
    assert t.ToString()[0] == KindName(t.kind)[0];
  }
}

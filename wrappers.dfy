/** Small shared helpers: an optional value standing in for Java's `null`,
    and the text-splitting step that `String.split(" ")[0]` performs. */
module Wrappers {

  /** `None` plays the part of a Java `null` result. */
  datatype Option<+T> = None | Some(value: T)

  /** The text before the first space of `s`, or all of `s` when it has no space.
      This is element 0 of `s.split(" ")` whenever that element exists; when it does
      not (`s` made only of spaces) or is empty, nothing parses as an integer anyway. */
  function BeforeSpace(s: string): (r: string)
    ensures |r| <= |s| && r == s[..|r|]
    ensures ' ' !in r
    ensures |r| < |s| ==> s[|r|] == ' '
  {
    if s == [] || s[0] == ' ' then [] else [s[0]] + BeforeSpace(s[1..])
  }

  /** Concatenation regroups. */
  lemma Regroup<T>(a: seq<T>, b: seq<T>, c: seq<T>)
    ensures a + (b + c) == (a + b) + c
  {
  }

  /** Splitting `a + " " + b` at its first space gives back `a` when `a` has no space. */
  lemma {:induction false} BeforeSpaceOfJoin(a: string, b: string)
    requires ' ' !in a
    ensures BeforeSpace(a + " " + b) == a
  {
    if a != [] {
      assert (a + " " + b)[1..] == a[1..] + " " + b;
      BeforeSpaceOfJoin(a[1..], b);
    }
  }
}

/** ASCII stand-ins for the `java.lang.Character` classification calls. */
module Chars {

  /** `Character.isWhitespace` restricted to ASCII: space, the five control
      characters TAB..CR, and the four separators 0x1C..0x1F. */
  predicate IsWhitespace(c: char) {
    c == ' ' || ('\t' <= c <= '\r') || ('\U{1C}' <= c <= '\U{1F}')
  }

  /** `Character.isLetter` restricted to ASCII. */
  predicate IsLetter(c: char) {
    ('a' <= c <= 'z') || ('A' <= c <= 'Z')
  }

  /** `Character.isDigit` restricted to ASCII. */
  predicate IsDigit(c: char) {
    '0' <= c <= '9'
  }

  /** The test that starts an identifier: a letter or an underscore. */
  predicate IsIdentStart(c: char) {
    IsLetter(c) || c == '_'
  }

  /** The test that continues an identifier: `isLetterOrDigit` or an underscore. */
  predicate IsIdentPart(c: char) {
    IsLetter(c) || IsDigit(c) || c == '_'
  }
}

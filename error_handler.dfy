/** The error collector (src/error/ErrorHandler.java) together with the two pieces of
    `java.lang.Integer` it relies on: the decimal form `lineNumber + " "` produces, and
    `Integer.parseInt`, which reads the line number back when the messages are sorted. */
module Diagnostics {
  import opened Wrappers
  import opened Chars

  /** `Integer.MAX_VALUE` and `Integer.MIN_VALUE`. */
  const MaxValue: int := 0x7fff_ffff
  const MinValue: int := -0x8000_0000

  /** The value range of a Java `int`. */
  predicate IsInt32(n: int) {
    MinValue <= n <= MaxValue
  }

  // ---------------------------------------------------------------------------
  // Decimal text

  /** The digit character for `d`. */
  function DigitChar(d: nat): char
    requires d < 10
  {
    ('0' as int + d) as char
  }

  predicate AllDigits(s: string) {
    forall i :: 0 <= i < |s| ==> IsDigit(s[i])
  }

  /** The value of a string of decimal digits, most significant first. */
  function DigitsValue(s: string): nat
    requires AllDigits(s)
  {
    if s == [] then 0 else DigitsValue(s[..|s| - 1]) * 10 + (s[|s| - 1] as int - '0' as int)
  }

  /** The shortest decimal form of a natural number (no leading zeros). */
  function NatToString(n: nat): string {
    if n < 10 then [DigitChar(n)] else NatToString(n / 10) + [DigitChar(n % 10)]
  }

  /** The decimal form of an `int` as string concatenation writes it: `-` and the digits of the magnitude when negative. */
  function IntToString(n: int): (r: string)
    ensures |r| > 0 && (r[0] == '-' <==> n < 0)
  {
    if n < 0 then "-" + NatToString(-n) else NatToStringDigits(n); NatToString(n)
  }

  /** The digits of a natural number are digits, and they read back to the number. */
  lemma {:induction false} NatToStringDigits(n: nat)
    ensures |NatToString(n)| > 0 && AllDigits(NatToString(n))
    ensures DigitsValue(NatToString(n)) == n
  {
    if n >= 10 {
      NatToStringDigits(n / 10);
      var s := NatToString(n);
      assert s[..|s| - 1] == NatToString(n / 10);
    }
  }

  /** The decimal form of an `int` has no space, so it is a single word of a message. */
  lemma {:induction false} IntToStringHasNoSpace(n: int)
    ensures ' ' !in IntToString(n)
  {
    NatToStringDigits(if n < 0 then -n else n);
    var d := NatToString(if n < 0 then -n else n);
    assert forall i :: 0 <= i < |d| ==> d[i] != ' ';
  }

  /** `Integer.parseInt(s)` in base ten: an optional `+` or `-`, then one or more digits, with the
      value inside the `int` range; any other text throws `NumberFormatException`, here `None`. */
  function ParseInt(s: string): (r: Option<int>)
    ensures r.Some? ==> IsInt32(r.value)
  {
    if s == [] then None
    else if s[0] == '-' || s[0] == '+' then
      if |s| == 1 then None else ParseUnsigned(s[0] == '-', s[1..])
    else ParseUnsigned(false, s)
  }

  /** The digit part of `parseInt`: all digits, and the signed value in range. */
  function ParseUnsigned(negative: bool, d: string): Option<int> {
    if !AllDigits(d) then None
    else
      var v: int := if negative then 0 - DigitsValue(d) else DigitsValue(d);
      if IsInt32(v) then Some(v) else None
  }

  /** Round trip: parsing the decimal form of any `int` gives it back. */
  lemma {:induction false} ParseIntOfIntToString(n: int)
    requires IsInt32(n)
    ensures ParseInt(IntToString(n)) == Some(n)
  {
    var m: nat := if n < 0 then -n else n;
    NatToStringDigits(m);
    var d := NatToString(m);
    if n < 0 {
      assert IntToString(n)[1..] == d;
    } else {
      assert IsDigit(d[0]);
    }
  }

  // ---------------------------------------------------------------------------
  // Messages and their order

  /** The message `reportError(lineNumber, errorCode)` records. */
  function Entry(lineNumber: int, errorCode: string): (r: string)
    ensures BeforeSpace(r) == IntToString(lineNumber)
  {
    IntToStringHasNoSpace(lineNumber);
    BeforeSpaceOfJoin(IntToString(lineNumber), errorCode);
    IntToString(lineNumber) + " " + errorCode
  }

  /** `extractLineNumber`: the integer before the first space, or `Integer.MAX_VALUE` when that
      text does not parse (including a message that starts with a space or has no words at all). */
  function ExtractLineNumber(error: string): (r: int)
    ensures IsInt32(r)
  {
    match ParseInt(BeforeSpace(error))
    case Some(v) => v
    case None => MaxValue
  }

  /** Every message `reportError` makes sorts under the line number it was reported with. */
  lemma {:induction false} ExtractLineNumberOfEntry(lineNumber: int, errorCode: string)
    requires IsInt32(lineNumber)
    ensures ExtractLineNumber(Entry(lineNumber, errorCode)) == lineNumber
  {
    IntToStringHasNoSpace(lineNumber);
    BeforeSpaceOfJoin(IntToString(lineNumber), errorCode);
    ParseIntOfIntToString(lineNumber);
  }

  /** `ErrorLineComparator.compare`: `Integer.compare` of the two extracted line numbers. */
  function Compare(error1: string, error2: string): (r: int)
    ensures r == -1 || r == 0 || r == 1
  {
    var l1, l2 := ExtractLineNumber(error1), ExtractLineNumber(error2);
    if l1 < l2 then -1 else if l1 == l2 then 0 else 1
  }

  /** The comparator is a total preorder: reflexive, antisymmetric in sign, transitive,
      and it ranks messages by their line numbers. */
  lemma CompareIsAPreorder(a: string, b: string, c: string)
    ensures Compare(a, a) == 0
    ensures Compare(a, b) == -Compare(b, a)
    ensures Compare(a, b) <= 0 && Compare(b, c) <= 0 ==> Compare(a, c) <= 0
    ensures Compare(a, b) <= 0 <==> ExtractLineNumber(a) <= ExtractLineNumber(b)
  {
  }

  /** Two reported messages compare as their line numbers do. */
  lemma {:induction false} CompareEntries(l1: int, c1: string, l2: int, c2: string)
    requires IsInt32(l1) && IsInt32(l2)
    ensures Compare(Entry(l1, c1), Entry(l2, c2)) < 0 <==> l1 < l2
    ensures Compare(Entry(l1, c1), Entry(l2, c2)) == 0 <==> l1 == l2
  {
    ExtractLineNumberOfEntry(l1, c1);
    ExtractLineNumberOfEntry(l2, c2);
  }

  /** The sort is stated for any extraction `line` of a line number from a message; the
      collector below instantiates it with `ExtractLineNumber`. */

  /** Ordered by the comparator: no later message has a smaller line number. */
  predicate SortedByLine(line: string -> int, s: seq<string>) {
    forall i, j :: 0 <= i < j < |s| ==> line(s[i]) <= line(s[j])
  }

  /** The messages with line number `k`, in their order in `s`. */
  function WithLine(line: string -> int, s: seq<string>, k: int): seq<string> {
    if s == [] then []
    else (if line(s[0]) == k then [s[0]] else []) + WithLine(line, s[1..], k)
  }

  /** Places `x` after every message whose line number is not greater than its own:
      one step of a stable insertion into a sorted list. */
  function Insert(line: string -> int, x: string, s: seq<string>): (r: seq<string>)
    ensures |r| == |s| + 1
  {
    if s == [] then [x]
    else if line(x) < line(s[0]) then [x] + s
    else [s[0]] + Insert(line, x, s[1..])
  }

  /** `List.sort` with the comparator. `List.sort` is stable, so its result is fixed by the input
      alone (`SortByLineIsTheStableSort`); this definition inserts the messages one by one. */
  function SortByLine(line: string -> int, s: seq<string>): (r: seq<string>)
    ensures |r| == |s|
  {
    if s == [] then [] else Insert(line, s[|s| - 1], SortByLine(line, s[..|s| - 1]))
  }

  lemma WithLineCons(line: string -> int, x: string, s: seq<string>, k: int)
    ensures WithLine(line, [x] + s, k) == (if line(x) == k then [x] else []) + WithLine(line, s, k)
  {
    assert ([x] + s)[0] == x && ([x] + s)[1..] == s;
  }

  lemma {:induction false} WithLineAppend(line: string -> int, a: seq<string>, b: seq<string>, k: int)
    ensures WithLine(line, a + b, k) == WithLine(line, a, k) + WithLine(line, b, k)
  {
    if a == [] {
      assert a + b == b;
    } else {
      var h := if line(a[0]) == k then [a[0]] else [];
      assert a + b == [a[0]] + (a[1..] + b);
      WithLineCons(line, a[0], a[1..] + b, k);
      WithLineAppend(line, a[1..], b, k);
      assert WithLine(line, a, k) == h + WithLine(line, a[1..], k);
      assert h + (WithLine(line, a[1..], k) + WithLine(line, b, k)) == (h + WithLine(line, a[1..], k)) + WithLine(line, b, k);
    }
  }

  lemma {:induction false} WithLineAbove(line: string -> int, s: seq<string>, k: int)
    requires forall i :: 0 <= i < |s| ==> k < line(s[i])
    ensures WithLine(line, s, k) == []
  {
    if s != [] {
      WithLineAbove(line, s[1..], k);
    }
  }

  /** A message kept by the filter is an element of the list and has line number `k`. */
  lemma {:induction false} WithLineMember(line: string -> int, s: seq<string>, k: int, x: string)
    requires x in WithLine(line, s, k)
    ensures x in s && line(x) == k
  {
    if line(s[0]) == k && x == s[0] {
    } else {
      WithLineMember(line, s[1..], k, x);
    }
  }

  /** Insertion adds `x` and loses nothing. */
  lemma {:induction false} InsertMultiset(line: string -> int, x: string, s: seq<string>)
    ensures multiset(Insert(line, x, s)) == multiset(s) + multiset{x}
  {
    if s != [] && line(x) >= line(s[0]) {
      InsertMultiset(line, x, s[1..]);
      assert s == [s[0]] + s[1..];
    }
  }

  lemma InsertMember(line: string -> int, x: string, s: seq<string>, y: string)
    requires y in Insert(line, x, s)
    ensures y == x || y in s
  {
    InsertMultiset(line, x, s);
    assert y in multiset(Insert(line, x, s));
  }

  lemma {:induction false} InsertSorted(line: string -> int, x: string, s: seq<string>)
    requires SortedByLine(line, s)
    ensures SortedByLine(line, Insert(line, x, s))
  {
    if s != [] && line(x) >= line(s[0]) {
      InsertSorted(line, x, s[1..]);
      var r := Insert(line, x, s[1..]);
      forall j | 0 <= j < |r|
        ensures line(s[0]) <= line(r[j])
      {
        InsertMember(line, x, s[1..], r[j]);
        if r[j] != x {
          var i :| 0 <= i < |s[1..]| && s[1..][i] == r[j];
          assert s[i + 1] == r[j];
        }
      }
      assert Insert(line, x, s) == [s[0]] + r;
    }
  }

  lemma {:induction false} InsertWithLine(line: string -> int, x: string, s: seq<string>, k: int)
    requires SortedByLine(line, s)
    ensures WithLine(line, Insert(line, x, s), k) == WithLine(line, s, k) + (if line(x) == k then [x] else [])
  {
    if s == [] {
      WithLineCons(line, x, [], k);
    } else if line(x) < line(s[0]) {
      WithLineCons(line, x, s, k);
      if line(x) == k {
        WithLineAbove(line, s, k);
      }
    } else {
      SortedTail(line, s);
      InsertWithLine(line, x, s[1..], k);
      InsertWithLineBelow(line, x, s, k);
    }
  }

  lemma SortedTail(line: string -> int, s: seq<string>)
    requires s != [] && SortedByLine(line, s)
    ensures SortedByLine(line, s[1..])
  {
    var rest := s[1..];
    forall i, j | 0 <= i < j < |rest|
      ensures line(rest[i]) <= line(rest[j])
    {
      assert rest[i] == s[i + 1] && rest[j] == s[j + 1];
    }
  }

  /** Inserting past the head keeps the head's contribution in front. */
  lemma InsertWithLineBelow(line: string -> int, x: string, s: seq<string>, k: int)
    requires s != [] && line(x) >= line(s[0])
    requires WithLine(line, Insert(line, x, s[1..]), k) == WithLine(line, s[1..], k) + (if line(x) == k then [x] else [])
    ensures WithLine(line, Insert(line, x, s), k) == WithLine(line, s, k) + (if line(x) == k then [x] else [])
  {
    var own, h, rest := if line(x) == k then [x] else [], if line(s[0]) == k then [s[0]] else [], s[1..];
    WithLineCons(line, s[0], Insert(line, x, rest), k);
    assert Insert(line, x, s) == [s[0]] + Insert(line, x, rest);
    assert WithLine(line, s, k) == h + WithLine(line, rest, k);
    assert h + (WithLine(line, rest, k) + own) == (h + WithLine(line, rest, k)) + own;
  }

  /** The sorted list is ordered by line number. */
  lemma {:induction false} SortByLineSorts(line: string -> int, s: seq<string>)
    ensures SortedByLine(line, SortByLine(line, s))
  {
    if s != [] {
      var init := s[..|s| - 1];
      SortByLineSorts(line, init);
      InsertSorted(line, s[|s| - 1], SortByLine(line, init));
    }
  }

  /** The sorted list holds the same messages, each as often as before. */
  lemma {:induction false} SortByLinePermutes(line: string -> int, s: seq<string>)
    ensures multiset(SortByLine(line, s)) == multiset(s)
  {
    if s != [] {
      var init := s[..|s| - 1];
      SortByLinePermutes(line, init);
      InsertMultiset(line, s[|s| - 1], SortByLine(line, init));
      assert s == init + [s[|s| - 1]];
    }
  }

  /** Stability: the messages of each line keep their original relative order. */
  lemma {:induction false} SortByLineIsStable(line: string -> int, s: seq<string>, k: int)
    ensures WithLine(line, SortByLine(line, s), k) == WithLine(line, s, k)
  {
    if s != [] {
      var init, last := s[..|s| - 1], s[|s| - 1];
      var own := if line(last) == k then [last] else [];
      calc {
        WithLine(line, SortByLine(line, s), k);
        WithLine(line, Insert(line, last, SortByLine(line, init)), k);
        { InsertIntoSorted(line, last, init, k); }
        WithLine(line, SortByLine(line, init), k) + own;
        { SortByLineIsStable(line, init, k); }
        WithLine(line, init, k) + own;
        { WithLineSingleton(line, last, k); }
        WithLine(line, init, k) + WithLine(line, [last], k);
        { WithLineAppend(line, init, [last], k); }
        WithLine(line, init + [last], k);
        { assert init + [last] == s; }
        WithLine(line, s, k);
      }
    }
  }

  lemma InsertIntoSorted(line: string -> int, x: string, s: seq<string>, k: int)
    ensures WithLine(line, Insert(line, x, SortByLine(line, s)), k) ==
            WithLine(line, SortByLine(line, s), k) + (if line(x) == k then [x] else [])
  {
    SortByLineSorts(line, s);
    InsertWithLine(line, x, SortByLine(line, s), k);
  }

  lemma WithLineSingleton(line: string -> int, x: string, k: int)
    ensures WithLine(line, [x], k) == if line(x) == k then [x] else []
  {
    assert [x][1..] == [];
  }

  /** The first message of a list is the first one its line's filter keeps. */
  lemma WithLineOfHead(line: string -> int, s: seq<string>)
    requires s != []
    ensures WithLine(line, s, line(s[0])) != [] && WithLine(line, s, line(s[0]))[0] == s[0]
  {
  }

  /** Two lists ordered by line number whose per-line sublists agree are equal. */
  lemma {:induction false} SortedUnique(line: string -> int, r1: seq<string>, r2: seq<string>)
    requires SortedByLine(line, r1) && SortedByLine(line, r2)
    requires forall k :: WithLine(line, r1, k) == WithLine(line, r2, k)
    ensures r1 == r2
  {
    if r1 == [] && r2 == [] {
    } else if r1 == [] || r2 == [] {
      if r1 == [] {
        WithLineOfHead(line, r2);
      } else {
        WithLineOfHead(line, r1);
      }
      assert false;
    } else {
      var k1, k2 := line(r1[0]), line(r2[0]);
      // r2 holds a message on line k1, so its first line is not later than k1, and vice versa
      assert WithLine(line, r1, k1)[0] == r1[0];
      WithLineMember(line, r2, k1, r1[0]);
      assert WithLine(line, r2, k2)[0] == r2[0];
      WithLineMember(line, r1, k2, r2[0]);
      assert k1 == k2;
      assert r1[0] == WithLine(line, r1, k1)[0] == WithLine(line, r2, k1)[0] == r2[0];
      forall k
        ensures WithLine(line, r1[1..], k) == WithLine(line, r2[1..], k)
      {
        var head := if k1 == k then [r1[0]] else [];
        assert WithLine(line, r1, k) == head + WithLine(line, r1[1..], k);
        assert WithLine(line, r2, k) == head + WithLine(line, r2[1..], k);
        assert (head + WithLine(line, r1[1..], k))[|head|..] == WithLine(line, r1[1..], k);
        assert (head + WithLine(line, r2[1..], k))[|head|..] == WithLine(line, r2[1..], k);
      }
      SortedUnique(line, r1[1..], r2[1..]);
      assert r1 == [r1[0]] + r1[1..] && r2 == [r2[0]] + r2[1..];
    }
  }

  /** Any stable sort by line number produces exactly `SortByLine`: a result ordered by line
      number that keeps each line's messages in their original order is `SortByLine(line, s)`. */
  lemma {:induction false} SortByLineIsTheStableSort(line: string -> int, s: seq<string>, r: seq<string>)
    requires SortedByLine(line, r)
    requires forall k :: WithLine(line, r, k) == WithLine(line, s, k)
    ensures r == SortByLine(line, s)
  {
    SortByLineSorts(line, s);
    forall k
      ensures WithLine(line, r, k) == WithLine(line, SortByLine(line, s), k)
    {
      SortByLineIsStable(line, s, k);
    }
    SortedUnique(line, r, SortByLine(line, s));
  }

  // ---------------------------------------------------------------------------
  // The collector

  /** `ErrorHandler`: the list of messages, appended to in report order. */
  class ErrorHandler {
    var errorMessages: seq<string>

    constructor ()
      ensures errorMessages == []
    {
      errorMessages := [];
    }

    /** `hasErrors`: at least one message has been reported. */
    predicate HasErrors()
      reads this
    {
      errorMessages != []
    }

    /** `reportError`: appends `"<lineNumber> <errorCode>"`. */
    method ReportError(lineNumber: int, errorCode: string)
      modifies this
      ensures errorMessages == old(errorMessages) + [Entry(lineNumber, errorCode)]
      ensures HasErrors()
    {
      errorMessages := errorMessages + [Entry(lineNumber, errorCode)];
    }

    /** `sortErrorsByLineNumber`: the stable sort by extracted line number. */
    method SortErrorsByLineNumber()
      modifies this
      ensures errorMessages == SortByLine(ExtractLineNumber, old(errorMessages))
      ensures SortedByLine(ExtractLineNumber, errorMessages)
      ensures multiset(errorMessages) == multiset(old(errorMessages))
      ensures forall k :: WithLine(ExtractLineNumber, errorMessages, k) == WithLine(ExtractLineNumber, old(errorMessages), k)
      ensures HasErrors() == old(HasErrors())
    {
      SortByLineSorts(ExtractLineNumber, errorMessages);
      SortByLinePermutes(ExtractLineNumber, errorMessages);
      forall k
        ensures WithLine(ExtractLineNumber, SortByLine(ExtractLineNumber, errorMessages), k)
             == WithLine(ExtractLineNumber, errorMessages, k)
      {
        SortByLineIsStable(ExtractLineNumber, errorMessages, k);
      }
      errorMessages := SortByLine(ExtractLineNumber, errorMessages);
    }
  }
}

/**
 The string primitives the bridge relies on: `strings.TrimSpace`, `%d` printing and `strings.Join`.
 A string is a sequence of code points.
 */
module Strings {

  // --- White space -------------------------------------------------------------------------------

  /** The code points Go's `unicode.IsSpace` accepts. */
  predicate IsSpace(c: char) {
    || '\t' <= c <= '\r'
    || c == ' '
    || c == '\U{85}' || c == '\U{A0}' || c == '\U{1680}'
    || '\U{2000}' <= c <= '\U{200A}'
    || c == '\U{2028}' || c == '\U{2029}' || c == '\U{202F}' || c == '\U{205F}' || c == '\U{3000}'
  }

  const WHITE_SPACE := "\t\n\U{B}\U{C}\r \U{85}\U{A0}\U{1680}\U{2000}\U{2001}\U{2002}\U{2003}\U{2004}\U{2005}" +
                       "\U{2006}\U{2007}\U{2008}\U{2009}\U{200A}\U{2028}\U{2029}\U{202F}\U{205F}\U{3000}"

  /** These and no others. */
  lemma WhiteSpaceListed(c: char)
    ensures IsSpace(c) <==> c in WHITE_SPACE
  {
    assert |WHITE_SPACE| == 25;
    if IsSpace(c) {
      assert c as int < 0x80 ==> WHITE_SPACE[..6] == "\t\n\U{B}\U{C}\r ";
    }
  }

  /** No white space at either end. */
  predicate Trimmed(s: string) {
    s == "" || (!IsSpace(s[0]) && !IsSpace(s[|s| - 1]))
  }

  function TrimLeft(s: string): (r: string)
    ensures r == "" || !IsSpace(r[0])
    ensures r == "" <==> forall c <- s :: IsSpace(c)
    ensures r != "" ==> r[|r| - 1] == s[|s| - 1]
    ensures Trimmed(s) ==> r == s
  {
    if s != "" && IsSpace(s[0]) then TrimLeft(s[1..]) else s
  }

  function TrimRight(s: string): (r: string)
    ensures r == "" || !IsSpace(r[|r| - 1])
    ensures r <= s
    ensures Trimmed(s) ==> r == s
    ensures s != "" && !IsSpace(s[0]) ==> r != ""
  {
    if s != "" && IsSpace(s[|s| - 1]) then TrimRight(s[..|s| - 1]) else s
  }

  /** `strings.TrimSpace`: the result is trimmed, a trimmed string is left alone, and only blank text vanishes. */
  function TrimSpace(s: string): (r: string)
    ensures Trimmed(r)
    ensures Trimmed(s) ==> r == s
    ensures r == "" <==> forall c <- s :: IsSpace(c)
  {
    TrimRight(TrimLeft(s))
  }

  lemma {:induction false} TrimLeftCuts(s: string) returns (i: nat)
    ensures i <= |s| && TrimLeft(s) == s[i..] && forall k :: 0 <= k < i ==> IsSpace(s[k])
  {
    hide IsSpace;
    if s != "" && IsSpace(s[0]) {
      var rest := TrimLeftCuts(s[1..]);
      i := rest + 1;
      forall k | 0 <= k < i ensures IsSpace(s[k]) {
        assert k > 0 ==> s[k] == s[1..][k - 1];
      }
    } else {
      i := 0;
    }
  }

  lemma {:induction false} TrimRightCuts(s: string) returns (j: nat)
    ensures j <= |s| && TrimRight(s) == s[..j] && forall k :: j <= k < |s| ==> IsSpace(s[k])
  {
    hide IsSpace;
    if s != "" && IsSpace(s[|s| - 1]) {
      j := TrimRightCuts(s[..|s| - 1]);
      forall k | j <= k < |s| ensures IsSpace(s[k]) {
        assert k < |s| - 1 ==> s[k] == s[..|s| - 1][k];
      }
    } else {
      j := |s|;
    }
  }

  /** Trimming cuts off white space at both ends and nothing else. */
  lemma TrimSpaceCuts(s: string)
    ensures exists i, j :: 0 <= i <= j <= |s| && TrimSpace(s) == s[i..j] &&
                           (forall k :: 0 <= k < i ==> IsSpace(s[k])) && (forall k :: j <= k < |s| ==> IsSpace(s[k]))
  {
    hide IsSpace;
    var i := TrimLeftCuts(s);
    var n := TrimRightCuts(TrimLeft(s));
    assert TrimSpace(s) == s[i..i + n];
    forall k | i + n <= k < |s| ensures IsSpace(s[k]) {
      assert s[k] == TrimLeft(s)[k - i];
    }
  }

  predicate Blank(s: string) {
    TrimSpace(s) == ""
  }

  lemma VisibleTextIsNotBlank(s: string, i: nat)
    requires i < |s| && !IsSpace(s[i])
    ensures !Blank(s)
  {
    assert s[i] in s;
  }

  // --- Decimal printing --------------------------------------------------------------------------

  predicate IsDigit(c: char) {
    '0' <= c <= '9'
  }

  function Digits(n: nat): (s: string)
    ensures s != ""
    ensures forall c <- s :: IsDigit(c)
  {
    if n < 10 then ['0' + n as char] else Digits(n / 10) + ['0' + (n % 10) as char]
  }

  /** `%d` */
  function Decimal(n: int): string {
    if n < 0 then "-" + Digits(-n) else Digits(n)
  }

  function DigitsValue(s: string): int {
    if s == "" then 0 else DigitsValue(s[..|s| - 1]) * 10 + (s[|s| - 1] as int - '0' as int)
  }

  function DecimalValue(s: string): int {
    if s != "" && s[0] == '-' then -DigitsValue(s[1..]) else DigitsValue(s)
  }

  lemma {:induction false} DigitsRoundTrip(n: nat)
    ensures DigitsValue(Digits(n)) == n
  {
    if n < 10 {
      assert Digits(n)[..0] == "";
    } else {
      DigitsRoundTrip(n / 10);
      assert Digits(n)[..|Digits(n)| - 1] == Digits(n / 10);
    }
  }

  /** Reading back a printed integer, of either sign, gives the integer: printing is injective. */
  lemma DecimalRoundTrip(n: int)
    ensures DecimalValue(Decimal(n)) == n
  {
    if n < 0 {
      DigitsRoundTrip(-n);
      assert Decimal(n)[1..] == Digits(-n);
    } else {
      DigitsRoundTrip(n);
      assert Digits(n)[0] in Digits(n);
    }
  }

  /** No number is printed with a leading zero but zero itself, and only negative ones have a sign. */
  lemma {:induction false} DecimalIsCanonical(n: int)
    ensures Decimal(0) == "0"
    ensures n > 0 ==> '1' <= Decimal(n)[0] <= '9'
    ensures n < 0 ==> Decimal(n) == "-" + Decimal(-n)
    decreases if n < 0 then -n else n
  {
    assert Digits(0) == ['0'];
    if n >= 10 {
      DecimalIsCanonical(n / 10);
      assert Digits(n)[0] == Digits(n / 10)[0];
    }
  }

  lemma DecimalHasNo(n: int, sep: char)
    requires !IsDigit(sep) && sep != '-'
    ensures sep !in Decimal(n)
  {
  }

  // --- Joining -----------------------------------------------------------------------------------

  /** `strings.Join(parts, sep)` for a one-character separator. */
  function Join(sep: char, parts: seq<string>): string {
    if parts == [] then ""
    else if |parts| == 1 then parts[0]
    else parts[0] + [sep] + Join(sep, parts[1..])
  }

  /** Every part except possibly the last is free of the separator. */
  predicate Splittable(sep: char, parts: seq<string>) {
    forall i :: 0 <= i < |parts| - 1 ==> sep !in parts[i]
  }

  /** Position of the first separator, or the length when there is none. */
  function IndexOf(sep: char, s: string): nat {
    if s == "" || s[0] == sep then 0 else 1 + IndexOf(sep, s[1..])
  }

  lemma {:induction false} HeadEndsAtFirstSeparator(sep: char, head: string, rest: string)
    requires sep !in head
    ensures IndexOf(sep, head + [sep] + rest) == |head|
  {
    var s := head + [sep] + rest;
    if head != "" {
      HeadEndsAtFirstSeparator(sep, head[1..], rest);
      assert s[0] == head[0] && s[1..] == head[1..] + [sep] + rest;
    }
  }

  /** A separator-free head is determined by the string it starts. */
  lemma HeadIsDetermined(sep: char, a: string, x: string, b: string, y: string)
    requires sep !in a && sep !in b
    requires a + [sep] + x == b + [sep] + y
    ensures a == b && x == y
  {
    HeadEndsAtFirstSeparator(sep, a, x);
    HeadEndsAtFirstSeparator(sep, b, y);
    var s := a + [sep] + x;
    assert a == s[..|a|] && b == s[..|b|];
    assert x == s[|a| + 1..] && y == s[|b| + 1..];
  }

  /** A separator-free tail is determined by the string it ends: it starts after the last separator. */
  lemma TailIsDetermined(sep: char, a: string, x: string, b: string, y: string)
    requires sep !in x && sep !in y
    requires a + [sep] + x == b + [sep] + y
    ensures a == b && x == y
  {
    var s, t := a + [sep] + x, b + [sep] + y;
    assert s[|a|] == sep && forall i :: |a| < i < |s| ==> s[i] == x[i - |a| - 1] != sep;
    assert t[|b|] == sep && forall i :: |b| < i < |t| ==> t[i] == y[i - |b| - 1] != sep;
    assert |a| == |b|;
    assert a == s[..|a|] && b == t[..|b|] && x == s[|a| + 1..] && y == t[|b| + 1..];
  }

  /** Joining equally many splittable parts is injective. */
  lemma {:induction false} JoinInjective(sep: char, p: seq<string>, q: seq<string>)
    requires |p| == |q| && Splittable(sep, p) && Splittable(sep, q)
    requires Join(sep, p) == Join(sep, q)
    ensures p == q
  {
    if |p| > 1 {
      HeadIsDetermined(sep, p[0], Join(sep, p[1..]), q[0], Join(sep, q[1..]));
      assert Splittable(sep, p[1..]) by {
        forall i | 0 <= i < |p[1..]| - 1 ensures sep !in p[1..][i] { assert p[1..][i] == p[i + 1]; }
      }
      assert Splittable(sep, q[1..]) by {
        forall i | 0 <= i < |q[1..]| - 1 ensures sep !in q[1..][i] { assert q[1..][i] == q[i + 1]; }
      }
      JoinInjective(sep, p[1..], q[1..]);
      assert p == [p[0]] + p[1..] && q == [q[0]] + q[1..];
    }
  }
}

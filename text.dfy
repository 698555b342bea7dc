/**
 * The character- and string-level operations the scraper borrows from
 * Python: ASCII digit recognition and `int()` of a digit string, `str(n)`,
 * `str.strip()`, `str.upper()` and slicing with negative bounds.
 */
module Text {

  /** An ASCII decimal digit (the only digits this model recognises). */
  predicate IsDigit(c: char) {
    '0' <= c <= '9'
  }

  function DigitValue(c: char): (d: nat)
    requires IsDigit(c)
    ensures d < 10
  {
    c as int - '0' as int
  }

  function DigitChar(d: nat): (c: char)
    requires d < 10
    ensures IsDigit(c) && DigitValue(c) == d
  {
    ('0' as int + d) as char
  }

  predicate AllDigits(s: string) {
    forall i :: 0 <= i < |s| ==> IsDigit(s[i])
  }

  predicate HasDigit(s: string) {
    exists i :: 0 <= i < |s| && IsDigit(s[i])
  }

  /** The digit characters of `s` in their order: what `re.sub(r'\D', '', s)` leaves. */
  function Digits(s: string): (r: string)
    ensures AllDigits(r)
    ensures |r| <= |s|
    ensures r == [] <==> !HasDigit(s)
    ensures AllDigits(s) ==> r == s
  {
    if s == [] then []
    else
      var rest := Digits(s[1..]);
      assert HasDigit(s[1..]) ==> HasDigit(s) by {
        if HasDigit(s[1..]) {
          var i :| 0 <= i < |s[1..]| && IsDigit(s[1..][i]);
          assert IsDigit(s[i + 1]);
        }
      }
      assert HasDigit(s) && !IsDigit(s[0]) ==> HasDigit(s[1..]) by {
        if HasDigit(s) && !IsDigit(s[0]) {
          var i :| 0 <= i < |s| && IsDigit(s[i]);
          assert i > 0 && IsDigit(s[1..][i - 1]);
        }
      }
      (if IsDigit(s[0]) then [s[0]] else []) + rest
  }

  /** A single character is kept exactly when it is a digit. */
  lemma DigitsOfChar(c: char)
    ensures Digits([c]) == if IsDigit(c) then [c] else []
  {
    assert [c][1..] == [];
  }

  /**
   * Filtering distributes over concatenation. With `DigitsOfChar` this pins
   * `Digits` down: the digits of `s`, every one of them, in their order.
   */
  lemma {:induction false} DigitsAppend(a: string, b: string)
    ensures Digits(a + b) == Digits(a) + Digits(b)
  {
    if a != [] {
      var ab := a + b;
      assert ab[0] == a[0] && ab[1..] == a[1..] + b;
      DigitsAppend(a[1..], b);
      var head := if IsDigit(a[0]) then [a[0]] else [];
      assert Digits(ab) == head + Digits(ab[1..]);
      assert Digits(a) == head + Digits(a[1..]);
    } else {
      assert a + b == b;
    }
  }

  /** The value of a digit string read most significant digit first, as `int()` reads it. */
  function DigitsValue(s: string): nat
    requires AllDigits(s)
  {
    if s == [] then 0 else DigitsValue(s[..|s| - 1]) * 10 + DigitValue(s[|s| - 1])
  }

  function Pow10(k: nat): (r: nat)
    ensures r >= 1
  {
    if k == 0 then 1 else 10 * Pow10(k - 1)
  }

  /** Reading `a + b` reads `a`, shifted left by the length of `b`, then `b`. */
  lemma {:induction false} DigitsValueAppend(a: string, b: string)
    requires AllDigits(a) && AllDigits(b)
    ensures AllDigits(a + b)
    ensures DigitsValue(a + b) == DigitsValue(a) * Pow10(|b|) + DigitsValue(b)
  {
    if b == [] {
      assert a + b == a;
    } else {
      var b', c := b[..|b| - 1], b[|b| - 1];
      assert AllDigits(b') by { assert forall i :: 0 <= i < |b'| ==> b'[i] == b[i]; }
      DigitsValueAppend(a, b');
      var ab := a + b;
      assert ab == (a + b') + [c];
      assert ab[..|ab| - 1] == a + b' && ab[|ab| - 1] == c;
      ShiftDigit(DigitsValue(a), Pow10(|b'|), DigitsValue(b'), DigitValue(c));
    }
  }

  lemma ShiftDigit(x: int, p: int, y: int, d: int)
    ensures (x * p + y) * 10 + d == x * (10 * p) + (y * 10 + d)
  {
  }

  /** The decimal rendering of `n`, as Python's `str(n)` gives it: no sign, no leading zero. */
  function Decimal(n: nat): (r: string)
    ensures 1 <= |r| && AllDigits(r)
    ensures DigitsValue(r) == n
    ensures r[0] == '0' ==> n == 0 && |r| == 1
  {
    if n < 10 then [DigitChar(n)]
    else
      var r := Decimal(n / 10) + [DigitChar(n % 10)];
      assert r[..|r| - 1] == Decimal(n / 10);
      r
  }

  /** A year-sized number has exactly four decimal digits. */
  lemma DecimalFourDigits(n: nat)
    requires 1000 <= n <= 9999
    ensures |Decimal(n)| == 4
  {
    var a := n / 10;
    var b := a / 10;
    var c := b / 10;
    assert 100 <= a <= 999 && 10 <= b <= 99 && 1 <= c <= 9;
    assert |Decimal(c)| == 1;
    assert |Decimal(b)| == |Decimal(c)| + 1;
    assert |Decimal(a)| == |Decimal(b)| + 1;
    assert |Decimal(n)| == |Decimal(a)| + 1;
  }

  /** Distinct numbers have distinct decimal renderings. */
  lemma DecimalInjective(m: nat, n: nat)
    requires Decimal(m) == Decimal(n)
    ensures m == n
  {
    assert DigitsValue(Decimal(m)) == m;
    assert DigitsValue(Decimal(n)) == n;
  }

  /**
   * The characters Python's `str.isspace()` accepts: the ASCII controls
   * `\t`, `\n`, `\v`, `\f`, `\r`, the separators U+001C to U+001F, the
   * space, and the Unicode spaces and line and paragraph separators.
   */
  const Whitespace: set<char> := {
    '\t', '\n', '\U{000B}', '\U{000C}', '\r',
    '\U{001C}', '\U{001D}', '\U{001E}', '\U{001F}', ' ',
    '\U{0085}', '\U{00A0}', '\U{1680}',
    '\U{2000}', '\U{2001}', '\U{2002}', '\U{2003}', '\U{2004}', '\U{2005}',
    '\U{2006}', '\U{2007}', '\U{2008}', '\U{2009}', '\U{200A}',
    '\U{2028}', '\U{2029}', '\U{202F}', '\U{205F}', '\U{3000}'
  }

  /** Whitespace as Python's `str.isspace()` defines it. */
  predicate IsSpace(c: char) {
    c in Whitespace
  }

  /** Every character of `s` is whitespace (vacuously so for the empty string). */
  predicate IsBlank(s: string) {
    forall i :: 0 <= i < |s| ==> IsSpace(s[i])
  }

  /** Neither the first nor the last character of `s` is whitespace. */
  predicate Trimmed(s: string) {
    s == [] || (!IsSpace(s[0]) && !IsSpace(s[|s| - 1]))
  }

  function StripLeft(s: string): (r: string)
    ensures |r| <= |s| && r == s[|s| - |r|..]
    ensures r == [] || !IsSpace(r[0])
    ensures forall k :: 0 <= k < |s| - |r| ==> IsSpace(s[k])
  {
    if s != [] && IsSpace(s[0]) then
      var r := StripLeft(s[1..]);
      assert forall k :: 1 <= k < |s| ==> s[k] == s[1..][k - 1];
      r
    else s
  }

  function StripRight(s: string): (r: string)
    ensures |r| <= |s| && r == s[..|r|]
    ensures r == [] || !IsSpace(r[|r| - 1])
    ensures forall k :: |r| <= k < |s| ==> IsSpace(s[k])
  {
    if s != [] && IsSpace(s[|s| - 1]) then
      var r := StripRight(s[..|s| - 1]);
      assert forall k :: 0 <= k < |s| - 1 ==> s[k] == s[..|s| - 1][k];
      r
    else s
  }

  /** Python's `s.strip()`: `s` without its leading and trailing whitespace. */
  function Strip(s: string): (r: string)
    ensures |r| <= |s| && Trimmed(r)
    ensures r == [] <==> IsBlank(s)
    ensures Trimmed(s) ==> r == s
  {
    var l := StripLeft(s);
    var r := StripRight(l);
    assert r != [] ==> r[0] == l[0];
    assert r == [] ==> IsBlank(s) by {
      if r == [] {
        assert l == [];
        forall k | 0 <= k < |s| ensures IsSpace(s[k]) { }
      }
    }
    r
  }

  /** What `Strip` removes is whitespace on either side of the part it keeps. */
  lemma StripMargins(s: string) returns (i: nat)
    ensures i + |Strip(s)| <= |s| && Strip(s) == s[i..i + |Strip(s)|]
    ensures forall k :: 0 <= k < i ==> IsSpace(s[k])
    ensures forall k :: i + |Strip(s)| <= k < |s| ==> IsSpace(s[k])
  {
    var l := StripLeft(s);
    var r := StripRight(l);
    i := |s| - |l|;
    assert Strip(s) == r;
    InnerSlice(s, l, r, i);
  }

  /** A prefix `r` of the suffix `l == s[i..]`, whose tail in `l` is blank, has a blank tail in `s`. */
  lemma InnerSlice(s: string, l: string, r: string, i: nat)
    requires i <= |s| && l == s[i..] && |r| <= |l| && r == l[..|r|]
    requires forall k :: |r| <= k < |l| ==> IsSpace(l[k])
    ensures r == s[i..i + |r|]
    ensures forall k :: i + |r| <= k < |s| ==> IsSpace(s[k])
  {
    forall k | i + |r| <= k < |s| ensures IsSpace(s[k]) {
      assert s[k] == l[k - i];
    }
  }

  predicate IsLowerAscii(c: char) {
    'a' <= c <= 'z'
  }

  /**
   * The one-character upper case of `c` for ASCII and Latin-1 letters
   * (`'\U{00FF}'` becomes `'\U{0178}'`, the micro sign becomes a capital mu);
   * every other character is left as it is.
   */
  function UpperChar(c: char): (u: char)
    ensures !IsLowerAscii(u)
    ensures IsLowerAscii(c) ==> 'A' <= u <= 'Z' && u as int - 'A' as int == c as int - 'a' as int
    ensures c < 'a' ==> u == c
    ensures c < '\U{0080}' && !IsLowerAscii(c) ==> u == c
    ensures '\U{00E0}' <= c <= '\U{00FE}' && c != '\U{00F7}' ==> u as int == c as int - 32
    ensures c == '\U{00FF}' ==> u == '\U{0178}'
    ensures c == '\U{00B5}' ==> u == '\U{039C}'
    ensures u != c ==> IsLowerAscii(c) || ('\U{00E0}' <= c <= '\U{00FF}' && c != '\U{00F7}') || c == '\U{00B5}'
    ensures IsSpace(u) <==> IsSpace(c)
  {
    if 'a' <= c <= 'z' then (c as int - 32) as char
    else if '\U{00E0}' <= c <= '\U{00FE}' && c != '\U{00F7}' then (c as int - 32) as char
    else if c == '\U{00FF}' then '\U{0178}'
    else if c == '\U{00B5}' then '\U{039C}'
    else c
  }

  /** Python's `s.upper()`, one character at a time. */
  function Upper(s: string): (r: string)
    ensures |r| == |s|
    ensures forall i :: 0 <= i < |s| ==> r[i] == UpperChar(s[i])
  {
    if s == [] then [] else [UpperChar(s[0])] + Upper(s[1..])
  }

  /** Upper-casing twice is upper-casing once. */
  lemma UpperIdempotent(s: string)
    ensures Upper(Upper(s)) == Upper(s)
  {
    var u := Upper(s);
    forall i | 0 <= i < |s| ensures Upper(u)[i] == u[i] {
      var c := s[i];
      assert u[i] == UpperChar(c);
    }
  }

  /** `s` is made of the capital letters `A` to `Z` and spaces only. */
  predicate Capitals(s: string) {
    s == [] || (('A' <= s[0] <= 'Z' || s[0] == ' ') && Capitals(s[1..]))
  }

  /** Text made of capital letters and spaces is its own upper case. */
  lemma {:induction false} UpperOfCapitals(s: string)
    requires Capitals(s)
    ensures Upper(s) == s
  {
    if s != [] {
      UpperOfCapitals(s[1..]);
      assert UpperChar(s[0]) == s[0];
    }
  }

  /** `s` is made of the lower-case letters `a` to `z` and spaces only. */
  predicate Lowers(s: string) {
    s == [] || ((IsLowerAscii(s[0]) || s[0] == ' ') && Lowers(s[1..]))
  }

  /**
   * Upper-casing text of lower-case letters and spaces puts each letter in
   * capitals, the same letter of the alphabet, and keeps the spaces.
   */
  lemma {:induction false} UpperOfLowers(s: string)
    requires Lowers(s)
    ensures Capitals(Upper(s))
    ensures forall i :: 0 <= i < |s| && s[i] == ' ' ==> Upper(s)[i] == ' '
    ensures forall i :: 0 <= i < |s| && IsLowerAscii(s[i]) ==> Upper(s)[i] as int - 'A' as int == s[i] as int - 'a' as int
  {
    if s != [] {
      UpperOfLowers(s[1..]);
      assert Upper(s) == [UpperChar(s[0])] + Upper(s[1..]);
      assert Upper(s)[1..] == Upper(s[1..]);
    }
  }

  /** Upper-casing neither adds nor removes surrounding whitespace. */
  lemma UpperKeepsTrimmed(s: string)
    ensures Trimmed(Upper(s)) <==> Trimmed(s)
  {
    if s != [] {
      assert Upper(s)[0] == UpperChar(s[0]);
      assert Upper(s)[|s| - 1] == UpperChar(s[|s| - 1]);
    }
  }

  /** `s[:-k]` in Python for `k >= 1`: all but the last `k` characters, or nothing when `s` is shorter. */
  function DropLast(s: string, k: nat): (r: string)
    ensures |r| == if |s| >= k then |s| - k else 0
    ensures r == s[..|r|]
  {
    if |s| >= k then s[..|s| - k] else []
  }

  /** `s[-k:]` in Python for `k >= 1`: the last `k` characters, or all of `s` when it is shorter. */
  function LastN(s: string, k: nat): (r: string)
    ensures |r| == if |s| >= k then k else |s|
    ensures r == s[|s| - |r|..]
  {
    if |s| >= k then s[|s| - k..] else s
  }

  /** `s[k:]` in Python: all but the first `k` characters, or nothing when `s` is shorter. */
  function DropFirst(s: string, k: nat): (r: string)
    ensures |r| == if |s| >= k then |s| - k else 0
    ensures r == s[|s| - |r|..]
  {
    if |s| >= k then s[k..] else []
  }

  /** `s[:-k] + s[-k:] == s`: the two halves of a fixed-width split put `s` back together. */
  lemma {:induction false} SplitLastRejoins(s: string, k: nat)
    ensures DropLast(s, k) + LastN(s, k) == s
  {
    if |s| >= k {
      assert s[..|s| - k] + s[|s| - k..] == s;
    }
  }
}

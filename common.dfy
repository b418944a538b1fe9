/** Values and string helpers shared by the screens and the API model: the
    JavaScript notions of truthiness, `trim`, ASCII case mapping, `includes`,
    `filter`/`map` over arrays, and the number <-> string conversions that the
    screens apply to user ids. */
module Common {

  datatype Option<T> = None | Some(value: T)

  /** `s` used as a JavaScript condition: null/undefined and "" are falsy. */
  predicate Truthy(s: Option<string>) {
    s.Some? && s.value != ""
  }

  /** `s || fallback` for an optional string. */
  function OrElse(s: Option<string>, fallback: string): (r: string)
    ensures Truthy(s) ==> r == s.value
    ensures !Truthy(s) ==> r == fallback
  {
    if Truthy(s) then s.value else fallback
  }

  // ---------------------------------------------------------------------
  // Whitespace and trim

  /** ECMAScript WhiteSpace and LineTerminator code points (what `trim`
      strips and what the regular-expression class `\s` matches). */
  predicate IsSpace(c: char) {
    || c == ' ' || c == '\t' || c == '\n' || c == '\r'
    || c == '\U{B}' || c == '\U{C}' || c == '\U{A0}' || c == '\U{1680}'
    || ('\U{2000}' <= c <= '\U{200A}')
    || c == '\U{2028}' || c == '\U{2029}' || c == '\U{202F}' || c == '\U{205F}'
    || c == '\U{3000}' || c == '\U{FEFF}'
  }

  predicate AllSpace(s: string) {
    forall i :: 0 <= i < |s| ==> IsSpace(s[i])
  }

  predicate NoSpace(s: string) {
    forall i :: 0 <= i < |s| ==> !IsSpace(s[i])
  }

  /** Drops leading whitespace: the result is the suffix of `s` that starts
      at its first non-space character. */
  function TrimStart(s: string): (r: string)
  {
    if |s| > 0 && IsSpace(s[0]) then TrimStart(s[1..]) else s
  }

  /** Drops trailing whitespace: the result is the prefix of `s` that ends at
      its last non-space character. */
  function TrimEnd(s: string): (r: string)
  {
    if |s| > 0 && IsSpace(s[|s| - 1]) then TrimEnd(s[..|s| - 1]) else s
  }

  /** `String.prototype.trim`. */
  function Trim(s: string): string {
    TrimEnd(TrimStart(s))
  }

  /** `TrimStart` keeps a suffix of `s` that starts with a non-space
      character, and what it drops is whitespace only. */
  lemma {:induction false} TrimStartSpec(s: string)
    ensures |TrimStart(s)| <= |s|
    ensures TrimStart(s) == s[|s| - |TrimStart(s)|..]
    ensures AllSpace(s[..|s| - |TrimStart(s)|])
    ensures TrimStart(s) != [] ==> !IsSpace(TrimStart(s)[0])
  {
    if |s| > 0 && IsSpace(s[0]) {
      var tail := s[1..];
      TrimStartSpec(tail);
      var k := |s| - |TrimStart(s)|;
      assert s[k..] == tail[k - 1..];
      forall i | 0 <= i < k ensures IsSpace(s[..k][i]) {
        if i > 0 {
          assert s[..k][i] == tail[..k - 1][i - 1];
        }
      }
    }
  }

  /** `TrimEnd` keeps a prefix of `s` that ends with a non-space character,
      and what it drops is whitespace only. */
  lemma {:induction false} TrimEndSpec(s: string)
    ensures |TrimEnd(s)| <= |s|
    ensures TrimEnd(s) == s[..|TrimEnd(s)|]
    ensures AllSpace(s[|TrimEnd(s)|..])
    ensures TrimEnd(s) != [] ==> !IsSpace(TrimEnd(s)[|TrimEnd(s)| - 1])
  {
    if |s| > 0 && IsSpace(s[|s| - 1]) {
      var init := s[..|s| - 1];
      TrimEndSpec(init);
      var k := |TrimEnd(s)|;
      assert s[..k] == init[..k];
      forall i | 0 <= i < |s| - k ensures IsSpace(s[k..][i]) {
        if i < |s| - k - 1 {
          assert s[k..][i] == init[k..][i];
        }
      }
    }
  }

  lemma {:induction false} TrimStartEmptyIff(s: string)
    ensures TrimStart(s) == "" <==> AllSpace(s)
  {
    if |s| > 0 && IsSpace(s[0]) {
      var tail := s[1..];
      TrimStartEmptyIff(tail);
      if AllSpace(tail) {
        forall i | 1 <= i < |s| ensures IsSpace(s[i]) {
          assert s[i] == tail[i - 1];
        }
      }
    }
  }

  lemma {:induction false} TrimEndEmptyIff(s: string)
    ensures TrimEnd(s) == "" <==> AllSpace(s)
  {
    if |s| > 0 && IsSpace(s[|s| - 1]) {
      var init := s[..|s| - 1];
      TrimEndEmptyIff(init);
      if AllSpace(init) {
        forall i | 0 <= i < |s| - 1 ensures IsSpace(s[i]) {
          assert s[i] == init[i];
        }
      }
    }
  }

  /** `!s.trim()`: a string is blank exactly when every character is
      whitespace (the empty string included). */
  lemma TrimEmptyIffAllSpace(s: string)
    ensures Trim(s) == "" <==> AllSpace(s)
  {
    var t := TrimStart(s);
    TrimStartEmptyIff(s);
    TrimEndEmptyIff(t);
    TrimStartSpec(s);
    assert AllSpace(t) <==> t == "";
  }

  // ---------------------------------------------------------------------
  // ASCII case mapping (`toLowerCase` / `toUpperCase` on ASCII letters)

  function LowerChar(c: char): char {
    if 'A' <= c <= 'Z' then (c as int + 32) as char else c
  }

  function UpperChar(c: char): char {
    if 'a' <= c <= 'z' then (c as int - 32) as char else c
  }

  function Lower(s: string): (r: string)
    ensures |r| == |s|
    ensures forall i :: 0 <= i < |s| ==> r[i] == LowerChar(s[i])
  {
    if s == [] then [] else [LowerChar(s[0])] + Lower(s[1..])
  }

  function Upper(s: string): (r: string)
    ensures |r| == |s|
    ensures forall i :: 0 <= i < |s| ==> r[i] == UpperChar(s[i])
  {
    if s == [] then [] else [UpperChar(s[0])] + Upper(s[1..])
  }

  /** `s.substring(0, n)` for n >= 0. */
  function Prefix(s: string, n: nat): (r: string)
    ensures |r| == if n < |s| then n else |s|
    ensures r == s[..|r|]
  {
    if n < |s| then s[..n] else s
  }

  // ---------------------------------------------------------------------
  // `.length` of a JavaScript string: UTF-16 code units

  /** Code units of one character: two for a character outside the Basic
      Multilingual Plane (a surrogate pair), one otherwise. */
  function Utf16Units(c: char): nat {
    if c as int > 0xFFFF then 2 else 1
  }

  /** `s.length`: the number of UTF-16 code units, between one and two per
      character. */
  function Utf16Length(s: string): (n: nat)
    ensures |s| <= n <= 2 * |s|
    ensures n == 0 <==> s == ""
  {
    if s == [] then 0 else Utf16Units(s[0]) + Utf16Length(s[1..])
  }

  /** On text made only of Basic Multilingual Plane characters, `.length`
      is the number of characters. */
  lemma {:induction false} Utf16LengthBmp(s: string)
    requires forall i | 0 <= i < |s| :: s[i] as int <= 0xFFFF
    ensures Utf16Length(s) == |s|
  {
    if s != [] {
      Utf16LengthBmp(s[1..]);
    }
  }

  /** `.length` adds up over concatenation. */
  lemma {:induction false} Utf16LengthConcat(a: string, b: string)
    ensures Utf16Length(a + b) == Utf16Length(a) + Utf16Length(b)
  {
    if a != [] {
      assert (a + b)[0] == a[0] && (a + b)[1..] == a[1..] + b;
      Utf16LengthConcat(a[1..], b);
    } else {
      assert a + b == b;
    }
  }

  // ---------------------------------------------------------------------
  // `includes`

  /** `s.includes(t)`: `t` occurs in `s` as a contiguous piece. */
  predicate Contains(s: string, t: string) {
    exists i | 0 <= i <= |s| - |t| :: OccursAt(s, t, i)
  }

  predicate OccursAt(s: string, t: string, i: int) {
    0 <= i <= |s| - |t| && s[i..i + |t|] == t
  }

  lemma ContainsEmpty(s: string)
    ensures Contains(s, "")
  {
    assert OccursAt(s, "", 0);
  }

  // ---------------------------------------------------------------------
  // `filter` and `map`

  /** `s.filter(keep)`. */
  function Filter<T>(s: seq<T>, keep: T -> bool): (r: seq<T>)
    ensures |r| <= |s|
    ensures forall i :: 0 <= i < |r| ==> r[i] in s && keep(r[i])
    ensures forall i :: 0 <= i < |s| && keep(s[i]) ==> s[i] in r
  {
    if s == [] then []
    else (if keep(s[0]) then [s[0]] else []) + Filter(s[1..], keep)
  }

  /** Filtering distributes over concatenation: together with the one-element
      case this determines `filter` completely, so the order of the kept
      elements is the order of the input. */
  lemma {:induction false} FilterConcat<T>(a: seq<T>, b: seq<T>, keep: T -> bool)
    ensures Filter(a + b, keep) == Filter(a, keep) + Filter(b, keep)
  {
    if a == [] {
      assert a + b == b;
    } else {
      assert (a + b)[1..] == a[1..] + b;
      FilterConcat(a[1..], b, keep);
    }
  }

  lemma FilterSingle<T>(x: T, keep: T -> bool)
    ensures Filter([x], keep) == if keep(x) then [x] else []
  {
    assert [x][1..] == [];
  }

  /** When every element is kept, `filter` returns its input. */
  lemma {:induction false} FilterKeepsAll<T>(s: seq<T>, keep: T -> bool)
    requires forall i :: 0 <= i < |s| ==> keep(s[i])
    ensures Filter(s, keep) == s
  {
    if s != [] {
      FilterKeepsAll(s[1..], keep);
    }
  }

  /** `s.map(f)`. */
  function Map<T, U>(s: seq<T>, f: T -> U): (r: seq<U>)
    ensures |r| == |s|
    ensures forall i :: 0 <= i < |s| ==> r[i] == f(s[i])
  {
    if s == [] then [] else [f(s[0])] + Map(s[1..], f)
  }

  /** Position of the first element satisfying `p`, if any (`findIndex`,
      and the single row a uniqueness-backed query finds). */
  function FirstWhere<T>(s: seq<T>, p: T -> bool): (r: Option<nat>)
    ensures r.None? <==> forall i | 0 <= i < |s| :: !p(s[i])
    ensures r.Some? ==> r.value < |s| && p(s[r.value])
    ensures r.Some? ==> forall i | 0 <= i < r.value :: !p(s[i])
  {
    if s == [] then None
    else if p(s[0]) then Some(0)
    else match FirstWhere(s[1..], p)
      case None => None
      case Some(i) => Some(i + 1)
  }

  // ---------------------------------------------------------------------
  // Decimal text of integers (`n.toString()`, template literals) and
  // `parseInt(s)` (radix 10; None stands for NaN)

  function DigitChar(d: nat): char
    requires d < 10
  {
    "0123456789"[d]
  }

  predicate IsDigit(c: char) {
    '0' <= c <= '9'
  }

  function DigitValue(c: char): nat
    requires IsDigit(c)
  {
    c as int - '0' as int
  }

  /** Decimal text of a natural number, most significant digit first, with
      no leading zero. */
  function NatToString(n: nat): (r: string)
    ensures |r| > 0
    ensures forall i :: 0 <= i < |r| ==> IsDigit(r[i])
    ensures |r| > 1 ==> r[0] != '0'
  {
    if n < 10 then [DigitChar(n)] else NatToString(n / 10) + [DigitChar(n % 10)]
  }

  function IntToString(i: int): (r: string) {
    if i < 0 then "-" + NatToString(-i) else NatToString(i)
  }

  /** The longest prefix of `s` made of decimal digits. */
  function DigitPrefix(s: string): (r: string)
    ensures forall i :: 0 <= i < |r| ==> IsDigit(r[i])
    ensures |r| < |s| ==> !IsDigit(s[|r|])
  {
    if |s| > 0 && IsDigit(s[0]) then [s[0]] + DigitPrefix(s[1..]) else []
  }

  /** The value of a string of decimal digits. */
  function DigitsValue(d: string): nat
    requires forall i :: 0 <= i < |d| ==> IsDigit(d[i])
  {
    if d == [] then 0 else DigitsValue(d[..|d| - 1]) * 10 + DigitValue(d[|d| - 1])
  }

  /** `parseInt(s)`: skip leading whitespace, read an optional sign, then the
      longest run of decimal digits; no digit at all gives NaN (None). */
  function ParseInt(s: string): Option<int> {
    ReadNumber(TrimStart(s))
  }

  /** The part of `parseInt` after the leading whitespace is skipped. */
  function ReadNumber(t: string): Option<int> {
    var signed := |t| > 0 && (t[0] == '-' || t[0] == '+');
    var body := if signed then t[1..] else t;
    var d := DigitPrefix(body);
    if d == [] then None
    else if signed && t[0] == '-' then Some(-(DigitsValue(d) as int))
    else Some(DigitsValue(d))
  }

  lemma {:induction false} NatToStringValue(n: nat)
    ensures DigitsValue(NatToString(n)) == n
  {
    var r := NatToString(n);
    if n >= 10 {
      NatToStringValue(n / 10);
      assert r[..|r| - 1] == NatToString(n / 10);
    }
  }

  /** A run of digits followed by anything that does not start with a
      digit: `DigitPrefix` stops exactly at the end of the run. */
  lemma {:induction false} DigitPrefixOfDigitsThen(d: string, rest: string)
    requires forall i :: 0 <= i < |d| ==> IsDigit(d[i])
    requires rest == [] || !IsDigit(rest[0])
    ensures DigitPrefix(d + rest) == d
  {
    if d == [] {
      assert d + rest == rest;
    } else {
      assert (d + rest)[0] == d[0];
      assert (d + rest)[1..] == d[1..] + rest;
      DigitPrefixOfDigitsThen(d[1..], rest);
    }
  }

  lemma DigitPrefixNonEmpty(p: string)
    requires |p| > 0 && IsDigit(p[0])
    ensures DigitPrefix(p) != []
  {
    assert DigitPrefix(p) == [p[0]] + DigitPrefix(p[1..]);
  }

  /** Nothing is skipped before a digit or a sign. */
  lemma TrimStartKeeps(s: string)
    requires |s| > 0 && (IsDigit(s[0]) || s[0] == '-')
    ensures TrimStart(s) == s
  {
    assert !IsSpace(s[0]);
  }

  /** A text that starts with a digit is read from its digit prefix. */
  lemma ReadNumberOfDigitLed(p: string)
    requires |p| > 0 && IsDigit(p[0])
    ensures ReadNumber(p) == Some(DigitsValue(DigitPrefix(p)) as int)
  {
    DigitPrefixNonEmpty(p);
  }

  /** A minus sign followed by a digit gives the negated digit prefix. */
  lemma ReadNumberOfMinusLed(m: string, p: string)
    requires |p| > 0 && IsDigit(p[0])
    requires |m| > 0 && m[0] == '-' && m[1..] == p
    ensures ReadNumber(m) == Some(-(DigitsValue(DigitPrefix(p)) as int))
  {
    DigitPrefixNonEmpty(p);
  }

  /** `parseInt` reads the number back from the front of a text that starts
      with that number's decimal form (the rest starting with a non-digit):
      `parseInt(String(i) + rest) == i`. */
  lemma ParseIntOfIntToStringThen(i: int, rest: string)
    requires rest == [] || !IsDigit(rest[0])
    ensures ParseInt(IntToString(i) + rest) == Some(i)
  {
    if i < 0 {
      ParseIntOfNegativeThen(i, rest);
    } else {
      ParseIntOfNatThen(i, rest);
    }
  }

  lemma ParseIntOfNatThen(n: nat, rest: string)
    requires rest == [] || !IsDigit(rest[0])
    ensures ParseInt(IntToString(n) + rest) == Some(n)
  {
    var d := NatToString(n);
    var m := IntToString(n) + rest;
    assert m == d + rest;
    assert m[0] == d[0];
    NatToStringValue(n);
    DigitPrefixOfDigitsThen(d, rest);
    TrimStartKeeps(m);
    ReadNumberOfDigitLed(m);
  }

  lemma ParseIntOfNegativeThen(i: int, rest: string)
    requires i < 0
    requires rest == [] || !IsDigit(rest[0])
    ensures ParseInt(IntToString(i) + rest) == Some(i)
  {
    var n: nat := -i;
    ParseIntOfMinusNatThen(n, IntToString(i), rest);
  }

  lemma ParseIntOfMinusNatThen(n: nat, t: string, rest: string)
    requires t == "-" + NatToString(n)
    requires rest == [] || !IsDigit(rest[0])
    ensures ParseInt(t + rest) == Some(-(n as int))
  {
    var d := NatToString(n);
    var m := t + rest;
    assert m[0] == '-';
    assert m[1..] == d + rest;
    assert (d + rest)[0] == d[0];
    NatToStringValue(n);
    DigitPrefixOfDigitsThen(d, rest);
    TrimStartKeeps(m);
    ReadNumberOfMinusLed(m, d + rest);
  }

  /** The ids the screens turn into option values come back unchanged from
      `parseInt`: `parseInt(String(i)) == i` for every integer. */
  lemma ParseIntOfIntToString(i: int)
    ensures ParseInt(IntToString(i)) == Some(i)
  {
    ParseIntOfIntToStringThen(i, []);
    assert IntToString(i) + [] == IntToString(i);
  }

  /** Different integers have different decimal texts. */
  lemma IntToStringInjective(i: int, j: int)
    requires IntToString(i) == IntToString(j)
    ensures i == j
  {
    ParseIntOfIntToString(i);
    ParseIntOfIntToString(j);
  }

  /** The French and English plural suffix the screens append: "s" unless
      the count is exactly 1. */
  function PluralSuffix(n: int): (r: string)
    ensures r == "" <==> n == 1
    ensures r == "" || r == "s"
  {
    if n != 1 then "s" else ""
  }

  // ---------------------------------------------------------------------
  // The e-mail shape `/\S+@\S+\.\S+/.test(s)` (unanchored)

  /** No whitespace among s[lo..hi]. */
  predicate NoSpaceIn(s: string, lo: int, hi: int)
    requires 0 <= lo <= hi <= |s|
  {
    forall k | lo <= k < hi :: !IsSpace(s[k])
  }

  /** The regular expression taken literally: some piece s[i..j] of `s`
      splits as A "@" B "." C with A, B, C non-empty runs of non-space. */
  ghost predicate EmailShapeAt(s: string, i: int, p: int, q: int, j: int) {
    && 0 <= i < p && p + 1 < q && q + 1 < j <= |s|
    && s[p] == '@' && s[q] == '.'
    && NoSpaceIn(s, i, p) && NoSpaceIn(s, p + 1, q) && NoSpaceIn(s, q + 1, j)
  }

  ghost predicate MatchesEmailRegex(s: string) {
    exists i, p, q, j :: EmailShapeAt(s, i, p, q, j)
  }

  /** The test the screens run, reduced to what a match needs: an '@' and a
      later '.', a non-space character just before the '@', non-space
      characters only (at least one) between them, and a non-space character
      just after the '.'. */
  predicate EmailAt(s: string, p: int, q: int) {
    && 1 <= p && p + 1 < q && q + 1 < |s|
    && s[p] == '@' && s[q] == '.'
    && !IsSpace(s[p - 1]) && NoSpaceIn(s, p + 1, q) && !IsSpace(s[q + 1])
  }

  predicate LooksLikeEmail(s: string) {
    exists p, q | 0 <= p < |s| && 0 <= q < |s| :: EmailAt(s, p, q)
  }

  lemma EmailAtGivesMatch(s: string, p: int, q: int)
    requires EmailAt(s, p, q)
    ensures EmailShapeAt(s, p - 1, p, q, q + 2)
  {
  }

  lemma MatchGivesEmailAt(s: string, i: int, p: int, q: int, j: int)
    requires EmailShapeAt(s, i, p, q, j)
    ensures EmailAt(s, p, q)
  {
  }

  /** The reduced test accepts exactly the strings the regular expression
      matches somewhere. */
  lemma LooksLikeEmailIffRegex(s: string)
    ensures LooksLikeEmail(s) <==> MatchesEmailRegex(s)
  {
    if LooksLikeEmail(s) {
      var p, q :| 0 <= p < |s| && 0 <= q < |s| && EmailAt(s, p, q);
      EmailAtGivesMatch(s, p, q);
    }
    if MatchesEmailRegex(s) {
      var i, p, q, j :| EmailShapeAt(s, i, p, q, j);
      MatchGivesEmailAt(s, i, p, q, j);
    }
  }
}

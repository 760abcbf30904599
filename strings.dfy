/**
 * The string primitives of JavaScript that the page's logic relies on,
 * restated over Dafny strings (sequences of Unicode scalar values):
 * `toLowerCase` (restricted to ASCII letters), `includes`, `startsWith`,
 * `trim`, the UTF-16 view that `substring` and regular expressions work on,
 * and the decimal rendering of a non-negative integer in a template literal.
 */
module Strings {

  // ---------------------------------------------------------------------
  // Lower-casing
  // ---------------------------------------------------------------------

  predicate IsAsciiUpper(c: char) {
    'A' <= c <= 'Z'
  }

  /** `toLowerCase` on one character, for the ASCII letters only. */
  function LowerChar(c: char): char {
    if IsAsciiUpper(c) then (c as int + 32) as char else c
  }

  /** `String.prototype.toLowerCase`, mapping 'A'..'Z' to 'a'..'z' and leaving
      every other character as it is. */
  function ToLower(s: string): (r: string)
    ensures |r| == |s|
  {
    seq(|s|, i requires 0 <= i < |s| => LowerChar(s[i]))
  }

  /** A string with no ASCII capital is left unchanged by lower-casing. */
  lemma ToLowerOfLower(s: string)
    requires forall i :: 0 <= i < |s| ==> !IsAsciiUpper(s[i])
    ensures ToLower(s) == s
  {
  }

  /** Lower-casing twice is lower-casing once. */
  lemma ToLowerIdempotent(s: string)
    ensures ToLower(ToLower(s)) == ToLower(s)
  {
    ToLowerOfLower(ToLower(s));
  }

  // ---------------------------------------------------------------------
  // Substring search
  // ---------------------------------------------------------------------

  /** `String.prototype.includes`: is `k` a contiguous piece of `s`?  The
      empty string is contained in every string, as in JavaScript. */
  predicate Contains(s: string, k: string)
    ensures Contains(s, k) ==> |k| <= |s|
    ensures k == [] ==> Contains(s, k)
    ensures k == s ==> Contains(s, k)
  {
    assert k == [] || k == s ==> OccursAt(s, k, 0);
    exists i | 0 <= i <= |s| - |k| :: OccursAt(s, k, i)
  }

  /** `k` occurs in `s` starting at index `i`. */
  predicate OccursAt(s: string, k: string, i: int) {
    0 <= i && i + |k| <= |s| && s[i..i + |k|] == k
  }

  /** An occurrence at a known index makes `Contains` true. */
  lemma ContainsAt(s: string, k: string, i: nat)
    requires i + |k| <= |s| && s[i..i + |k|] == k
    ensures Contains(s, k)
  {
    assert OccursAt(s, k, i);
  }

  /** If some character of `k` never appears in `s`, `k` is not in `s`. */
  lemma NotContainsMissingChar(s: string, k: string, j: nat)
    requires j < |k| && k[j] !in s
    ensures !Contains(s, k)
  {
  }

  /** `String.prototype.startsWith`. */
  predicate StartsWith(s: string, p: string)
    ensures StartsWith(s, p) <==> exists t :: s == p + t
    ensures StartsWith(s, p) ==> Contains(s, p)
  {
    if |p| <= |s| && s[..|p|] == p then
      assert s == p + s[|p|..] && OccursAt(s, p, 0);
      true
    else
      assert forall t :: s == p + t ==> s[..|p|] == p;
      false
  }

  // ---------------------------------------------------------------------
  // Trimming
  // ---------------------------------------------------------------------

  /** The characters `String.prototype.trim` removes: ECMAScript's WhiteSpace
      (tab, vertical tab, form feed, space, no-break space, the byte order
      mark and the other space separators of Unicode category Zs) and its
      LineTerminator (line feed, carriage return, line and paragraph
      separator). */
  predicate IsJsWhitespace(c: char) {
    c == '\t' || c == '\n' || c == '\U{000B}' || c == '\U{000C}' || c == '\r' ||
    c == ' ' || c == '\U{00A0}' || c == '\U{1680}' ||
    ('\U{2000}' <= c <= '\U{200A}') ||
    c == '\U{2028}' || c == '\U{2029}' || c == '\U{202F}' || c == '\U{205F}' ||
    c == '\U{3000}' || c == '\U{FEFF}'
  }

  /** A string that `trim` reduces to the empty string. */
  predicate IsBlank(s: string) {
    forall i :: 0 <= i < |s| ==> IsJsWhitespace(s[i])
  }

  /** Removes the leading whitespace: the result is a suffix of `s`, it does
      not start with whitespace, and everything removed was whitespace. */
  function TrimStart(s: string): (r: string)
    ensures |r| <= |s| && r == s[|s| - |r|..]
    ensures r == [] || !IsJsWhitespace(r[0])
    ensures forall i :: 0 <= i < |s| - |r| ==> IsJsWhitespace(s[i])
  {
    if s != [] && IsJsWhitespace(s[0]) then TrimStart(s[1..]) else s
  }

  /** Removes the trailing whitespace: the result is a prefix of `s`, it does
      not end with whitespace, and everything removed was whitespace. */
  function TrimEnd(s: string): (r: string)
    ensures |r| <= |s| && r == s[..|r|]
    ensures r == [] || !IsJsWhitespace(r[|r| - 1])
    ensures forall i :: |r| <= i < |s| ==> IsJsWhitespace(s[i])
  {
    if s != [] && IsJsWhitespace(s[|s| - 1]) then TrimEnd(s[..|s| - 1]) else s
  }

  /** `String.prototype.trim`. */
  function Trim(s: string): (r: string)
    ensures |r| <= |s|
    ensures r == [] || (!IsJsWhitespace(r[0]) && !IsJsWhitespace(r[|r| - 1]))
  {
    var t := TrimStart(s);
    var r := TrimEnd(t);
    assert r != [] ==> r[0] == t[0];
    r
  }

  /** How many leading characters `trim` removes. */
  function TrimOffset(s: string): nat {
    |s| - |TrimStart(s)|
  }

  /** A trimmed string is the piece of the original that starts at
      `TrimOffset`, bordered on both sides by whitespace only, and it neither
      starts nor ends with whitespace. */
  lemma TrimSlice(s: string)
    ensures TrimOffset(s) + |Trim(s)| <= |s|
    ensures Trim(s) == s[TrimOffset(s)..TrimOffset(s) + |Trim(s)|]
    ensures forall j :: 0 <= j < TrimOffset(s) ==> IsJsWhitespace(s[j])
    ensures forall j :: TrimOffset(s) + |Trim(s)| <= j < |s| ==> IsJsWhitespace(s[j])
    ensures Trim(s) == [] || (!IsJsWhitespace(Trim(s)[0]) && !IsJsWhitespace(Trim(s)[|Trim(s)| - 1]))
  {
    var t := TrimStart(s);
    var i := |s| - |t|;
    TrimEndOfSuffix(s, i, t);
    var r := TrimEnd(t);
    assert Trim(s) == r && TrimOffset(s) == i;
  }

  /** `TrimEnd` applied to the suffix `s[i..]`, restated on `s`. */
  lemma TrimEndOfSuffix(s: string, i: nat, t: string)
    requires i <= |s| && t == s[i..]
    requires t == [] || !IsJsWhitespace(t[0])
    ensures i + |TrimEnd(t)| <= |s|
    ensures TrimEnd(t) == s[i..i + |TrimEnd(t)|]
    ensures forall j :: i + |TrimEnd(t)| <= j < |s| ==> IsJsWhitespace(s[j])
    ensures TrimEnd(t) == [] || !IsJsWhitespace(TrimEnd(t)[0])
  {
    var r := TrimEnd(t);
    assert r == t[..|r|];
    forall j | i + |r| <= j < |s|
      ensures IsJsWhitespace(s[j])
    {
      assert s[j] == t[j - i];
    }
    if r != [] {
      assert r[0] == t[0];
    }
  }

  /** `trim` yields the empty string exactly for blank input. */
  lemma TrimEmptyIffBlank(s: string)
    ensures Trim(s) == [] <==> IsBlank(s)
  {
  }

  /** Trimming a trimmed string changes nothing. */
  lemma TrimIdempotent(s: string)
    ensures Trim(Trim(s)) == Trim(s)
  {
    var r := Trim(s);
    var t := TrimStart(s);
    if r != [] {
      assert r[0] == t[0];
    }
    assert TrimStart(r) == r;
    assert TrimEnd(r) == r;
  }

  /** Lower-casing works character by character, so it commutes with taking
      a slice. */
  lemma ToLowerSlice(s: string, lo: nat, hi: nat)
    requires lo <= hi <= |s|
    ensures ToLower(s[lo..hi]) == ToLower(s)[lo..hi]
  {
  }

  /** What is found in a slice is found in the whole string. */
  lemma ContainsFromSlice(s: string, lo: nat, hi: nat, k: string)
    requires lo <= hi <= |s|
    ensures Contains(s[lo..hi], k) ==> Contains(s, k)
  {
    if Contains(s[lo..hi], k) {
      var i :| OccursAt(s[lo..hi], k, i);
      assert OccursAt(s[lo..hi], k, i);
      forall m | 0 <= m < |k| ensures s[lo + i + m] == k[m] {
        assert s[lo..hi][i..i + |k|][m] == k[m];
      }
      ContainsAt(s, k, lo + i);
    }
  }

  /** When everything outside `s[lo..hi]` is whitespace, a piece that
      neither starts nor ends with whitespace and is found in `s` is found in
      the slice. */
  lemma ContainsInSlice(s: string, lo: nat, hi: nat, k: string)
    requires lo <= hi <= |s|
    requires forall j :: 0 <= j < lo ==> IsJsWhitespace(s[j])
    requires forall j :: hi <= j < |s| ==> IsJsWhitespace(s[j])
    requires k != [] && !IsJsWhitespace(k[0]) && !IsJsWhitespace(k[|k| - 1])
    ensures Contains(s, k) ==> Contains(s[lo..hi], k)
  {
    if Contains(s, k) {
      var i :| OccursAt(s, k, i);
      assert OccursAt(s, k, i);
      assert s[i] == k[0] && s[i + |k| - 1] == k[|k| - 1];
      assert lo <= i && i + |k| <= hi;
      forall m | 0 <= m < |k| ensures s[lo..hi][i - lo + m] == k[m] {
        assert s[i..i + |k|][m] == k[m];
      }
      ContainsAt(s[lo..hi], k, i - lo);
    }
  }

  /** Whitespace is not an ASCII capital, so lower-casing keeps it. */
  lemma LowerKeepsWhitespace(s: string)
    ensures forall j :: 0 <= j < |s| && IsJsWhitespace(s[j]) ==> ToLower(s)[j] == s[j]
  {
  }

  /** Lower-casing, then trimming, keeps a slice of the lower-cased string
      with only whitespace around it. */
  lemma LowerTrimSlice(s: string)
    ensures TrimOffset(s) + |Trim(s)| <= |s|
    ensures ToLower(Trim(s)) == ToLower(s)[TrimOffset(s)..TrimOffset(s) + |Trim(s)|]
    ensures forall j :: 0 <= j < TrimOffset(s) ==> IsJsWhitespace(ToLower(s)[j])
    ensures forall j :: TrimOffset(s) + |Trim(s)| <= j < |s| ==> IsJsWhitespace(ToLower(s)[j])
  {
    TrimSlice(s);
    ToLowerSlice(s, TrimOffset(s), TrimOffset(s) + |Trim(s)|);
    LowerKeepsWhitespace(s);
  }

  /** A piece that neither starts nor ends with whitespace is found in a
      lower-cased string exactly when it is found in the lower-cased trimmed
      string. */
  lemma ContainsIgnoresTrim(s: string, k: string)
    requires k != [] && !IsJsWhitespace(k[0]) && !IsJsWhitespace(k[|k| - 1])
    ensures Contains(ToLower(Trim(s)), k) <==> Contains(ToLower(s), k)
  {
    var lo, hi := TrimOffset(s), TrimOffset(s) + |Trim(s)|;
    LowerTrimSlice(s);
    ContainsFromSlice(ToLower(s), lo, hi, k);
    ContainsInSlice(ToLower(s), lo, hi, k);
  }

  // ---------------------------------------------------------------------
  // UTF-16 code units
  // ---------------------------------------------------------------------

  /** The UTF-16 code units of one character: one unit for the Basic
      Multilingual Plane, a surrogate pair above it. */
  function Utf16Units(c: char): (u: seq<int>)
    ensures |u| == (if c as int < 0x1_0000 then 1 else 2)
    ensures forall j :: 0 <= j < |u| ==> 0 <= u[j] < 0x1_0000
    ensures c as int < 0x1_0000 ==> u[0] == c as int
    ensures c as int >= 0x1_0000 ==> 0xD800 <= u[0] < 0xDC00 <= u[1] < 0xE000
  {
    if c as int < 0x1_0000 then [c as int]
    else
      var v := c as int - 0x1_0000;
      [0xD800 + v / 0x400, 0xDC00 + v % 0x400]
  }

  /** The string as JavaScript stores it: a sequence of UTF-16 code units. */
  function Utf16(s: string): (u: seq<int>)
    ensures forall j :: 0 <= j < |u| ==> 0 <= u[j] < 0x1_0000
    ensures |u| >= |s|
  {
    if s == [] then [] else Utf16Units(s[0]) + Utf16(s[1..])
  }

  /** A string inside the Basic Multilingual Plane has one code unit per
      character, equal to that character. */
  lemma {:induction false} Utf16OfBmp(s: string)
    requires forall i :: 0 <= i < |s| ==> s[i] as int < 0x1_0000
    ensures |Utf16(s)| == |s|
    ensures forall i :: 0 <= i < |s| ==> Utf16(s)[i] == s[i] as int
  {
    if s != [] {
      Utf16OfBmp(s[1..]);
    }
  }

  // ---------------------------------------------------------------------
  // Decimal numerals
  // ---------------------------------------------------------------------

  predicate IsDigit(c: char) {
    '0' <= c <= '9'
  }

  function DigitChar(d: nat): (c: char)
    requires d < 10
  {
    ('0' as int + d) as char
  }

  /** The decimal numeral of `n`, as a template literal renders an integer
      number: digits only, no sign and no leading zero. */
  function NatToString(n: nat): (r: string)
    ensures r != []
    ensures forall i :: 0 <= i < |r| ==> IsDigit(r[i])
    ensures r[0] == '0' ==> n == 0 && r == "0"
  {
    if n < 10 then [DigitChar(n)] else NatToString(n / 10) + [DigitChar(n % 10)]
  }

  /** The value of a string of decimal digits. */
  function ParseNat(s: string): nat
    requires forall i :: 0 <= i < |s| ==> IsDigit(s[i])
  {
    if s == [] then 0
    else
      var last := s[|s| - 1];
      assert IsDigit(last);
      10 * ParseNat(s[..|s| - 1]) + (last as int - '0' as int)
  }

  /** The numeral reads back as the number it was made from. */
  lemma {:induction false} ParseNatToString(n: nat)
    ensures ParseNat(NatToString(n)) == n
  {
    if n >= 10 {
      var s := NatToString(n);
      assert s[..|s| - 1] == NatToString(n / 10);
      ParseNatToString(n / 10);
    }
  }

  // ---------------------------------------------------------------------
  // Searching from the end
  // ---------------------------------------------------------------------

  /** `s.lastIndexOf(c)`: the last position holding `c`, or -1. */
  function LastIndexOf(s: string, c: char): (r: int)
    ensures -1 <= r < |s|
    ensures r >= 0 ==> s[r] == c
    ensures forall j :: r < j < |s| ==> s[j] != c
  {
    if s == [] then -1
    else if s[|s| - 1] == c then |s| - 1
    else LastIndexOf(s[..|s| - 1], c)
  }

  /** The last `c` of `s + [c] + t` is the one between them when `t` has
      none. */
  lemma LastIndexOfSeparator(s: string, c: char, t: string)
    requires c !in t
    ensures LastIndexOf(s + [c] + t, c) == |s|
  {
    var u := s + [c] + t;
    assert u[|s|] == c;
  }

  // ---------------------------------------------------------------------
  // Object lookups
  // ---------------------------------------------------------------------

  /** `table[key] || fallback` on an object literal whose values are strings:
      the entry when there is one and it is not the empty string (which is
      falsy), and `fallback` otherwise. */
  function LookupOr(table: map<string, string>, key: string, fallback: string): (r: string)
    ensures r in table.Values || r == fallback
    ensures key in table && table[key] != [] ==> r == table[key]
    ensures !(key in table && table[key] != []) ==> r == fallback
    ensures fallback != [] ==> r != []
  {
    if key in table && table[key] != [] then table[key] else fallback
  }
}

/** String helpers shared by the back end (C#) and the browser client
    (TypeScript): whitespace, trimming, ASCII case mapping, searching,
    splitting, and decimal integers. Whitespace is the ASCII set
    (tab, line feed, vertical tab, form feed, carriage return, space),
    and case mapping covers the letters A-Z only. */
module Text {
  import opened Wrappers

  // ---------------------------------------------------------------- whitespace

  predicate IsWhite(c: char) {
    c == ' ' || ('\t' <= c <= '\r')
  }

  predicate IsBlank(s: string) {
    forall i :: 0 <= i < |s| ==> IsWhite(s[i])
  }

  /** `string.IsNullOrWhiteSpace`. */
  predicate IsNullOrWhiteSpace(s: Option<string>) {
    s.None? || IsBlank(s.value)
  }

  /** `string.IsNullOrEmpty`. */
  predicate IsNullOrEmpty(s: Option<string>) {
    s.None? || s.value == ""
  }

  /** The number of whitespace characters `s` starts with. */
  function LeadingWhite(s: string): (n: nat)
    ensures n <= |s|
    ensures forall i :: 0 <= i < n ==> IsWhite(s[i])
    ensures n < |s| ==> !IsWhite(s[n])
  {
    if s != [] && IsWhite(s[0]) then
      var n := LeadingWhite(s[1..]);
      forall i | 1 <= i < n + 1 ensures IsWhite(s[i]) {
        assert s[i] == s[1..][i - 1];
      }
      assert n + 1 < |s| ==> s[n + 1] == s[1..][n];
      n + 1
    else 0
  }

  /** The length of `s` without the whitespace it ends with. */
  function KeptLength(s: string): (n: nat)
    ensures n <= |s|
    ensures forall i :: n <= i < |s| ==> IsWhite(s[i])
    ensures n > 0 ==> !IsWhite(s[n - 1])
  {
    if s != [] && IsWhite(s[|s| - 1]) then
      var n := KeptLength(s[..|s| - 1]);
      forall i | n <= i < |s| - 1 ensures IsWhite(s[i]) {
        assert s[i] == s[..|s| - 1][i];
      }
      assert n > 0 ==> s[n - 1] == s[..|s| - 1][n - 1];
      n
    else |s|
  }

  /** C#'s `Trim()` and JavaScript's `trim()`: the leading whitespace goes,
      then the trailing whitespace. */
  function Trim(s: string): (r: string)
    ensures r == [] <==> IsBlank(s)
    ensures r == [] || (!IsWhite(r[0]) && !IsWhite(r[|r| - 1]))
  {
    var a := LeadingWhite(s);
    var t := s[a..];
    var b := KeptLength(t);
    assert t != [] ==> !IsWhite(t[0]);
    assert b > 0 ==> t[..b][0] == t[0];
    assert a < |s| ==> !IsBlank(s);
    t[..b]
  }

  lemma TrimOfTrimmed(s: string)
    requires s == [] || (!IsWhite(s[0]) && !IsWhite(s[|s| - 1]))
    ensures Trim(s) == s
  {
    if s != [] {
      assert LeadingWhite(s) == 0;
      assert s[0..] == s;
      assert KeptLength(s) == |s|;
    }
  }

  /** Trimming keeps a leading part that neither starts nor ends with whitespace. */
  lemma TrimKeepsPrefix(a: string, b: string)
    requires a != [] && !IsWhite(a[0]) && !IsWhite(a[|a| - 1])
    ensures StartsWith(Trim(a + b), a)
  {
    var s := a + b;
    assert s[0] == a[0] && s[|a| - 1] == a[|a| - 1];
    assert LeadingWhite(s) == 0;
    assert s[0..] == s;
    var n := KeptLength(s);
    assert n >= |a|;
    assert Trim(s) == s[..n];
    assert s[..n][..|a|] == s[..|a|] == a;
  }

  // ---------------------------------------------------------------- case

  function LowerChar(c: char): char {
    if 'A' <= c <= 'Z' then (c as int + 32) as char else c
  }

  function UpperChar(c: char): char {
    if 'a' <= c <= 'z' then (c as int - 32) as char else c
  }

  /** C#'s `ToLowerInvariant()` and JavaScript's `toLowerCase()`, on ASCII letters. */
  function ToLower(s: string): (r: string)
    ensures |r| == |s|
    ensures forall i :: 0 <= i < |s| ==> r[i] == LowerChar(s[i])
  {
    seq(|s|, i requires 0 <= i < |s| => LowerChar(s[i]))
  }

  function ToUpper(s: string): (r: string)
    ensures |r| == |s|
    ensures forall i :: 0 <= i < |s| ==> r[i] == UpperChar(s[i])
  {
    seq(|s|, i requires 0 <= i < |s| => UpperChar(s[i]))
  }

  /** `string.Equals(a, b, StringComparison.OrdinalIgnoreCase)`. */
  predicate EqualsIgnoreCase(a: string, b: string) {
    ToUpper(a) == ToUpper(b)
  }

  // ---------------------------------------------------------------- searching

  /** `s.StartsWith(p)` / `s.startsWith(p)`. */
  predicate StartsWith(s: string, p: string) {
    p <= s
  }

  /** `s.EndsWith(p)` / `s.endsWith(p)`. */
  predicate EndsWith(s: string, p: string) {
    |p| <= |s| && s[|s| - |p|..] == p
  }

  /** `hay.Contains(needle)` / `hay.includes(needle)`. */
  predicate Contains(hay: string, needle: string) {
    exists i :: 0 <= i <= |hay| - |needle| && needle <= hay[i..]
  }

  lemma ContainsAt(hay: string, needle: string, i: nat)
    requires i + |needle| <= |hay| && hay[i..i + |needle|] == needle
    ensures Contains(hay, needle)
  {
    assert needle <= hay[i..];
  }

  // ---------------------------------------------------------------- splitting

  /** The longest prefix of `s` holding no separator. */
  function TakeUntil(s: string, sep: char -> bool): (r: string)
    ensures r <= s
    ensures forall i :: 0 <= i < |r| ==> !sep(r[i])
    ensures |r| < |s| ==> sep(s[|r|])
  {
    if s == [] || sep(s[0]) then [] else [s[0]] + TakeUntil(s[1..], sep)
  }

  /** `s` without its leading separators. */
  function DropWhile(s: string, sep: char -> bool): (r: string)
    ensures |r| <= |s| && r == s[|s| - |r|..]
    ensures forall i :: 0 <= i < |s| - |r| ==> sep(s[i])
    ensures r == [] || !sep(r[0])
  {
    if s != [] && sep(s[0]) then DropWhile(s[1..], sep) else s
  }

  predicate IsSpace(c: char) { c == ' ' }

  /** Number of occurrences of `c` in `s`. */
  function Count(s: string, c: char): nat {
    if s == [] then 0 else (if s[0] == c then 1 else 0) + Count(s[1..], c)
  }

  /** JavaScript's `s.split(c)` for a one-character separator. */
  function Split(s: string, c: char): (parts: seq<string>)
    ensures |parts| == Count(s, c) + 1
    ensures forall k :: 0 <= k < |parts| ==> c !in parts[k]
  {
    if s == [] then [[]]
    else
      var rest := Split(s[1..], c);
      if s[0] == c then [[]] + rest
      else [[s[0]] + rest[0]] + rest[1..]
  }

  /** A string without the separator splits into itself. */
  lemma {:induction false} SplitNoSeparator(a: string, c: char)
    requires c !in a
    ensures Split(a, c) == [a]
  {
    if a != [] {
      SplitNoSeparator(a[1..], c);
      assert [a[0]] + a[1..] == a;
    }
  }

  /** Splitting at the first separator: the text before it is the first part. */
  lemma {:induction false} SplitAtFirst(a: string, rest: string, c: char)
    requires c !in a
    ensures Split(a + [c] + rest, c) == [a] + Split(rest, c)
  {
    var s := a + [c] + rest;
    if a == [] {
      assert s[1..] == rest;
    } else {
      assert s[1..] == a[1..] + [c] + rest;
      SplitAtFirst(a[1..], rest, c);
      assert [a[0]] + a[1..] == a;
    }
  }

  /** `s.replace(/c+$/, "")`: every trailing `c` removed. */
  function StripTrailing(s: string, c: char): (r: string)
    ensures r <= s
    ensures r == [] || r[|r| - 1] != c
    ensures forall i :: |r| <= i < |s| ==> s[i] == c
  {
    if s != [] && s[|s| - 1] == c then StripTrailing(s[..|s| - 1], c) else s
  }

  /** Every occurrence of the character `c` replaced by `rep` (`s.replace(/c/g, rep)`). */
  function ReplaceAll(s: string, c: char, rep: string): (r: string)
    ensures c !in rep ==> c !in r
    ensures c !in s ==> r == s
  {
    if s == [] then []
    else (if s[0] == c then rep else [s[0]]) + ReplaceAll(s[1..], c, rep)
  }

  lemma {:induction false} ReplaceAllAppend(a: string, b: string, c: char, rep: string)
    ensures ReplaceAll(a + b, c, rep) == ReplaceAll(a, c, rep) + ReplaceAll(b, c, rep)
  {
    if a == [] {
      assert a + b == b;
    } else {
      var head := if a[0] == c then rep else [a[0]];
      assert (a + b)[0] == a[0];
      assert (a + b)[1..] == a[1..] + b;
      ReplaceAllAppend(a[1..], b, c, rep);
      calc {
        ReplaceAll(a + b, c, rep);
        head + ReplaceAll(a[1..] + b, c, rep);
        head + (ReplaceAll(a[1..], c, rep) + ReplaceAll(b, c, rep));
        (head + ReplaceAll(a[1..], c, rep)) + ReplaceAll(b, c, rep);
      }
    }
  }

  // ---------------------------------------------------------------- integers

  const Int32Min: int := -0x8000_0000
  const Int32Max: int := 0x7fff_ffff

  predicate IsInt32(n: int) { Int32Min <= n <= Int32Max }

  predicate IsDigit(c: char) { '0' <= c <= '9' }

  predicate AllDigits(s: string) { forall i :: 0 <= i < |s| ==> IsDigit(s[i]) }

  function DigitChar(d: nat): char
    requires d < 10
  {
    ('0' as int + d) as char
  }

  /** The value of a string of decimal digits. */
  function DigitsValue(ds: string): nat
    requires AllDigits(ds)
  {
    if ds == [] then 0
    else DigitsValue(ds[..|ds| - 1]) * 10 + (ds[|ds| - 1] as int - '0' as int)
  }

  /** The decimal digits of `n`, without leading zeros. */
  function NatToDigits(n: nat): (ds: string)
    ensures ds != [] && AllDigits(ds)
    ensures DigitsValue(ds) == n
  {
    if n < 10 then [DigitChar(n)]
    else
      var init := NatToDigits(n / 10);
      var ds := init + [DigitChar(n % 10)];
      assert ds[..|ds| - 1] == init;
      ds
  }

  /** C#'s `int.ToString()` and JavaScript's `String(n)` / template literals on integers. */
  function IntToString(n: int): (s: string)
    ensures s != [] && !IsWhite(s[0]) && !IsWhite(s[|s| - 1])
  {
    if n < 0 then "-" + NatToDigits(-n) else NatToDigits(n)
  }

  /** A signed decimal integer surrounded by optional whitespace (no range limit). */
  function ParseDecimal(s: string): Option<int> {
    var t := Trim(s);
    if t == [] then None
    else if t[0] == '-' || t[0] == '+' then
      var ds := t[1..];
      if ds != [] && AllDigits(ds) then
        var v: int := DigitsValue(ds);
        Some(if t[0] == '-' then -v else v)
      else None
    else if AllDigits(t) then Some(DigitsValue(t))
    else None
  }

  /** A word that starts with neither a digit nor a sign is no integer. */
  lemma ParseDecimalOfWord(s: string)
    requires s != [] && !IsWhite(s[0]) && !IsWhite(s[|s| - 1]) && !IsDigit(s[0]) && s[0] != '-' && s[0] != '+'
    ensures ParseDecimal(s) == None
  {
    TrimOfTrimmed(s);
  }

  /** `int.TryParse(s, out v)` with the default `NumberStyles.Integer`:
      `None` for a null string, a malformed one, or a value outside 32 bits. */
  function ParseInt32(s: Option<string>): (r: Option<int>)
    ensures r.Some? ==> IsInt32(r.value)
    ensures IsNullOrEmpty(s) ==> r.None?
  {
    if s.None? then None
    else match ParseDecimal(s.value)
      case Some(v) => if IsInt32(v) then Some(v) else None
      case None => None
  }

  lemma {:induction false} ParseDecimalOfIntToString(n: int)
    ensures ParseDecimal(IntToString(n)) == Some(n)
  {
    var s := IntToString(n);
    TrimOfTrimmed(s);
    if n < 0 {
      var ds := NatToDigits(-n);
      assert s[1..] == ds;
    } else {
      assert !IsDigit('-') && !IsDigit('+');
      assert s[0] != '-' && s[0] != '+';
    }
  }

  /** Printing an identifier and parsing it back gives the identifier:
      what lets a user id travel through a token claim. */
  lemma ParseInt32OfIntToString(n: int)
    requires IsInt32(n)
    ensures ParseInt32(Some(IntToString(n))) == Some(n)
  {
    ParseDecimalOfIntToString(n);
  }
}

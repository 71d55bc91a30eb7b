/** JavaScript value semantics the browser client relies on: truthiness of
    optional strings, the `||` and `??` operators, numbers as produced by
    `Number(...)`, and `encodeURIComponent`. */
module Js {
  import opened Wrappers
  import opened Text

  /** `null`, `undefined` and the empty string are falsy; every other string is truthy. */
  predicate Truthy(s: Option<string>) {
    s.Some? && s.value != ""
  }

  /** `a || b` on optional strings. */
  function Or(a: Option<string>, b: Option<string>): (r: Option<string>)
    ensures Truthy(r) <==> Truthy(a) || Truthy(b)
    ensures Truthy(a) ==> r == a
  {
    if Truthy(a) then a else b
  }

  /** `x0 ?? x1 ?? ... ?? fallback`: the first operand that is neither `null` nor `undefined`. */
  function Coalesce<T>(xs: seq<Option<T>>, fallback: T): (r: T)
    ensures (forall i :: 0 <= i < |xs| ==> xs[i].None?) ==> r == fallback
    ensures forall i :: 0 <= i < |xs| && xs[i].Some? && (forall j :: 0 <= j < i ==> xs[j].None?) ==> r == xs[i].value
  {
    if xs == [] then fallback
    else if xs[0].Some? then xs[0].value
    else Coalesce(xs[1..], fallback)
  }

  /** The fields of an API object of one value type: a missing key is
      `undefined`, a key mapped to `None` holds `null`. */
  type Fields<T> = map<string, Option<T>>

  /** `obj[k]`, with `undefined` and `null` alike as `None`. */
  function Lookup<T>(obj: Fields<T>, k: string): Option<T> {
    if k in obj then obj[k] else None
  }

  function Lookups<T>(obj: Fields<T>, keys: seq<string>): (vs: seq<Option<T>>)
    ensures |vs| == |keys| && forall i :: 0 <= i < |keys| ==> vs[i] == Lookup(obj, keys[i])
  {
    seq(|keys|, i requires 0 <= i < |keys| => Lookup(obj, keys[i]))
  }

  /** A number produced by `Number(...)`: `NaN` and the infinities are `NonFinite`;
      finite values are modelled by their integer part only. */
  datatype JsNumber = NonFinite | Whole(value: int)

  /** A JSON object as the client reads it: its numeric fields, each as
      `Number(...)` of the value, and its text fields. */
  datatype JsonObject = JsonObject(numbers: Fields<JsNumber>, texts: Fields<string>)

  /** `Number.isFinite(n) && n > 0`. */
  predicate IsPositiveId(n: JsNumber) {
    n.Whole? && n.value > 0
  }

  /** `Number(s)` for a string: surrounding whitespace is ignored, a blank
      string is 0 and a signed decimal integer is its value; every other
      string is `NaN` (fractions, exponents and hexadecimal forms are not
      modelled). */
  function NumberOf(s: string): (n: JsNumber)
    ensures IsBlank(s) ==> n == Whole(0)
  {
    if IsBlank(s) then Whole(0)
    else match ParseDecimal(s)
      case Some(v) => Whole(v)
      case None => NonFinite
  }

  /** An integer printed and read back with `Number` is that integer. */
  lemma NumberOfIntToString(n: int)
    ensures NumberOf(IntToString(n)) == Whole(n)
  {
    ParseDecimalOfIntToString(n);
    var s := IntToString(n);
    assert !IsWhite(s[0]);
  }

  /** `Number(String(NaN))` is `NaN` again. */
  lemma NumberOfNaN()
    ensures NumberOf("NaN") == NonFinite
  {
    var s := "NaN";
    assert !IsWhite(s[0]) && !IsWhite(s[2]) && !IsDigit(s[0]);
    ParseDecimalOfWord(s);
  }

  /** `String(n)` and `${n}` for a number. */
  function NumberToString(n: JsNumber): (s: string)
    ensures n.NonFinite? ==> s == "NaN"
    ensures n.Whole? ==> s == IntToString(n.value)
  {
    match n
    case NonFinite => "NaN"
    case Whole(v) => IntToString(v)
  }

  /** A number printed and read back with `Number` is that number. */
  lemma NumberToStringRoundTrip(n: JsNumber)
    ensures NumberOf(NumberToString(n)) == n
  {
    match n
    case NonFinite =>
      NumberOfNaN();
    case Whole(v) =>
      NumberOfIntToString(v);
  }

  // ---------------------------------------------------------------- encodeURIComponent

  /** The characters `encodeURIComponent` leaves alone. */
  predicate Unreserved(c: char) {
    ('A' <= c <= 'Z') || ('a' <= c <= 'z') || ('0' <= c <= '9') ||
    c == '-' || c == '_' || c == '.' || c == '!' || c == '~' || c == '*' ||
    c == '\'' || c == '(' || c == ')'
  }

  predicate IsUpperHex(c: char) {
    ('0' <= c <= '9') || ('A' <= c <= 'F')
  }

  function HexDigit(d: nat): (c: char)
    requires d < 16
    ensures IsUpperHex(c)
  {
    if d < 10 then ('0' as int + d) as char else ('A' as int + d - 10) as char
  }

  /** `%XY` for one byte. */
  function PercentByte(b: nat): (r: string)
    requires b < 256
    ensures |r| == 3 && r[0] == '%' && IsUpperHex(r[1]) && IsUpperHex(r[2])
  {
    ['%', HexDigit(b / 16), HexDigit(b % 16)]
  }

  /** The UTF-8 encoding of a Unicode scalar value. */
  function Utf8(cp: nat): (bytes: seq<nat>)
    requires cp < 0x11_0000
    ensures 1 <= |bytes| <= 4
    ensures forall i :: 0 <= i < |bytes| ==> bytes[i] < 256
  {
    if cp < 0x80 then [cp]
    else if cp < 0x800 then [0xC0 + cp / 64, 0x80 + cp % 64]
    else if cp < 0x1_0000 then [0xE0 + cp / 4096, 0x80 + (cp / 64) % 64, 0x80 + cp % 64]
    else [0xF0 + cp / 262144, 0x80 + (cp / 4096) % 64, 0x80 + (cp / 64) % 64, 0x80 + cp % 64]
  }

  function PercentBytes(bytes: seq<nat>): (r: string)
    requires forall i :: 0 <= i < |bytes| ==> bytes[i] < 256
    ensures forall i :: 0 <= i < |r| ==> r[i] == '%' || IsUpperHex(r[i])
  {
    if bytes == [] then [] else PercentByte(bytes[0]) + PercentBytes(bytes[1..])
  }

  /** `encodeURIComponent(s)`: unreserved characters kept, every other one
      replaced by the percent-encoded bytes of its UTF-8 form. */
  function EncodeUriComponent(s: string): (r: string)
    ensures forall i :: 0 <= i < |r| ==> Unreserved(r[i]) || r[i] == '%'
    ensures (forall i :: 0 <= i < |s| ==> Unreserved(s[i])) ==> r == s
  {
    if s == [] then []
    else
      var head := if Unreserved(s[0]) then [s[0]] else PercentBytes(Utf8(s[0] as nat));
      head + EncodeUriComponent(s[1..])
  }

  /** An encoded component can never end the query value it is placed in:
      it holds no `&`, `=`, `#` or `?`. */
  lemma EncodedComponentIsOneValue(s: string)
    ensures '&' !in EncodeUriComponent(s) && '=' !in EncodeUriComponent(s)
    ensures '#' !in EncodeUriComponent(s) && '?' !in EncodeUriComponent(s)
  {
    var r := EncodeUriComponent(s);
    forall i | 0 <= i < |r| ensures r[i] != '&' && r[i] != '=' && r[i] != '#' && r[i] != '?' {
      assert Unreserved(r[i]) || r[i] == '%';
    }
  }
}

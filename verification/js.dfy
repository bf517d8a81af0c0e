/** The JavaScript vocabulary the rest of the model is written in: the values a
    parsed request body can hold, thrown errors, ECMAScript whitespace, `trim`,
    ASCII case folding, `includes`, `split` and number-to-string conversion.
    Strings are sequences of `char`, one `char` per Unicode code point of the
    original; where JavaScript's UTF-16 length matters (the export-file name
    sanitiser), `Generator.Utf16Length` counts a character outside the Basic
    Multilingual Plane as two code units. */
module Js {

  datatype Option<+T> = None | Some(value: T) {
    function GetOr(default: T): T {
      match this
      case Some(v) => v
      case None => default
    }
  }

  /** A value read out of a parsed JSON body. Arrays and objects nested inside
      the body are only ever tested for truthiness or interpolated, so they
      are one case. JSON has no NaN, so a number is falsy exactly when zero. */
  datatype Value = Undefined | Null | Bool(b: bool) | Num(n: real) | Str(s: string) | Compound

  /** JavaScript truthiness (`!!v`) */
  predicate Truthy(v: Value) {
    match v
    case Undefined => false
    case Null => false
    case Bool(b) => b
    case Num(n) => n != 0.0
    case Str(s) => |s| > 0
    case Compound => true
  }

  /** `a || b` */
  function Or(a: Value, b: Value): (r: Value)
    ensures Truthy(a) ==> r == a
    ensures !Truthy(a) ==> r == b
  {
    if Truthy(a) then a else b
  }

  /** An `Error` object as the handlers read it: `error.name` and `error.message`.
      An empty name stands for a missing (falsy) one. */
  datatype JsError = JsError(name: string, message: string)

  /** ECMAScript LineTerminator: what `.` in a regular expression never matches */
  predicate IsLineTerminator(c: char) {
    c == '\n' || c == '\r' || c == '\U{2028}' || c == '\U{2029}'
  }

  /** ECMAScript WhiteSpace or LineTerminator: the class `\s` and what `trim` removes */
  predicate IsSpace(c: char) {
    || c == '\t' || c == '\U{000B}' || c == '\U{000C}' || c == ' '
    || c == '\U{00A0}' || c == '\U{FEFF}' || c == '\U{1680}'
    || ('\U{2000}' <= c <= '\U{200A}')
    || c == '\U{202F}' || c == '\U{205F}' || c == '\U{3000}'
    || IsLineTerminator(c)
  }

  predicate AllSpace(s: string) {
    forall k :: 0 <= k < |s| ==> IsSpace(s[k])
  }

  /** No whitespace at either end */
  predicate IsTrimmed(s: string) {
    |s| == 0 || (!IsSpace(s[0]) && !IsSpace(s[|s| - 1]))
  }

  /** Number of leading whitespace characters */
  function LeadingSpace(s: string): (n: nat)
    ensures n <= |s|
    ensures AllSpace(s[..n])
    ensures n == |s| || !IsSpace(s[n])
  {
    if |s| > 0 && IsSpace(s[0]) then
      var n := 1 + LeadingSpace(s[1..]);
      assert s[..n] == [s[0]] + s[1..][..n - 1];
      n
    else 0
  }

  /** Number of trailing whitespace characters */
  function TrailingSpace(s: string): (n: nat)
    ensures n <= |s|
    ensures AllSpace(s[|s| - n..])
    ensures n == |s| || !IsSpace(s[|s| - n - 1])
  {
    if |s| > 0 && IsSpace(s[|s| - 1]) then
      var n := 1 + TrailingSpace(s[..|s| - 1]);
      assert s[|s| - n..] == s[..|s| - 1][|s| - n..] + [s[|s| - 1]];
      n
    else 0
  }

  /** `String.prototype.trim`: the contiguous middle of `s` left once the
      whitespace at both ends is gone */
  function Trim(s: string): (r: string)
    ensures IsTrimmed(r)
    ensures exists i, j :: 0 <= i <= j <= |s| && r == s[i..j] && AllSpace(s[..i]) && AllSpace(s[j..])
  {
    var i := LeadingSpace(s);
    if i == |s| then
      assert s == s[..i];
      s[i..i]
    else
      var j := |s| - TrailingSpace(s);
      assert i < j;
      s[i..j]
  }

  lemma {:induction false} TrimmedIsFixed(s: string)
    requires IsTrimmed(s)
    ensures Trim(s) == s
  {
    if |s| > 0 {
      assert LeadingSpace(s) == 0;
      assert TrailingSpace(s) == 0;
    }
  }

  /** Lower-casing of an ASCII upper-case letter; every other character is kept */
  function Lower(c: char): (r: char)
    ensures 'A' <= c <= 'Z' ==> 'a' <= r <= 'z' && r as int == c as int + 32
    ensures !('A' <= c <= 'Z') ==> r == c
  {
    if 'A' <= c <= 'Z' then (c as int + 32) as char else c
  }

  /** Character equality under a regular expression's `i` flag, for a pattern
      written in ASCII: a non-ASCII character never folds onto an ASCII one. */
  predicate EqCI(c: char, pat: char) {
    Lower(c) == Lower(pat)
  }

  /** `s.includes(sub)` */
  predicate Contains(s: string, sub: string) {
    exists k :: 0 <= k <= |s| && At(s, k, sub)
  }

  /** Case-sensitive occurrence of `lit` at index `i` */
  predicate At(s: string, i: nat, lit: string) {
    i + |lit| <= |s| && forall d :: 0 <= d < |lit| ==> s[i + d] == lit[d]
  }

  /** An occurrence is a slice equal to the literal */
  lemma AtSlice(s: string, i: nat, lit: string)
    ensures At(s, i, lit) <==> i + |lit| <= |s| && s[i..i + |lit|] == lit
  {
    if i + |lit| <= |s| && s[i..i + |lit|] == lit {
      forall d | 0 <= d < |lit| ensures s[i + d] == lit[d] {
        assert s[i..i + |lit|][d] == s[i + d];
      }
    }
  }

  /** `s.indexOf(sub)`, or None for -1 */
  function IndexOf(s: string, sub: string): (r: Option<nat>)
    ensures r.Some? ==> At(s, r.value, sub) && forall k :: 0 <= k < r.value ==> !At(s, k, sub)
    ensures r.None? ==> forall k :: 0 <= k <= |s| ==> !At(s, k, sub)
    ensures r.Some? <==> Contains(s, sub)
  {
    IndexFrom(s, sub, 0)
  }

  /** The first occurrence is the one with none before it */
  lemma IndexOfIs(s: string, sub: string, i: nat)
    requires At(s, i, sub) && forall k :: 0 <= k < i ==> !At(s, k, sub)
    ensures IndexOf(s, sub) == Some(i)
  {
    assert 0 <= i <= |s| && At(s, i, sub);
  }

  function IndexFrom(s: string, sub: string, i: nat): (r: Option<nat>)
    requires i <= |s|
    ensures r.Some? ==> i <= r.value && At(s, r.value, sub) && forall k :: i <= k < r.value ==> !At(s, k, sub)
    ensures r.None? ==> forall k :: i <= k <= |s| ==> !At(s, k, sub)
    decreases |s| - i
  {
    if At(s, i, sub) then Some(i)
    else if i == |s| then None
    else IndexFrom(s, sub, i + 1)
  }

  function DigitChar(d: nat): (c: char)
    requires d < 10
    ensures '0' <= c <= '9'
  {
    ('0' as int + d) as char
  }

  /** `String(n)` for a non-negative integer: its decimal digits */
  function NatToString(n: nat): (r: string)
    ensures |r| > 0
    ensures forall k :: 0 <= k < |r| ==> '0' <= r[k] <= '9'
    ensures n >= 10 ==> r[0] != '0'
  {
    if n < 10 then [DigitChar(n)]
    else NatToString(n / 10) + [DigitChar(n % 10)]
  }

  /** Reads decimal digits back; the inverse of NatToString */
  function DigitsValue(s: string): nat
    requires forall k :: 0 <= k < |s| ==> '0' <= s[k] <= '9'
  {
    if |s| == 0 then 0
    else 10 * DigitsValue(s[..|s| - 1]) + (s[|s| - 1] as int - '0' as int)
  }

  lemma {:induction false} NatToStringRoundTrip(n: nat)
    ensures DigitsValue(NatToString(n)) == n
  {
    if n >= 10 {
      var r := NatToString(n);
      assert r[..|r| - 1] == NatToString(n / 10);
      NatToStringRoundTrip(n / 10);
    }
  }

  /** `s.split(sep)` for a one-character separator */
  function Split(s: string, sep: char): (parts: seq<string>)
    ensures |parts| > 0
    ensures forall k :: 0 <= k < |parts| ==> sep !in parts[k]
  {
    if sep !in s then [s]
    else
      var i := FirstIndexOfChar(s, sep);
      [s[..i]] + Split(s[i + 1..], sep)
  }

  function FirstIndexOfChar(s: string, c: char): (i: nat)
    requires c in s
    ensures i < |s| && s[i] == c && c !in s[..i]
  {
    if s[0] == c then 0
    else
      var i := 1 + FirstIndexOfChar(s[1..], c);
      assert s[..i] == [s[0]] + s[1..][..i - 1];
      i
  }

  /** `parts.join(sep)` */
  function Join(parts: seq<string>, sep: char): string
    requires |parts| > 0
  {
    if |parts| == 1 then parts[0]
    else parts[0] + [sep] + Join(parts[1..], sep)
  }

  /** Splitting and joining again gives back the original string */
  lemma {:induction false} SplitJoin(s: string, sep: char)
    ensures Join(Split(s, sep), sep) == s
    decreases |s|
  {
    if sep in s {
      var i := FirstIndexOfChar(s, sep);
      SplitJoin(s[i + 1..], sep);
      assert s == s[..i] + [sep] + s[i + 1..];
    }
  }
}

/**
 * The JavaScript built-ins the application leans on: truthiness, property reads,
 * template-literal string conversion, and the String methods trim, indexOf,
 * lastIndexOf and substring.
 */
module Js {
  import opened Wrappers
  import opened Bson

  /** `!!v`: null, false, 0 and the empty string are falsy; everything else is truthy. */
  predicate Truthy(v: Value) {
    match v
    case Null => false
    case Bool(b) => b
    case Num(n) => n != 0
    case Str(s) => s != ""
    case _ => true
  }

  /** Truthiness of a possibly undefined value. */
  predicate Defined(o: Option<Value>) {
    o.Some? && Truthy(o.value)
  }

  /** `v.k` on a value that is not null: only objects carry named properties. */
  function Prop(v: Value, k: string): (r: Option<Value>)
    requires v != Null
    ensures r.Some? ==> v.Obj? && k in v.fields && r.value == v.fields[k]
    ensures v.Obj? && k in v.fields ==> r.Some?
  {
    if v.Obj? && k in v.fields then Some(v.fields[k]) else None
  }

  function DigitChar(d: nat): char
    requires d < 10
  {
    ('0' as int + d) as char
  }

  /** Decimal rendering of a natural number. */
  function NatToDecimal(n: nat): (r: string)
    ensures |r| >= 1
    ensures forall i :: 0 <= i < |r| ==> '0' <= r[i] <= '9'
  {
    if n < 10 then [DigitChar(n)] else NatToDecimal(n / 10) + [DigitChar(n % 10)]
  }

  function IntToDecimal(n: int): string {
    if n < 0 then "-" + NatToDecimal(-n) else NatToDecimal(n)
  }

  /** `Array.prototype.join(",")` of already converted elements. */
  function JoinComma(parts: seq<string>): string {
    if |parts| == 0 then ""
    else if |parts| == 1 then parts[0]
    else parts[0] + "," + JoinComma(parts[1..])
  }

  /** `${v}` inside a template literal; a date is rendered as its time value in digits. */
  function Show(v: Value): string {
    match v
    case Null => "null"
    case Bool(b) => if b then "true" else "false"
    case Num(n) => IntToDecimal(n)
    case Str(s) => s
    case Id(o) => o.hex
    case Date(t) => NatToDecimal(t)
    case Arr(items) => JoinComma(seq(|items|, i requires 0 <= i < |items| => if items[i] == Null then "" else Show(items[i])))
    case Obj(_) => "[object Object]"
  }

  /** `${o}` for a value that may be undefined. */
  function ShowOpt(o: Option<Value>): string {
    if o.None? then "undefined" else Show(o.value)
  }

  /** ECMAScript WhiteSpace and LineTerminator: the characters `trim()` removes. */
  predicate IsWhiteSpace(c: char) {
    c == '\t' || c == '\n' || c == '\U{000B}' || c == '\U{000C}' || c == '\r' || c == ' '
    || c == '\U{00A0}' || c == '\U{1680}' || ('\U{2000}' <= c <= '\U{200A}')
    || c == '\U{2028}' || c == '\U{2029}' || c == '\U{202F}' || c == '\U{205F}'
    || c == '\U{3000}' || c == '\U{FEFF}'
  }

  /** The characters a regular expression's `.` does not match. */
  predicate IsLineTerminator(c: char) {
    c == '\n' || c == '\r' || c == '\U{2028}' || c == '\U{2029}'
  }

  /** The end of the white-space run that starts at `i`. */
  function SpaceEnd(s: string, i: nat): (n: nat)
    requires i <= |s|
    ensures i <= n <= |s|
    ensures forall j :: i <= j < n ==> IsWhiteSpace(s[j])
    ensures n < |s| ==> !IsWhiteSpace(s[n])
    decreases |s| - i
  {
    if i < |s| && IsWhiteSpace(s[i]) then SpaceEnd(s, i + 1) else i
  }

  /** The start of the white-space run that ends just before `n`. */
  function SpaceStart(s: string, n: nat): (m: nat)
    requires n <= |s|
    ensures m <= n
    ensures forall j :: m <= j < n ==> IsWhiteSpace(s[j])
    ensures m > 0 ==> !IsWhiteSpace(s[m - 1])
  {
    if n > 0 && IsWhiteSpace(s[n - 1]) then SpaceStart(s, n - 1) else n
  }

  /** The length of the white-space run at the start of `s`. */
  function LeadingSpaces(s: string): (n: nat)
    ensures n <= |s|
    ensures forall i :: 0 <= i < n ==> IsWhiteSpace(s[i])
    ensures n < |s| ==> !IsWhiteSpace(s[n])
  {
    SpaceEnd(s, 0)
  }

  /** The length of the white-space run at the end of `s`. */
  function TrailingSpaces(s: string): (n: nat)
    ensures n <= |s|
    ensures forall i :: |s| - n <= i < |s| ==> IsWhiteSpace(s[i])
    ensures n < |s| ==> !IsWhiteSpace(s[|s| - n - 1])
  {
    |s| - SpaceStart(s, |s|)
  }

  /** The leading run is the one prefix of white space followed by the end or by another character. */
  lemma {:induction false} LeadingSpacesUnique(s: string, n: nat)
    requires n <= |s| && (forall i :: 0 <= i < n ==> IsWhiteSpace(s[i])) && (n < |s| ==> !IsWhiteSpace(s[n]))
    ensures LeadingSpaces(s) == n
  {
  }

  /** The trailing run is the one suffix of white space preceded by the start or by another character. */
  lemma {:induction false} TrailingSpacesUnique(s: string, n: nat)
    requires n <= |s| && (forall i :: |s| - n <= i < |s| ==> IsWhiteSpace(s[i])) && (n < |s| ==> !IsWhiteSpace(s[|s| - n - 1]))
    ensures TrailingSpaces(s) == n
  {
  }

  /** `s.trim()`: the slice of `s` left after dropping white space at both ends. */
  function Trim(s: string): (r: string)
    ensures r == [] || (!IsWhiteSpace(r[0]) && !IsWhiteSpace(r[|r| - 1]))
  {
    var t := s[LeadingSpaces(s)..];
    t[..|t| - TrailingSpaces(t)]
  }

  /** `trim()` cuts white space only: the result is a slice of the input with nothing but white space around it. */
  lemma {:induction false} TrimIsSlice(s: string)
    ensures var a := LeadingSpaces(s); var t := s[a..]; var b := a + |t| - TrailingSpaces(t);
      && 0 <= a <= b <= |s| && Trim(s) == s[a..b]
      && (forall i :: 0 <= i < a ==> IsWhiteSpace(s[i]))
      && (forall i :: b <= i < |s| ==> IsWhiteSpace(s[i]))
  {
    var a := LeadingSpaces(s);
    var t := s[a..];
    var n := TrailingSpaces(t);
    assert t[..|t| - n] == s[a..a + |t| - n];
    forall i | a + |t| - n <= i < |s| ensures IsWhiteSpace(s[i]) {
      assert s[i] == t[i - a];
    }
  }

  /** A string with no white space at either end is its own trim. */
  lemma {:induction false} TrimOfTrimmed(s: string)
    requires s == [] || (!IsWhiteSpace(s[0]) && !IsWhiteSpace(s[|s| - 1]))
    ensures Trim(s) == s
  {
    if s != [] {
      assert LeadingSpaces(s) == 0;
      assert TrailingSpaces(s) == 0;
    }
  }

  predicate StartsWith(s: string, prefix: string) {
    |prefix| <= |s| && s[..|prefix|] == prefix
  }

  predicate EndsWith(s: string, suffix: string) {
    |suffix| <= |s| && s[|s| - |suffix|..] == suffix
  }

  /** The first position at or after `i` that holds `c`, or -1. */
  function IndexFrom(s: string, c: char, i: nat): (r: int)
    requires i <= |s|
    ensures r == -1 || i <= r < |s|
    ensures r == -1 ==> forall j :: i <= j < |s| ==> s[j] != c
    ensures r >= 0 ==> s[r] == c && forall j :: i <= j < r ==> s[j] != c
    decreases |s| - i
  {
    if i == |s| then -1 else if s[i] == c then i else IndexFrom(s, c, i + 1)
  }

  /** `s.indexOf(c)`: the first position of `c`, or -1. */
  function IndexOf(s: string, c: char): (r: int)
    ensures -1 <= r < |s|
    ensures r == -1 <==> c !in s
    ensures r >= 0 ==> s[r] == c && forall j :: 0 <= j < r ==> s[j] != c
  {
    IndexFrom(s, c, 0)
  }

  /** The last position before `n` that holds `c`, or -1. */
  function IndexBefore(s: string, c: char, n: nat): (r: int)
    requires n <= |s|
    ensures -1 <= r < n
    ensures r == -1 ==> forall j :: 0 <= j < n ==> s[j] != c
    ensures r >= 0 ==> s[r] == c && forall j :: r < j < n ==> s[j] != c
  {
    if n == 0 then -1 else if s[n - 1] == c then n - 1 else IndexBefore(s, c, n - 1)
  }

  /** `s.lastIndexOf(c)`: the last position of `c`, or -1. */
  function LastIndexOf(s: string, c: char): (r: int)
    ensures -1 <= r < |s|
    ensures r == -1 <==> c !in s
    ensures r >= 0 ==> s[r] == c && forall j :: r < j < |s| ==> s[j] != c
  {
    IndexBefore(s, c, |s|)
  }

  function Clamp(i: int, len: nat): (r: nat)
    ensures r <= len
  {
    if i < 0 then 0 else if i > len then len else i
  }

  /** `s.substring(a, b)`: both ends clamped to the string, and swapped when `a > b`. */
  function Substring(s: string, a: int, b: int): (r: string)
    ensures var x, y := Clamp(a, |s|), Clamp(b, |s|);
      r == if x <= y then s[x..y] else s[y..x]
  {
    var x, y := Clamp(a, |s|), Clamp(b, |s|);
    if x <= y then s[x..y] else s[y..x]
  }

  /** `substring` does not care which end comes first. */
  lemma {:induction false} SubstringSwap(s: string, a: int, b: int)
    ensures Substring(s, a, b) == Substring(s, b, a)
  {
  }

  /**
   * `substring` keeps the characters between the two clamped ends, so its length is
   * their distance, and a pair of ends inside the string in order gives exactly that slice.
   */
  lemma {:induction false} SubstringSpan(s: string, a: int, b: int)
    ensures var x, y := Clamp(a, |s|), Clamp(b, |s|);
      |Substring(s, a, b)| == (if x <= y then y - x else x - y)
    ensures 0 <= a <= b <= |s| ==> Substring(s, a, b) == s[a..b]
    ensures a <= 0 && |s| <= b ==> Substring(s, a, b) == s
  {
    assert s[0..|s|] == s;
  }
}

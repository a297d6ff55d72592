/** Small vocabulary shared by every other module: an optional value,
    ASCII case folding, substring search, decimal rendering of naturals
    and sums of amounts. */
module Common {

  datatype Option<+T> = None | Some(value: T) {
    function GetOr(default: T): T {
      match this
      case Some(v) => v
      case None => default
    }
  }

  /** JavaScript truthiness of an optional string: absent and "" are both falsy. */
  predicate Present(s: Option<string>) {
    s.Some? && s.value != ""
  }

  // ---------------------------------------------------------------------
  // Case folding (String.prototype.toLowerCase, restricted to ASCII letters)
  // ---------------------------------------------------------------------

  predicate IsUpper(c: char) {
    'A' <= c <= 'Z'
  }

  function LowerChar(c: char): (r: char)
    ensures !IsUpper(r)
    ensures !IsUpper(c) ==> r == c
  {
    if IsUpper(c) then (c as int + 32) as char else c
  }

  function Lower(s: string): (r: string)
    ensures |r| == |s|
    ensures forall i :: 0 <= i < |s| ==> r[i] == LowerChar(s[i])
  {
    if s == [] then [] else Lower(s[..|s| - 1]) + [LowerChar(s[|s| - 1])]
  }

  /** Lower-casing twice is lower-casing once. */
  lemma LowerIdempotent(s: string)
    ensures Lower(Lower(s)) == Lower(s)
  {
  }

  /** A string without upper-case letters is its own lower-cased form. */
  lemma LowerOfLowerCase(s: string)
    requires forall i :: 0 <= i < |s| ==> !IsUpper(s[i])
    ensures Lower(s) == s
  {
  }

  // ---------------------------------------------------------------------
  // Substring search (String.prototype.includes and indexOf)
  // ---------------------------------------------------------------------

  predicate StartsWith(hay: string, needle: string) {
    |needle| <= |hay| && hay[..|needle|] == needle
  }

  /** `needle` occurs at position `i` of `hay`. */
  predicate OccursAt(hay: string, needle: string, i: int) {
    0 <= i && i + |needle| <= |hay| && hay[i..i + |needle|] == needle
  }

  /** hay.includes(needle): the needle occurs at some position. */
  predicate Contains(hay: string, needle: string) {
    exists i :: 0 <= i <= |hay| && OccursAt(hay, needle, i)
  }

  /** A witness position proves containment. */
  lemma ContainsAt(hay: string, needle: string, i: int)
    requires OccursAt(hay, needle, i)
    ensures Contains(hay, needle)
  {
  }

  /** A character of the needle that is missing from the haystack rules the needle out. */
  lemma NotContainsByChar(hay: string, needle: string, c: char)
    requires c in needle && c !in hay
    ensures !Contains(hay, needle)
  {
  }

  /** hay.indexOf(needle), or None for -1. */
  function IndexOf(hay: string, needle: string): (r: Option<nat>)
    ensures r.Some? ==> r.value + |needle| <= |hay|
    decreases |hay|
  {
    if StartsWith(hay, needle) then Some(0)
    else if hay == [] then None
    else
      match IndexOf(hay[1..], needle)
      case None => None
      case Some(i) => Some(i + 1)
  }

  /** IndexOf finds the first position where the needle occurs, and None means there is none. */
  lemma {:induction false} IndexOfFirst(hay: string, needle: string)
    ensures var r := IndexOf(hay, needle);
      && (r.Some? ==> OccursAt(hay, needle, r.value))
      && (r.Some? ==> forall j :: 0 <= j < r.value ==> !OccursAt(hay, needle, j))
      && (r.None? ==> forall j :: !OccursAt(hay, needle, j))
    decreases |hay|
  {
    if !StartsWith(hay, needle) && hay != [] {
      IndexOfFirst(hay[1..], needle);
      match IndexOf(hay[1..], needle)
      case None =>
        forall j | OccursAt(hay, needle, j) && j > 0 ensures OccursAt(hay[1..], needle, j - 1) {
          assert hay[1..][j - 1..j - 1 + |needle|] == hay[j..j + |needle|];
        }
      case Some(i) =>
        assert hay[1..][i..i + |needle|] == hay[i + 1..i + 1 + |needle|];
        forall j | 0 < j <= i && OccursAt(hay, needle, j) ensures OccursAt(hay[1..], needle, j - 1) {
          assert hay[1..][j - 1..j - 1 + |needle|] == hay[j..j + |needle|];
        }
    }
  }

  // ---------------------------------------------------------------------
  // Decimal digits
  // ---------------------------------------------------------------------

  predicate IsDigit(c: char) {
    '0' <= c <= '9'
  }

  predicate AllDigits(s: string) {
    forall i :: 0 <= i < |s| ==> IsDigit(s[i])
  }

  function DigitChar(d: nat): (c: char)
    requires d < 10
    ensures IsDigit(c)
  {
    ('0' as int + d) as char
  }

  /** The natural number written by a string of decimal digits ("" is 0). */
  function DigitsValue(s: string): nat
    requires AllDigits(s)
  {
    if s == [] then 0 else 10 * DigitsValue(s[..|s| - 1]) + (s[|s| - 1] as int - '0' as int)
  }

  function Pow10(n: nat): (p: nat)
    ensures p >= 1
  {
    if n == 0 then 1 else 10 * Pow10(n - 1)
  }

  /** The decimal rendering of a natural number, as String(n) produces it. */
  function NatToString(n: nat): (s: string)
    ensures |s| >= 1 && AllDigits(s)
    ensures |s| > 1 ==> s[0] != '0'
  {
    if n < 10 then [DigitChar(n)] else NatToString(n / 10) + [DigitChar(n % 10)]
  }

  /** Reading back a rendered natural gives the natural. */
  lemma {:induction false} NatToStringRoundTrip(n: nat)
    ensures DigitsValue(NatToString(n)) == n
  {
    var s := NatToString(n);
    if n >= 10 {
      NatToStringRoundTrip(n / 10);
      assert s[..|s| - 1] == NatToString(n / 10);
    }
  }

  // ---------------------------------------------------------------------
  // Sums (Array.prototype.reduce with `+`, from the left)
  // ---------------------------------------------------------------------

  function Sum(xs: seq<real>): real {
    if xs == [] then 0.0 else Sum(xs[..|xs| - 1]) + xs[|xs| - 1]
  }

  /** Summing a concatenation adds the two sums. */
  lemma {:induction false} SumAppend(xs: seq<real>, ys: seq<real>)
    ensures Sum(xs + ys) == Sum(xs) + Sum(ys)
    decreases |ys|
  {
    if ys != [] {
      assert (xs + ys)[..|xs + ys| - 1] == xs + ys[..|ys| - 1];
      assert (xs + ys)[|xs + ys| - 1] == ys[|ys| - 1];
      SumAppend(xs, ys[..|ys| - 1]);
    } else {
      assert xs + ys == xs;
    }
  }
}

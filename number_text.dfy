/** Lenient amount coercion (apps/api/src/parsers/xmlParser.ts, toNumber):
    every character other than a digit, '.' or '-' is dropped and what is
    left is read the way JavaScript's Number() reads it. */
module NumberText {
  import opened Common

  /** A JavaScript number as far as the extractor cares: finite or NaN. */
  datatype JsNumber = Finite(val: real) | NaN

  /** The argument of toNumber: undefined, a string, or already a number. */
  datatype NumberArg = Absent | Text(s: string) | Num(n: JsNumber)

  /** The characters that `/[^0-9.-]/g` does not remove. */
  predicate Kept(c: char) {
    IsDigit(c) || c == '.' || c == '-'
  }

  /** value.replace(/[^0-9.-]/g, ""). */
  function Clean(s: string): (r: string)
    ensures |r| <= |s|
    ensures forall i :: 0 <= i < |r| ==> Kept(r[i])
  {
    if s == [] then []
    else Clean(s[..|s| - 1]) + (if Kept(s[|s| - 1]) then [s[|s| - 1]] else [])
  }

  /** The filter drops no kept character and adds nothing: a character is in
      the result exactly when it is in the input and kept. */
  lemma {:induction false} CleanMembers(s: string, c: char)
    ensures c in Clean(s) <==> c in s && Kept(c)
  {
    if s != [] {
      var n := |s| - 1;
      CleanMembers(s[..n], c);
      assert s == s[..n] + [s[n]];
    }
  }

  /** A single character is kept exactly when it is a digit, a point or a minus sign. */
  lemma CleanChar(c: char)
    ensures Clean([c]) == if Kept(c) then [c] else []
  {
    assert [c][..0] == [];
  }

  /** The filter works character by character, in order: cleaning a
      concatenation is concatenating the cleaned parts. */
  lemma {:induction false} CleanAppend(a: string, b: string)
    ensures Clean(a + b) == Clean(a) + Clean(b)
    decreases |b|
  {
    if b == [] {
      assert a + b == a;
    } else {
      var n := |b| - 1;
      assert (a + b)[..|a + b| - 1] == a + b[..n];
      assert (a + b)[|a + b| - 1] == b[n];
      CleanAppend(a, b[..n]);
    }
  }

  /** Cleaning keeps a string made only of kept characters as it is. */
  lemma {:induction false} CleanKeepsKept(s: string)
    requires forall i :: 0 <= i < |s| ==> Kept(s[i])
    ensures Clean(s) == s
  {
    if s != [] {
      CleanKeepsKept(s[..|s| - 1]);
    }
  }

  /** Cleaning a string without kept characters leaves nothing. */
  lemma {:induction false} CleanDropsAll(s: string)
    requires forall i :: 0 <= i < |s| ==> !Kept(s[i])
    ensures Clean(s) == ""
  {
    if s != [] {
      CleanDropsAll(s[..|s| - 1]);
    }
  }

  // ---------------------------------------------------------------------
  // Number() on a cleaned string: an optional '-', digits, an optional
  // point and more digits, with at least one digit; "" reads as 0.
  // ---------------------------------------------------------------------

  /** A decimal literal split into its parts. */
  datatype Decimal = Decimal(negative: bool, whole: string, point: bool, fraction: string)

  predicate ValidDecimal(d: Decimal) {
    && AllDigits(d.whole)
    && AllDigits(d.fraction)
    && |d.whole| + |d.fraction| > 0
    && (!d.point ==> d.fraction == "")
  }

  /** The text of a decimal literal. */
  function Render(d: Decimal): string {
    (if d.negative then "-" else "") + d.whole + (if d.point then "." else "") + d.fraction
  }

  /** The value a decimal literal denotes. */
  function DecimalValue(d: Decimal): real
    requires ValidDecimal(d)
  {
    var magnitude := DigitsValue(d.whole) as real + DigitsValue(d.fraction) as real / Pow10(|d.fraction|) as real;
    if d.negative then -magnitude else magnitude
  }

  /** The parts of an unsigned literal, split at its first point. */
  function SplitAtPoint(negative: bool, body: string): Decimal {
    match IndexOf(body, ".")
    case None => Decimal(negative, body, false, "")
    case Some(i) => Decimal(negative, body[..i], true, body[i + 1..])
  }

  /** Splits a string into a decimal literal, or fails. */
  function Scan(t: string): Option<Decimal> {
    var negative := |t| > 0 && t[0] == '-';
    var d := SplitAtPoint(negative, if negative then t[1..] else t);
    if ValidDecimal(d) then Some(d) else None
  }

  /** Whatever Scan returns is a literal whose text is the scanned string. */
  lemma ScanSound(t: string)
    ensures Scan(t).Some? ==> ValidDecimal(Scan(t).value) && Render(Scan(t).value) == t
  {
    var negative := |t| > 0 && t[0] == '-';
    var body := if negative then t[1..] else t;
    SplitAtPointRenders(negative, body);
    assert t == (if negative then "-" else "") + body;
  }

  lemma SplitAtPointRenders(negative: bool, body: string)
    ensures Render(SplitAtPoint(negative, body)) == (if negative then "-" else "") + body
  {
    IndexOfFirst(body, ".");
    match IndexOf(body, ".")
    case None =>
    case Some(i) =>
      assert body[i..i + 1] == ".";
      assert body == body[..i] + "." + body[i + 1..];
  }

  /** The first point of a string is found where it is. */
  lemma IndexOfPoint(body: string, i: nat)
    requires i < |body| && body[i] == '.'
    requires forall j :: 0 <= j < i ==> body[j] != '.'
    ensures IndexOf(body, ".") == Some(i)
  {
    assert body[i..i + 1] == ".";
    IndexOfFirst(body, ".");
    assert OccursAt(body, ".", i);
  }

  /** A string without a point has none to find. */
  lemma IndexOfNoPoint(body: string)
    requires forall j :: 0 <= j < |body| ==> body[j] != '.'
    ensures IndexOf(body, ".") == None
  {
    IndexOfFirst(body, ".");
    forall k | 0 <= k < |body| ensures !OccursAt(body, ".", k) {
      assert body[k..k + 1][0] == body[k];
    }
  }

  /** Scanning the text of a literal gives the literal back. */
  lemma ScanRender(d: Decimal)
    requires ValidDecimal(d)
    ensures Scan(Render(d)) == Some(d)
  {
    var t := Render(d);
    var body := d.whole + (if d.point then "." else "") + d.fraction;
    assert t == (if d.negative then "-" else "") + body;
    var negative := |t| > 0 && t[0] == '-';
    if d.negative {
      assert t[0] == '-' && t[1..] == body;
    } else {
      assert t == body;
      if |d.whole| > 0 { assert t[0] == d.whole[0]; }
      else if d.point { assert t[0] == '.'; }
    }
    assert negative == d.negative;
    SplitRendered(d);
  }

  /** Splitting the unsigned text of a literal at its first point gives the literal back. */
  lemma SplitRendered(d: Decimal)
    requires ValidDecimal(d)
    ensures SplitAtPoint(d.negative, d.whole + (if d.point then "." else "") + d.fraction) == d
  {
    var body := d.whole + (if d.point then "." else "") + d.fraction;
    if d.point {
      IndexOfPoint(body, |d.whole|);
      assert body[..|d.whole|] == d.whole;
      assert body[|d.whole| + 1..] == d.fraction;
    } else {
      assert body == d.whole;
      IndexOfNoPoint(body);
    }
  }

  /** Number(t) for a string over the kept characters; None stands for NaN. */
  function ParseNumber(t: string): Option<real> {
    if t == "" then Some(0.0)
    else match Scan(t)
      case Some(d) => Some(DecimalValue(d))
      case None => None
  }

  /** toNumber(value, fallback). */
  function ToNumber(value: NumberArg, fallback: JsNumber): JsNumber {
    match value
    case Num(n) => n
    case Absent => fallback
    case Text(s) =>
      if s == "" then fallback
      else match ParseNumber(Clean(s))
        case Some(x) => Finite(x)
        case None => fallback
  }

  // ---------------------------------------------------------------------
  // What toNumber promises
  // ---------------------------------------------------------------------

  /** A number argument passes through; an absent or empty string yields the fallback. */
  lemma ToNumberTrivialCases(n: JsNumber, fallback: JsNumber)
    ensures ToNumber(Num(n), fallback) == n
    ensures ToNumber(Absent, fallback) == fallback
    ensures ToNumber(Text(""), fallback) == fallback
  {
  }

  /** A string whose cleaned text renders a literal reads as that literal's value. */
  lemma ToNumberOfLiteral(s: string, d: Decimal, fallback: JsNumber)
    requires s != "" && ValidDecimal(d) && Clean(s) == Render(d)
    ensures ToNumber(Text(s), fallback) == Finite(DecimalValue(d))
  {
    ScanRender(d);
  }

  /** Currency symbols and thousands separators are ignored. */
  lemma ToNumberCurrency(fallback: JsNumber)
    ensures ToNumber(Text("$1,234.50"), fallback) == Finite(1234.5)
  {
    CleanSample();
    var d := Decimal(false, "1234", true, "50");
    assert Render(d) == "1234.50";
    assert DigitsValue("1234") == 1234 by {
      assert "1234"[..3] == "123" && "123"[..2] == "12" && "12"[..1] == "1" && "1"[..0] == "";
    }
    assert DigitsValue("50") == 50 by {
      assert "50"[..1] == "5" && "5"[..0] == "";
    }
    assert DecimalValue(d) == 1234.5;
    ToNumberOfLiteral("$1,234.50", d, fallback);
  }

  lemma CleanSample()
    ensures Clean("$1,234.50") == "1234.50"
  {
    var s := "$1,234.50";
    assert Clean(s[..0]) == "";
    assert s[..1][..0] == s[..0];
    assert Clean(s[..1]) == "";
    assert s[..2][..1] == s[..1];
    assert Clean(s[..2]) == "1";
    assert s[..3][..2] == s[..2];
    assert Clean(s[..3]) == "1";
    assert s[..4][..3] == s[..3];
    assert Clean(s[..4]) == "12";
    assert s[..5][..4] == s[..4];
    assert Clean(s[..5]) == "123";
    assert s[..6][..5] == s[..5];
    assert Clean(s[..6]) == "1234";
    assert s[..7][..6] == s[..6];
    assert Clean(s[..7]) == "1234.";
    assert s[..8][..7] == s[..7];
    assert Clean(s[..8]) == "1234.5";
    assert s[..8] == s[..|s| - 1];
    assert s[..9] == s;
  }

  /** A sign that is not leading makes the text NaN. */
  lemma ToNumberInnerMinus(fallback: JsNumber)
    ensures ToNumber(Text("1-2"), fallback) == fallback
  {
    CleanKeepsKept("1-2");
    IndexOfNoPoint("1-2");
    assert !IsDigit("1-2"[1]);
    assert Scan("1-2") == None;
  }

  /** A second decimal point makes the text NaN. */
  lemma ToNumberTwoPoints(fallback: JsNumber)
    ensures ToNumber(Text("1.2.3"), fallback) == fallback
  {
    CleanKeepsKept("1.2.3");
    IndexOfPoint("1.2.3", 1);
    assert "1.2.3"[2..] == "2.3";
    assert !IsDigit("2.3"[1]);
    assert Scan("1.2.3") == None;
  }

  /** A lone minus sign has no digit and makes the text NaN. */
  lemma ToNumberLoneMinus(fallback: JsNumber)
    ensures ToNumber(Text("-"), fallback) == fallback
  {
    CleanKeepsKept("-");
    assert "-"[1..] == "";
    assert Scan("-") == None;
  }

  /** A non-empty string with no digit, point or minus reads as 0, not as the fallback. */
  lemma ToNumberNothingKept(s: string, fallback: JsNumber)
    requires s != ""
    requires forall i :: 0 <= i < |s| ==> !Kept(s[i])
    ensures ToNumber(Text(s), fallback) == Finite(0.0)
  {
    CleanDropsAll(s);
  }

  /** The result is finite exactly when the cleaned text is empty or a
      decimal literal, and then it is that literal's value. */
  lemma ToNumberFiniteIff(s: string, fallback: JsNumber)
    requires s != "" && fallback.NaN?
    ensures ToNumber(Text(s), fallback).Finite? <==>
      (Clean(s) == "" || exists d :: ValidDecimal(d) && Render(d) == Clean(s))
    ensures forall d :: ValidDecimal(d) && Render(d) == Clean(s) ==>
      ToNumber(Text(s), fallback) == Finite(DecimalValue(d))
  {
    ScanSound(Clean(s));
    forall d | ValidDecimal(d) && Render(d) == Clean(s)
      ensures ToNumber(Text(s), fallback) == Finite(DecimalValue(d))
    {
      ScanRender(d);
      assert Render(d) != "";
    }
  }

  /** Reading the decimal rendering of a natural number gives the number. */
  lemma ToNumberOfNatText(n: nat, fallback: JsNumber)
    ensures ToNumber(Text(NatToString(n)), fallback) == Finite(n as real)
  {
    var s := NatToString(n);
    CleanKeepsKept(s);
    var d := Decimal(false, s, false, "");
    assert Render(d) == s;
    NatToStringRoundTrip(n);
    assert DecimalValue(d) == n as real;
    ToNumberOfLiteral(s, d, fallback);
  }
}

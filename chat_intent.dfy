/** The store-owner chat route (backend/api/src/routes/chat.ts): the keyword
    intent classifier, the week and day boundaries, and the answer each intent
    computes from the store's shifts. Times are epoch milliseconds read in UTC. */
module ChatIntent {
  import opened Common

  datatype Intent =
    | HighestDayWeek
    | WorstShiftYesterday
    | CompareWeekVsLastWeek
    | RefundsToday
    | FuelVsInsideWeek
    | Unknown

  // =====================================================================
  // classifyIntent
  // =====================================================================

  /** The condition of each rule, on the lower-cased question. */
  predicate RuleHolds(i: Intent, q: string) {
    match i
    case HighestDayWeek => Contains(q, "highest") && Contains(q, "week")
    case WorstShiftYesterday => Contains(q, "worst") && Contains(q, "yesterday")
    case CompareWeekVsLastWeek => Contains(q, "compare") && Contains(q, "last week")
    case RefundsToday => Contains(q, "refund")
    case FuelVsInsideWeek => Contains(q, "fuel") && (Contains(q, "inside") || Contains(q, "non-fuel"))
    case Unknown => true
  }

  /** Rule order: the position at which each rule is tried. */
  function Priority(i: Intent): nat {
    match i
    case HighestDayWeek => 0
    case WorstShiftYesterday => 1
    case CompareWeekVsLastWeek => 2
    case RefundsToday => 3
    case FuelVsInsideWeek => 4
    case Unknown => 5
  }

  function ClassifyIntent(question: string): Intent {
    ClassifyLowered(Lower(question))
  }

  /** The rules, tried in order on the lower-cased question `q`. */
  function ClassifyLowered(q: string): Intent {
    if Contains(q, "highest") && Contains(q, "week") then HighestDayWeek
    else if Contains(q, "worst") && Contains(q, "yesterday") then WorstShiftYesterday
    else if Contains(q, "compare") && Contains(q, "last week") then CompareWeekVsLastWeek
    else if Contains(q, "refund") then RefundsToday
    else if Contains(q, "fuel") && (Contains(q, "inside") || Contains(q, "non-fuel")) then FuelVsInsideWeek
    else Unknown
  }

  /** The intent returned is the first rule, in order, whose condition holds
      on the lower-cased question; UNKNOWN exactly when none does. */
  lemma ClassifyFirstRule(question: string)
    ensures var i := ClassifyIntent(question);
      && RuleHolds(i, Lower(question))
      && (forall j: Intent :: Priority(j) < Priority(i) ==> !RuleHolds(j, Lower(question)))
      && (i == Unknown <==> forall j: Intent :: j != Unknown ==> !RuleHolds(j, Lower(question)))
  {
    var q := Lower(question);
    var i := ClassifyIntent(question);
    forall j: Intent | Priority(j) < Priority(i) ensures !RuleHolds(j, q) {
      match j
      case HighestDayWeek =>
      case WorstShiftYesterday =>
      case CompareWeekVsLastWeek =>
      case RefundsToday =>
      case FuelVsInsideWeek =>
      case Unknown =>
    }
    if i == Unknown {
      forall j: Intent | j != Unknown ensures !RuleHolds(j, q) {
        assert Priority(j) < Priority(i);
      }
    } else {
      assert i != Unknown && RuleHolds(i, Lower(question));
    }
  }

  /** The converse reading: a question (already lower-case) on which rule `i`
      holds and no earlier rule does is classified as `i`. */
  lemma ClassifyByRules(q: string, i: Intent)
    requires Lower(q) == q
    requires RuleHolds(i, q)
    requires forall j: Intent :: Priority(j) < Priority(i) ==> !RuleHolds(j, q)
    ensures ClassifyIntent(q) == i
  {
    ClassifyFirstRule(q);
    var c := ClassifyIntent(q);
    assert RuleHolds(c, q);
    assert Priority(c) == Priority(i);
    match c
    case HighestDayWeek =>
    case WorstShiftYesterday =>
    case CompareWeekVsLastWeek =>
    case RefundsToday =>
    case FuelVsInsideWeek =>
    case Unknown =>
  }

  /** Classification ignores letter case. */
  lemma ClassifyIgnoresCase(question: string)
    ensures ClassifyIntent(Lower(question)) == ClassifyIntent(question)
  {
    LowerIdempotent(question);
  }

  // Each rule below reads a question through facts about its characters:
  // a needle that occurs at a position, and a letter of a needle that is
  // missing from the question.

  /** A lower-case question with "highest" and "week" asks for the best day. */
  lemma HighestRule(q: string, i: int, k: int)
    requires forall c :: 0 <= c < |q| ==> !IsUpper(q[c])
    requires OccursAt(q, "highest", i) && OccursAt(q, "week", k)
    ensures ClassifyIntent(q) == HighestDayWeek
  {
    LowerOfLowerCase(q);
    ContainsAt(q, "highest", i);
    ContainsAt(q, "week", k);
  }

  /** A lower-case question with "worst" and "yesterday" but without the letter
      'g' (of "highest") asks for yesterday's worst shift. */
  lemma WorstRule(q: string, i: int, k: int)
    requires forall c :: 0 <= c < |q| ==> !IsUpper(q[c])
    requires 'g' !in q
    requires OccursAt(q, "worst", i) && OccursAt(q, "yesterday", k)
    ensures ClassifyIntent(q) == WorstShiftYesterday
  {
    LowerOfLowerCase(q);
    NotContainsByChar(q, "highest", 'g');
    ContainsAt(q, "worst", i);
    ContainsAt(q, "yesterday", k);
  }

  /** A lower-case question with "compare" and "last week", and without the
      letters 'g' (of "highest") and 'y' (of "yesterday"), is a week comparison. */
  lemma CompareRule(q: string, i: int, k: int)
    requires forall c :: 0 <= c < |q| ==> !IsUpper(q[c])
    requires 'g' !in q && 'y' !in q
    requires OccursAt(q, "compare", i) && OccursAt(q, "last week", k)
    ensures ClassifyIntent(q) == CompareWeekVsLastWeek
  {
    LowerOfLowerCase(q);
    NotContainsByChar(q, "highest", 'g');
    NotContainsByChar(q, "yesterday", 'y');
    ContainsAt(q, "compare", i);
    ContainsAt(q, "last week", k);
  }

  /** A lower-case question with "refund", and without the letters 'g' (of
      "highest"), 'w' (of "worst") and 'c' (of "compare"), asks about refunds. */
  lemma RefundsRule(q: string, i: int)
    requires forall c :: 0 <= c < |q| ==> !IsUpper(q[c])
    requires 'g' !in q && 'w' !in q && 'c' !in q
    requires OccursAt(q, "refund", i)
    ensures ClassifyIntent(q) == RefundsToday
  {
    LowerOfLowerCase(q);
    NotContainsByChar(q, "highest", 'g');
    NotContainsByChar(q, "worst", 'w');
    NotContainsByChar(q, "compare", 'c');
    ContainsAt(q, "refund", i);
  }

  /** A lower-case question with "fuel" and "inside", and without the letters
      'g' (of "highest"), 'o' (of "worst"), 'c' (of "compare") and 'r' (of
      "refund"), asks for fuel versus inside sales. */
  lemma FuelRule(q: string, i: int, k: int)
    requires forall c :: 0 <= c < |q| ==> !IsUpper(q[c])
    requires 'g' !in q && 'o' !in q && 'c' !in q && 'r' !in q
    requires OccursAt(q, "fuel", i) && OccursAt(q, "inside", k)
    ensures ClassifyIntent(q) == FuelVsInsideWeek
  {
    LowerOfLowerCase(q);
    NotContainsByChar(q, "highest", 'g');
    NotContainsByChar(q, "worst", 'o');
    NotContainsByChar(q, "compare", 'c');
    NotContainsByChar(q, "refund", 'r');
    ContainsAt(q, "fuel", i);
    ContainsAt(q, "inside", k);
  }

  /** A lower-case question missing a letter of each of "highest", "worst",
      "compare" and "refund", and either a letter of "fuel" or both 'i' (of
      "inside") and 'n' (of "non-fuel"), is UNKNOWN. */
  lemma UnknownRule(q: string, h: char, w: char, c: char, r: char, f: char)
    requires forall k :: 0 <= k < |q| ==> !IsUpper(q[k])
    requires h in "highest" && w in "worst" && c in "compare" && r in "refund"
    requires h !in q && w !in q && c !in q && r !in q
    requires (f in "fuel" && f !in q) || ('i' !in q && 'n' !in q)
    ensures ClassifyIntent(q) == Unknown
  {
    LowerOfLowerCase(q);
    NotContainsByChar(q, "highest", h);
    NotContainsByChar(q, "worst", w);
    NotContainsByChar(q, "compare", c);
    NotContainsByChar(q, "refund", r);
    if f in "fuel" && f !in q {
      NotContainsByChar(q, "fuel", f);
    } else {
      NotContainsByChar(q, "inside", 'i');
      NotContainsByChar(q, "non-fuel", 'n');
    }
  }

  /** "fuel" alone is not enough for the fuel-versus-inside intent. */
  lemma FuelAloneIsUnknown(q: string)
    requires q == "fuel sales"
    ensures ClassifyIntent(q) == Unknown
  {
    UnknownRule(q, 'h', 'w', 'c', 'd', 'f');
  }

  /** The prompt label shown for each intent (INTENT_LABELS). */
  function Label(i: Intent): string {
    match i
    case HighestDayWeek => "highest day this week"
    case WorstShiftYesterday => "worst shift yesterday"
    case CompareWeekVsLastWeek => "compare this week vs last week"
    case RefundsToday => "any refunds today"
    case FuelVsInsideWeek => "fuel vs inside sales this week"
    case Unknown => "unknown"
  }

  lemma HighestLabel(l: string)
    requires l == "highest day this week"
    ensures ClassifyIntent(l) == HighestDayWeek
  {
    var a, b, c := "highest", " day this ", "week";
    assert l == a + b + c;
    assert l[0..7] == a;
    assert l[17..21] == c;
    HighestRule(l, 0, 17);
  }

  lemma WorstLabel(l: string)
    requires l == "worst shift yesterday"
    ensures ClassifyIntent(l) == WorstShiftYesterday
  {
    var a, b, c := "worst", " shift ", "yesterday";
    assert l == a + b + c;
    assert l[0..5] == a;
    assert l[12..21] == c;
    assert forall x :: x in l <==> x in a || x in b || x in c;
    WorstRule(l, 0, 12);
  }

  // The two longest labels are read piece by piece: the lower case, the
  // missing letters and the positions of the needles, each on its own.

  lemma CompareLabelLower(l: string)
    requires l == "compare this week vs last week"
    ensures forall c :: 0 <= c < |l| ==> !IsUpper(l[c])
  {
    assert l == "compare" + " this week vs " + "last week";
  }

  lemma CompareLabelLacks(l: string)
    requires l == "compare this week vs last week"
    ensures 'g' !in l && 'y' !in l
  {
    assert 'g' !in l;
  }

  lemma CompareLabelNeedles(l: string)
    requires l == "compare this week vs last week"
    ensures OccursAt(l, "compare", 0) && OccursAt(l, "last week", 21)
  {
    var a, b, c := "compare", " this week vs ", "last week";
    assert l == a + b + c;
    assert l[0..7] == a;
    assert l[21..30] == c;
  }

  lemma CompareLabel(l: string)
    requires l == "compare this week vs last week"
    ensures ClassifyIntent(l) == CompareWeekVsLastWeek
  {
    CompareLabelLower(l);
    CompareLabelLacks(l);
    CompareLabelNeedles(l);
    CompareRule(l, 0, 21);
  }

  lemma RefundsLabel(l: string)
    requires l == "any refunds today"
    ensures ClassifyIntent(l) == RefundsToday
  {
    assert l[4..10] == "refund";
    RefundsRule(l, 4);
  }

  lemma FuelLabelLower(l: string)
    requires l == "fuel vs inside sales this week"
    ensures forall c :: 0 <= c < |l| ==> !IsUpper(l[c])
  {
    assert l == "fuel" + " vs " + "inside" + " sales this week";
  }

  lemma FuelLabelLacks(l: string)
    requires l == "fuel vs inside sales this week"
    ensures 'g' !in l && 'o' !in l && 'c' !in l && 'r' !in l
  {
    FuelLabelLacksGo(l);
    FuelLabelLacksCr(l);
  }

  lemma FuelLabelLacksGo(l: string)
    requires l == "fuel vs inside sales this week"
    ensures 'g' !in l && 'o' !in l
  {
    assert 'g' !in l;
  }

  lemma FuelLabelLacksCr(l: string)
    requires l == "fuel vs inside sales this week"
    ensures 'c' !in l && 'r' !in l
  {
    assert 'c' !in l;
  }

  lemma FuelLabelNeedles(l: string)
    requires l == "fuel vs inside sales this week"
    ensures OccursAt(l, "fuel", 0) && OccursAt(l, "inside", 8)
  {
    var a, b, c, d := "fuel", " vs ", "inside", " sales this week";
    assert l == a + b + c + d;
    assert l[0..4] == a;
    assert l[8..14] == c;
  }

  lemma FuelLabel(l: string)
    requires l == "fuel vs inside sales this week"
    ensures ClassifyIntent(l) == FuelVsInsideWeek
  {
    FuelLabelLower(l);
    FuelLabelLacks(l);
    FuelLabelNeedles(l);
    FuelRule(l, 0, 8);
  }

  /** Every prompt label classifies to its own intent. */
  lemma LabelsClassify(i: Intent)
    ensures ClassifyIntent(Label(i)) == i
  {
    match i
    case HighestDayWeek => HighestLabel(Label(i));
    case WorstShiftYesterday => WorstLabel(Label(i));
    case CompareWeekVsLastWeek => CompareLabel(Label(i));
    case RefundsToday => RefundsLabel(Label(i));
    case FuelVsInsideWeek => FuelLabel(Label(i));
    case Unknown => UnknownRule(Label(i), 'h', 'r', 'c', 'r', 'f');
  }

  // =====================================================================
  // Days and weeks (startOfWeek, endOfDay)
  // =====================================================================

  const DayMs: int := 86400000

  /** The day number of an instant (days since 1970-01-01). */
  function DayOf(t: int): int {
    t / DayMs
  }

  /** Date.prototype.getDay: 0 is Sunday; 1970-01-01 was a Thursday. */
  function Weekday(day: int): (w: int)
    ensures 0 <= w < 7
  {
    (day + 4) % 7
  }

  /** startOfWeek on day numbers: `day - getDay() + (getDay() == 0 ? -6 : 1)`. */
  function StartOfWeekDay(day: int): int {
    var wd := Weekday(day);
    day - wd + (if wd == 0 then -6 else 1)
  }

  /** The week starts on the Monday on or before the day; a Sunday goes back six days. */
  lemma StartOfWeekIsMonday(day: int)
    ensures var s := StartOfWeekDay(day);
      && Weekday(s) == 1
      && s <= day < s + 7
      && (Weekday(day) == 0 ==> s == day - 6)
      && (Weekday(day) == 1 ==> s == day)
  {
    var wd := Weekday(day);
    var s := StartOfWeekDay(day);
    assert day + 4 == 7 * ((day + 4) / 7) + wd;
    if wd == 0 {
      assert s + 4 == 7 * ((day + 4) / 7 - 1) + 1;
    } else {
      assert s + 4 == 7 * ((day + 4) / 7) + 1;
    }
  }

  /** startOfWeek(now) in milliseconds: midnight at the start of that Monday. */
  function StartOfWeek(now: int): int {
    StartOfWeekDay(DayOf(now)) * DayMs
  }

  /** endOfDay: the last millisecond of the instant's day. */
  function EndOfDay(t: int): int {
    DayOf(t) * DayMs + DayMs - 1
  }

  /** The start of the week is a midnight no later than `now` and less than
      seven days before it; the end of the day is the last instant of the same day. */
  lemma BoundariesSpec(now: int)
    ensures StartOfWeek(now) <= now < StartOfWeek(now) + 7 * DayMs
    ensures Weekday(DayOf(StartOfWeek(now))) == 1
    ensures DayOf(EndOfDay(now)) == DayOf(now) && now <= EndOfDay(now) && DayOf(EndOfDay(now) + 1) == DayOf(now) + 1
  {
    StartOfWeekIsMonday(DayOf(now));
    var d := StartOfWeekDay(DayOf(now));
    assert DayOf(d * DayMs) == d;
    assert DayOf(now) * DayMs <= now < DayOf(now) * DayMs + DayMs;
    assert DayOf(EndOfDay(now) + 1) == DayOf((DayOf(now) + 1) * DayMs);
  }

  /** The week a week ago starts seven days earlier. */
  lemma StartOfWeekShift(now: int)
    ensures StartOfWeek(now - 7 * DayMs) == StartOfWeek(now) - 7 * DayMs
  {
    assert DayOf(now - 7 * DayMs) == DayOf(now) - 7;
    assert Weekday(DayOf(now) - 7) == Weekday(DayOf(now));
  }

  // =====================================================================
  // The windows the queries select
  // =====================================================================

  /** An inclusive range of start times; `to` None means unbounded. */
  datatype Window = Window(from: int, to: Option<int>)

  /** The shift fields the answers read. */
  datatype ShiftView = ShiftView(startAt: Option<int>, totalSales: real, fuelSales: real,
    nonFuelSales: real, refunds: real, registerId: Option<string>)

  predicate InWindow(startAt: Option<int>, w: Window) {
    startAt.Some? && w.from <= startAt.value && (w.to.None? || startAt.value <= w.to.value)
  }

  /** startAt >= startOfWeek(now). */
  function ThisWeek(now: int): Window {
    Window(StartOfWeek(now), None)
  }

  /** From seven days before the week start to one millisecond before it. */
  function LastWeek(now: int): Window {
    var start := StartOfWeek(now);
    Window(start - 7 * DayMs, Some(start - 1))
  }

  /** From midnight of the day before to endOfDay of that day. */
  function Yesterday(now: int): Window {
    var y := now - DayMs;
    Window(DayOf(y) * DayMs, Some(EndOfDay(y)))
  }

  /** startAt >= midnight today. */
  function Today(now: int): Window {
    Window(DayOf(now) * DayMs, None)
  }

  /** Last week's window is exactly the previous week: no instant is in both
      windows, and the two together cover everything from last Monday on. */
  lemma WeeksAdjacent(now: int, t: int)
    ensures !(InWindow(Some(t), LastWeek(now)) && InWindow(Some(t), ThisWeek(now)))
    ensures InWindow(Some(t), LastWeek(now)) || InWindow(Some(t), ThisWeek(now)) <==> t >= StartOfWeek(now - 7 * DayMs)
  {
    StartOfWeekShift(now);
  }

  /** Yesterday's window is the whole previous calendar day and nothing else. */
  lemma YesterdaySpec(now: int, t: int)
    ensures InWindow(Some(t), Yesterday(now)) <==> DayOf(t) == DayOf(now) - 1
  {
    assert DayOf(now - DayMs) == DayOf(now) - 1;
    assert DayOf(t) * DayMs <= t < DayOf(t) * DayMs + DayMs;
    if DayOf(t) == DayOf(now) - 1 {
      assert InWindow(Some(t), Yesterday(now));
    }
  }

  /** The shifts whose start falls in the window, in table order. */
  function Select(shifts: seq<ShiftView>, w: Window): (r: seq<ShiftView>)
    ensures |r| <= |shifts|
    ensures forall k :: 0 <= k < |r| ==> InWindow(r[k].startAt, w)
  {
    if shifts == [] then []
    else
      var last := shifts[|shifts| - 1];
      Select(shifts[..|shifts| - 1], w) + (if InWindow(last.startAt, w) then [last] else [])
  }

  /** Every shift in the window is selected. */
  lemma {:induction false} SelectComplete(shifts: seq<ShiftView>, w: Window, k: nat)
    requires k < |shifts| && InWindow(shifts[k].startAt, w)
    ensures shifts[k] in Select(shifts, w)
  {
    if k < |shifts| - 1 {
      SelectComplete(shifts[..|shifts| - 1], w, k);
    }
  }

  // =====================================================================
  // HIGHEST_DAY_WEEK: per-day totals and the best day
  // =====================================================================

  /** A proleptic Gregorian date. */
  datatype Civil = Civil(year: int, month: int, day: int)

  /** The calendar date of a day number (days since 1970-01-01), by
      splitting the day count into 400-year eras that start on 1 March. */
  function CivilOf(days: int): Civil {
    var z := days + 719468;
    var era := z / 146097;
    var doe := z % 146097;
    var yoe := (doe - doe / 1460 + doe / 36524 - doe / 146096) / 365;
    var doy := doe - (365 * yoe + yoe / 4 - yoe / 100);
    var mp := (5 * doy + 2) / 153;
    var m := if mp < 10 then mp + 3 else mp - 9;
    Civil(yoe + era * 400 + (if m <= 2 then 1 else 0), m, doy - (153 * mp + 2) / 5 + 1)
  }

  /** The day numbers of 0000-01-01 and 9999-12-31: toISOString writes a
      four-digit year exactly between them, and an expanded `+YYYYYY` or
      `-YYYYYY` year outside. */
  const FirstFourDigitDay: int := -719528
  const LastFourDigitDay: int := 2932896

  predicate FourDigitYear(day: int) {
    FirstFourDigitDay <= day <= LastFourDigitDay
  }

  /** The date key `toISOString().slice(0, 10)` of a shift, or "unknown"
      without a start. With a four-digit year the ten characters are the
      whole date `YYYY-MM-DD`, one key per UTC day; with an expanded year
      they are `±YYYYYY-MM`, one key per year and month. */
  datatype DayKey = Day(n: int) | YearMonth(year: int, month: int) | NoDate

  function KeyOf(s: ShiftView): (r: DayKey)
    ensures r.NoDate? <==> s.startAt.None?
    ensures r.Day? <==> s.startAt.Some? && FourDigitYear(DayOf(s.startAt.value))
    ensures r.Day? ==> r.n == DayOf(s.startAt.value)
    ensures r.YearMonth? ==>
      var c := CivilOf(DayOf(s.startAt.value)); r.year == c.year && r.month == c.month
  {
    if s.startAt.None? then NoDate
    else
      var day := DayOf(s.startAt.value);
      if FourDigitYear(day) then Day(day)
      else YearMonth(CivilOf(day).year, CivilOf(day).month)
  }

  lemma {:induction false} MulAtLeast(x: int, b: int)
    requires b > 0 && x >= 1
    ensures x * b >= b
    decreases x
  {
    if x > 1 {
      MulAtLeast(x - 1, b);
      assert x * b == (x - 1) * b + b;
    }
  }

  /** Euclidean division is determined by the interval the dividend lies in. */
  lemma Quotient(a: int, b: int, q: int)
    requires b > 0 && q * b <= a < q * b + b
    ensures a / b == q && a % b == a - q * b
  {
    var x := a / b - q;
    assert x * b == a / b * b - q * b;
    if x >= 1 {
      MulAtLeast(x, b);
    } else if x <= -1 {
      MulAtLeast(-x, b);
    }
  }

  /** 1970-01-01 is day 0. */
  lemma CivilEpoch()
    ensures CivilOf(0) == Civil(1970, 1, 1)
  {
    Quotient(719468, 146097, 4);
    Quotient(135080, 1460, 92);
    Quotient(135080, 36524, 3);
    Quotient(135080, 146096, 0);
    Quotient(134991, 365, 369);
    Quotient(369, 4, 92);
    Quotient(369, 100, 3);
    Quotient(1532, 153, 10);
    Quotient(1532, 5, 306);
  }

  /** The four-digit years run from day -719528 to day 2932896, and the
      days on either side fall in the years -1 and 10000. */
  lemma CivilFourDigitEdges()
    ensures CivilOf(FirstFourDigitDay - 1) == Civil(-1, 12, 31)
    ensures CivilOf(FirstFourDigitDay) == Civil(0, 1, 1)
    ensures CivilOf(LastFourDigitDay) == Civil(9999, 12, 31)
    ensures CivilOf(LastFourDigitDay + 1) == Civil(10000, 1, 1)
  {
    Quotient(-61, 146097, -1);
    Quotient(146036, 1460, 100);
    Quotient(146036, 36524, 3);
    Quotient(146036, 146096, 0);
    Quotient(145939, 365, 399);
    Quotient(399, 4, 99);
    Quotient(399, 100, 3);
    Quotient(1527, 153, 9);
    Quotient(1379, 5, 275);
    Quotient(-60, 146097, -1);
    Quotient(146037, 1460, 100);
    Quotient(146037, 36524, 3);
    Quotient(146037, 146096, 0);
    Quotient(145940, 365, 399);
    Quotient(1532, 153, 10);
    Quotient(1532, 5, 306);
    Quotient(3652364, 146097, 24);
    Quotient(3652365, 146097, 24);
  }

  /** 2000 was a leap year: 29 February is followed by 1 March. */
  lemma CivilLeapDay()
    ensures CivilOf(11016) == Civil(2000, 2, 29)
    ensures CivilOf(11017) == Civil(2000, 3, 1)
  {
    Quotient(730484, 146097, 4);
    Quotient(146096, 1460, 100);
    Quotient(146096, 36524, 4);
    Quotient(146096, 146096, 1);
    Quotient(145999, 365, 399);
    Quotient(399, 4, 99);
    Quotient(399, 100, 3);
    Quotient(1827, 153, 11);
    Quotient(1685, 5, 337);
    Quotient(730485, 146097, 5);
    Quotient(0, 1460, 0);
    Quotient(0, 36524, 0);
    Quotient(0, 146096, 0);
    Quotient(0, 365, 0);
    Quotient(0, 4, 0);
    Quotient(0, 100, 0);
    Quotient(2, 153, 0);
    Quotient(2, 5, 0);
  }

  /** Within the four-digit years two dated shifts share a key exactly when
      they start on the same UTC day, and never share one with a shift of
      an expanded year. */
  lemma FourDigitKeys(s1: ShiftView, s2: ShiftView)
    requires s1.startAt.Some? && FourDigitYear(DayOf(s1.startAt.value))
    requires s2.startAt.Some?
    ensures KeyOf(s1) == KeyOf(s2) <==>
      FourDigitYear(DayOf(s2.startAt.value)) && DayOf(s1.startAt.value) == DayOf(s2.startAt.value)
  {
  }

  datatype DayTotal = DayTotal(day: DayKey, total: real)

  function IndexOfDay(ts: seq<DayTotal>, k: DayKey): (r: Option<nat>)
    ensures r.Some? ==> r.value < |ts| && ts[r.value].day == k
    ensures r.None? ==> forall j :: 0 <= j < |ts| ==> ts[j].day != k
  {
    if ts == [] then None
    else if ts[|ts| - 1].day == k && IndexOfDay(ts[..|ts| - 1], k).None? then Some(|ts| - 1)
    else IndexOfDay(ts[..|ts| - 1], k)
  }

  /** totals.set(key, (totals.get(key) || 0) + amount): an existing key keeps
      its place, a new key goes last. */
  function AddTo(ts: seq<DayTotal>, k: DayKey, amount: real): seq<DayTotal> {
    match IndexOfDay(ts, k)
    case Some(i) => ts[i := DayTotal(k, ts[i].total + amount)]
    case None => ts + [DayTotal(k, amount)]
  }

  /** The Map of totals after the forEach over `rows`. */
  function Tally(rows: seq<ShiftView>): seq<DayTotal> {
    if rows == [] then []
    else
      var last := rows[|rows| - 1];
      AddTo(Tally(rows[..|rows| - 1]), KeyOf(last), last.totalSales)
  }

  /** The sum of the totals of the shifts of one day. */
  function DayTotalOf(rows: seq<ShiftView>, k: DayKey): real {
    if rows == [] then 0.0
    else
      var last := rows[|rows| - 1];
      DayTotalOf(rows[..|rows| - 1], k) + (if KeyOf(last) == k then last.totalSales else 0.0)
  }

  predicate DistinctDays(ts: seq<DayTotal>) {
    forall j, k :: 0 <= j < k < |ts| ==> ts[j].day != ts[k].day
  }

  /** Adding to the tally keeps one entry per day: the entry of `k` grows by
      `amount` in place, or a new entry for `k` goes last. */
  lemma AddToSpec(ts: seq<DayTotal>, k: DayKey, amount: real)
    requires DistinctDays(ts)
    ensures var r := AddTo(ts, k, amount);
      && DistinctDays(r)
      && (forall j :: 0 <= j < |ts| ==> (r[j].day == ts[j].day
            && r[j].total == ts[j].total + (if ts[j].day == k then amount else 0.0)))
      && (IndexOfDay(ts, k).Some? ==> |r| == |ts|)
      && (IndexOfDay(ts, k).None? ==> |r| == |ts| + 1 && r[|ts|] == DayTotal(k, amount))
  {
  }

  /** The tally has one entry per day that occurs. */
  lemma {:induction false} TallyDistinct(rows: seq<ShiftView>)
    ensures DistinctDays(Tally(rows))
  {
    if rows != [] {
      TallyDistinct(rows[..|rows| - 1]);
      AddToSpec(Tally(rows[..|rows| - 1]), KeyOf(rows[|rows| - 1]), rows[|rows| - 1].totalSales);
    }
  }

  /** Each entry of the tally holds the sum of its day's shift totals. */
  lemma {:induction false} TallyTotals(rows: seq<ShiftView>)
    ensures forall j :: 0 <= j < |Tally(rows)| ==> Tally(rows)[j].total == DayTotalOf(rows, Tally(rows)[j].day)
  {
    if rows != [] {
      var prefix := rows[..|rows| - 1];
      var last := rows[|rows| - 1];
      TallyTotals(prefix);
      TallyDistinct(prefix);
      AddToSpec(Tally(prefix), KeyOf(last), last.totalSales);
      var ts := Tally(rows);
      forall j | 0 <= j < |ts| ensures ts[j].total == DayTotalOf(rows, ts[j].day) {
        if j == |Tally(prefix)| {
          DayTotalAbsent(prefix, KeyOf(last));
        }
      }
    }
  }

  /** A day that occurs in no shift has total 0. */
  lemma {:induction false} DayTotalAbsent(rows: seq<ShiftView>, k: DayKey)
    requires IndexOfDay(Tally(rows), k).None?
    ensures DayTotalOf(rows, k) == 0.0
  {
    if rows != [] {
      var prefix := rows[..|rows| - 1];
      var last := rows[|rows| - 1];
      TallyDistinct(prefix);
      AddToSpec(Tally(prefix), KeyOf(last), last.totalSales);
      var before := Tally(prefix);
      assert forall i :: 0 <= i < |before| ==> before[i].day != k by {
        forall i | 0 <= i < |before| ensures before[i].day != k {
          assert Tally(rows)[i].day == before[i].day;
        }
      }
      assert IndexOfDay(before, k).None?;
      assert KeyOf(last) != k by {
        match IndexOfDay(before, KeyOf(last))
        case Some(i) => assert before[i].day == KeyOf(last);
        case None => assert Tally(rows)[|before|].day == KeyOf(last);
      }
      DayTotalAbsent(prefix, k);
    }
  }

  /** Every shift's day has an entry in the tally. */
  lemma {:induction false} TallyCovers(rows: seq<ShiftView>)
    ensures forall r :: 0 <= r < |rows| ==> IndexOfDay(Tally(rows), KeyOf(rows[r])).Some?
  {
    if rows != [] {
      var prefix := rows[..|rows| - 1];
      var last := rows[|rows| - 1];
      TallyCovers(prefix);
      TallyDistinct(prefix);
      AddToSpec(Tally(prefix), KeyOf(last), last.totalSales);
      var ts := Tally(rows);
      forall r | 0 <= r < |rows| ensures IndexOfDay(ts, KeyOf(rows[r])).Some? {
        if r < |rows| - 1 {
          assert rows[r] == prefix[r];
          var i := IndexOfDay(Tally(prefix), KeyOf(rows[r])).value;
          assert ts[i].day == KeyOf(rows[r]);
        } else if IndexOfDay(Tally(prefix), KeyOf(last)).Some? {
          var i := IndexOfDay(Tally(prefix), KeyOf(last)).value;
          assert ts[i].day == KeyOf(last);
        } else {
          assert ts[|Tally(prefix)|].day == KeyOf(last);
        }
      }
    }
  }

  /** forEach over the shifts filling the Map of totals. */
  method DailyTotals(rows: seq<ShiftView>) returns (ts: seq<DayTotal>)
    ensures ts == Tally(rows)
  {
    ts := [];
    for i := 0 to |rows|
      invariant ts == Tally(rows[..i])
    {
      assert rows[..i + 1][..i] == rows[..i];
      var k := KeyOf(rows[i]);
      var found := IndexOfDay(ts, k);
      if found.Some? {
        ts := ts[found.value := DayTotal(k, ts[found.value].total + rows[i].totalSales)];
      } else {
        ts := ts + [DayTotal(k, rows[i].totalSales)];
      }
    }
    assert rows[..|rows|] == rows;
  }

  /** The loop over totals.entries() with `total > bestTotal`, from bestTotal 0. */
  function Best(ts: seq<DayTotal>): Option<DayTotal> {
    if ts == [] then None
    else
      var b := Best(ts[..|ts| - 1]);
      var last := ts[|ts| - 1];
      if last.total > (match b case Some(e) => e.total case None => 0.0) then Some(last) else b
  }

  /** There is no best day exactly when no total is positive. */
  lemma {:induction false} BestNoneIff(ts: seq<DayTotal>)
    ensures Best(ts).None? <==> forall j :: 0 <= j < |ts| ==> ts[j].total <= 0.0
  {
    if ts != [] {
      var prefix := ts[..|ts| - 1];
      BestNoneIff(prefix);
      BestPositive(prefix);
      if Best(ts).None? {
        forall j | 0 <= j < |ts| ensures ts[j].total <= 0.0 {
          if j < |prefix| {
            assert ts[j] == prefix[j];
          }
        }
      }
    }
  }

  /** A best day has a positive total. */
  lemma {:induction false} BestPositive(ts: seq<DayTotal>)
    ensures Best(ts).Some? ==> Best(ts).value.total > 0.0
  {
    if ts != [] {
      BestPositive(ts[..|ts| - 1]);
    }
  }

  /** The best day is an entry strictly above every earlier entry and at least
      every later one: the first of equal maxima. */
  lemma {:induction false} BestIsFirstMax(ts: seq<DayTotal>)
    ensures var b := Best(ts);
      b.Some? ==> exists i :: (0 <= i < |ts| && ts[i] == b.value
        && (forall j :: 0 <= j < i ==> ts[j].total < b.value.total)
        && (forall j :: 0 <= j < |ts| ==> ts[j].total <= b.value.total))
  {
    if ts != [] {
      var prefix := ts[..|ts| - 1];
      BestIsFirstMax(prefix);
      var b := Best(prefix);
      var last := ts[|ts| - 1];
      if b.Some? {
        var i :| 0 <= i < |prefix| && prefix[i] == b.value
          && (forall j :: 0 <= j < i ==> prefix[j].total < b.value.total)
          && (forall j :: 0 <= j < |prefix| ==> prefix[j].total <= b.value.total);
        if last.total > b.value.total {
          assert ts[|ts| - 1] == last;
        } else {
          assert ts[i] == b.value;
        }
      } else {
        BestNoneIff(prefix);
        if last.total > 0.0 {
          assert ts[|ts| - 1] == last;
        }
      }
    }
  }

  /** The for-of loop selecting bestDay and bestTotal. */
  method BestDay(ts: seq<DayTotal>) returns (best: Option<DayTotal>)
    ensures best == Best(ts)
  {
    best := None;
    var bestTotal := 0.0;
    for i := 0 to |ts|
      invariant best == Best(ts[..i])
      invariant bestTotal == match best case Some(e) => e.total case None => 0.0
    {
      assert ts[..i + 1][..i] == ts[..i];
      if ts[i].total > bestTotal {
        bestTotal := ts[i].total;
        best := Some(ts[i]);
      }
    }
    assert ts[..|ts|] == ts;
  }

  /** Two shifts of the same day yield a single entry holding their sum. */
  lemma SameDayAdds(s1: ShiftView, s2: ShiftView)
    requires KeyOf(s1) == KeyOf(s2)
    ensures Tally([s1, s2]) == [DayTotal(KeyOf(s1), s1.totalSales + s2.totalSales)]
  {
    assert [s1, s2][..1] == [s1];
    assert [s1][..0] == [];
    var one := [DayTotal(KeyOf(s1), s1.totalSales)];
    assert Tally([s1]) == one;
    assert IndexOfDay(one[..0], KeyOf(s2)) == None;
    assert IndexOfDay(one, KeyOf(s2)) == Some(0);
  }

  /** Two shifts on 1 and 2 January of the year 10000, of totals 10 and 20:
      both keys are `+010000-01`, so the best day is that month with 30. */
  lemma ExpandedYearSharesKey()
    ensures var s1 := ShiftView(Some(253402300800000), 10.0, 0.0, 0.0, 0.0, None);
      var s2 := ShiftView(Some(253402387200000), 20.0, 0.0, 0.0, 0.0, None);
      KeyOf(s1) == KeyOf(s2) == YearMonth(10000, 1)
      && Best(Tally([s1, s2])) == Some(DayTotal(YearMonth(10000, 1), 30.0))
  {
    var s1 := ShiftView(Some(253402300800000), 10.0, 0.0, 0.0, 0.0, None);
    var s2 := ShiftView(Some(253402387200000), 20.0, 0.0, 0.0, 0.0, None);
    assert DayOf(253402300800000) == LastFourDigitDay + 1;
    assert DayOf(253402387200000) == LastFourDigitDay + 2;
    CivilFourDigitEdges();
    Quotient(3652366, 146097, 24);
    Quotient(146038, 1460, 100);
    Quotient(146038, 36524, 3);
    Quotient(146038, 146096, 0);
    Quotient(145941, 365, 399);
    Quotient(399, 4, 99);
    Quotient(399, 100, 3);
    Quotient(1537, 153, 10);
    Quotient(1532, 5, 306);
    SameDayAdds(s1, s2);
    var t := [DayTotal(YearMonth(10000, 1), 30.0)];
    assert t[..0] == [];
  }

  // =====================================================================
  // The other answers
  // =====================================================================

  function Totals(rows: seq<ShiftView>): seq<real> {
    seq(|rows|, k requires 0 <= k < |rows| => rows[k].totalSales)
  }

  function Refunds(rows: seq<ShiftView>): seq<real> {
    seq(|rows|, k requires 0 <= k < |rows| => rows[k].refunds)
  }

  function FuelSales(rows: seq<ShiftView>): seq<real> {
    seq(|rows|, k requires 0 <= k < |rows| => rows[k].fuelSales)
  }

  function InsideSales(rows: seq<ShiftView>): seq<real> {
    seq(|rows|, k requires 0 <= k < |rows| => rows[k].nonFuelSales)
  }

  /** The shift with the lowest total, the first of equal lows: the head of the
      rows ordered ascending by totalSales, ties kept in table order. */
  function Worst(rows: seq<ShiftView>): (r: Option<ShiftView>)
    ensures r.None? <==> rows == []
  {
    if rows == [] then None
    else
      match Worst(rows[..|rows| - 1])
      case None => Some(rows[|rows| - 1])
      case Some(w) => if rows[|rows| - 1].totalSales < w.totalSales then Some(rows[|rows| - 1]) else Some(w)
  }

  /** The worst shift has the lowest total, and every shift before it a higher one. */
  lemma {:induction false} WorstSpec(rows: seq<ShiftView>)
    ensures var w := Worst(rows);
      w.Some? ==> exists i :: (0 <= i < |rows| && rows[i] == w.value
        && (forall j :: 0 <= j < |rows| ==> w.value.totalSales <= rows[j].totalSales)
        && (forall j :: 0 <= j < i ==> w.value.totalSales < rows[j].totalSales))
  {
    if rows != [] {
      var prefix := rows[..|rows| - 1];
      WorstSpec(prefix);
      var last := rows[|rows| - 1];
      match Worst(prefix)
      case None =>
        assert rows[0] == last;
      case Some(w) =>
        var i :| 0 <= i < |prefix| && prefix[i] == w
          && (forall j :: 0 <= j < |prefix| ==> w.totalSales <= prefix[j].totalSales)
          && (forall j :: 0 <= j < i ==> w.totalSales < prefix[j].totalSales);
        if last.totalSales < w.totalSales {
          assert rows[|rows| - 1] == last;
        } else {
          assert rows[i] == w;
        }
    }
  }

  datatype Answer =
    | BestDayAnswer(day: DayKey, total: real)
    | NoShiftDataThisWeek
    | WorstShiftAnswer(total: real, register: string)
    | NoShiftDataYesterday
    | WeekComparison(thisTotal: real, lastTotal: real, up: bool, amount: real)
    | RefundsTotal(total: real)
    | NoRefundsToday
    | FuelAndInside(fuel: real, inside: real)
    | HelpText

  /** `worst.registerId || "?"`. */
  function RegisterOrMark(r: Option<string>): string {
    if Present(r) then r.value else "?"
  }

  /** The week comparison: the direction is "up" exactly when this week's total
      is at least last week's, and the amount is the size of the difference. */
  function Compare(thisWeek: seq<real>, lastWeek: seq<real>): (a: Answer)
    ensures a.WeekComparison? && a.thisTotal == Sum(thisWeek) && a.lastTotal == Sum(lastWeek)
    ensures a.up <==> Sum(thisWeek) >= Sum(lastWeek)
    ensures a.amount >= 0.0 && (a.amount == Sum(thisWeek) - Sum(lastWeek) || a.amount == Sum(lastWeek) - Sum(thisWeek))
  {
    var diff := Sum(thisWeek) - Sum(lastWeek);
    WeekComparison(Sum(thisWeek), Sum(lastWeek), diff >= 0.0, if diff < 0.0 then -diff else diff)
  }

  /** Swapping the two weeks keeps the amount and flips the direction, except
      on equal totals, which read "up" both ways. */
  lemma CompareSwap(a: seq<real>, b: seq<real>)
    ensures Compare(a, b).amount == Compare(b, a).amount
    ensures Sum(a) != Sum(b) ==> Compare(a, b).up != Compare(b, a).up
    ensures Sum(a) == Sum(b) ==> Compare(a, b).up && Compare(b, a).up
  {
  }

  /** The refunds answer: none recorded exactly when the summed refunds are at most 0. */
  function RefundsAnswer(refunds: seq<real>): (a: Answer)
    ensures a == NoRefundsToday <==> Sum(refunds) <= 0.0
    ensures a.RefundsTotal? ==> a.total == Sum(refunds) && a.total > 0.0
  {
    var total := Sum(refunds);
    if total > 0.0 then RefundsTotal(total) else NoRefundsToday
  }

  /** The answer for an intent, given the store's shifts and the clock. */
  function AnswerFor(intent: Intent, now: int, shifts: seq<ShiftView>): Answer {
    match intent
    case HighestDayWeek =>
      (match Best(Tally(Select(shifts, ThisWeek(now))))
       case Some(e) => BestDayAnswer(e.day, e.total)
       case None => NoShiftDataThisWeek)
    case WorstShiftYesterday =>
      (match Worst(Select(shifts, Yesterday(now)))
       case Some(w) => WorstShiftAnswer(w.totalSales, RegisterOrMark(w.registerId))
       case None => NoShiftDataYesterday)
    case CompareWeekVsLastWeek =>
      Compare(Totals(Select(shifts, ThisWeek(now))), Totals(Select(shifts, LastWeek(now))))
    case RefundsToday =>
      RefundsAnswer(Refunds(Select(shifts, Today(now))))
    case FuelVsInsideWeek =>
      var week := Select(shifts, ThisWeek(now));
      FuelAndInside(Sum(FuelSales(week)), Sum(InsideSales(week)))
    case Unknown => HelpText
  }

  /** The fuel-versus-inside answer built up shift by shift: with no shifts
      both sums are 0, and a further shift adds its fuel and inside sales
      exactly when it started this week. */
  lemma FuelInsideSnoc(now: int, shifts: seq<ShiftView>, x: ShiftView)
    ensures AnswerFor(FuelVsInsideWeek, now, []) == FuelAndInside(0.0, 0.0)
    ensures var a := AnswerFor(FuelVsInsideWeek, now, shifts);
      AnswerFor(FuelVsInsideWeek, now, shifts + [x]) ==
        if InWindow(x.startAt, ThisWeek(now)) then FuelAndInside(a.fuel + x.fuelSales, a.inside + x.nonFuelSales) else a
  {
    var w := ThisWeek(now);
    var all := shifts + [x];
    assert all[..|all| - 1] == shifts;
    var sel := Select(shifts, w);
    if InWindow(x.startAt, w) {
      assert Select(all, w) == sel + [x];
      assert FuelSales(sel + [x]) == FuelSales(sel) + [x.fuelSales];
      assert InsideSales(sel + [x]) == InsideSales(sel) + [x.nonFuelSales];
      SumAppend(FuelSales(sel), [x.fuelSales]);
      SumAppend(InsideSales(sel), [x.nonFuelSales]);
    } else {
      assert Select(all, w) == sel;
    }
  }

  datatype ChatResponse = InvalidPayload | Answered(intent: Intent, answer: Answer)

  /** POST /: validate the question, classify it, and compute the answer. */
  method Respond(question: string, now: int, shifts: seq<ShiftView>) returns (r: ChatResponse)
    ensures |question| < 2 <==> r == InvalidPayload
    ensures r.Answered? ==> r.intent == ClassifyIntent(question) && r.answer == AnswerFor(r.intent, now, shifts)
  {
    if |question| < 2 {
      return InvalidPayload;
    }
    var intent := ClassifyIntent(question);
    var answer := HelpText;
    if intent == HighestDayWeek {
      var totals := DailyTotals(Select(shifts, ThisWeek(now)));
      var best := BestDay(totals);
      answer := if best.Some? then BestDayAnswer(best.value.day, best.value.total) else NoShiftDataThisWeek;
    }
    if intent == WorstShiftYesterday {
      var worst := Worst(Select(shifts, Yesterday(now)));
      answer := if worst.Some? then WorstShiftAnswer(worst.value.totalSales, RegisterOrMark(worst.value.registerId)) else NoShiftDataYesterday;
    }
    if intent == CompareWeekVsLastWeek {
      answer := Compare(Totals(Select(shifts, ThisWeek(now))), Totals(Select(shifts, LastWeek(now))));
    }
    if intent == RefundsToday {
      answer := RefundsAnswer(Refunds(Select(shifts, Today(now))));
    }
    if intent == FuelVsInsideWeek {
      var week := Select(shifts, ThisWeek(now));
      answer := FuelAndInside(Sum(FuelSales(week)), Sum(InsideSales(week)));
    }
    return Answered(intent, answer);
  }

  /** The highest-day answer says there is no data exactly when no day of this
      week has a positive total; otherwise it names a day of this week whose
      total is the sum of its shifts and is the largest. */
  lemma HighestDayAnswerSpec(now: int, shifts: seq<ShiftView>)
    ensures var week := Select(shifts, ThisWeek(now));
      var a := AnswerFor(HighestDayWeek, now, shifts);
      && (a == NoShiftDataThisWeek <==> forall j :: 0 <= j < |Tally(week)| ==> Tally(week)[j].total <= 0.0)
      && (a.BestDayAnswer? ==> (a.total > 0.0 && a.total == DayTotalOf(week, a.day)
            && forall j :: 0 <= j < |Tally(week)| ==> Tally(week)[j].total <= a.total))
  {
    var week := Select(shifts, ThisWeek(now));
    TallyTotals(week);
    BestNoneIff(Tally(week));
    BestPositive(Tally(week));
    BestIsFirstMax(Tally(week));
  }
}

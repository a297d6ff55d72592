/** The alert evaluation engine (apps/api/src/services/alerts.ts): three
    threshold rules over one shift and a sales-dip rule over the store's
    recent shifts that fall on the same UTC weekday. */
module AlertEngine {
  import opened Common
  import opened Db

  // =====================================================================
  // Weekdays and the history query
  // =====================================================================

  const DayMs: int := 86400000

  /** Date.prototype.getUTCDay for an instant in milliseconds: 0 is Sunday;
      the epoch fell on a Thursday. */
  function UtcWeekday(t: int): (d: int)
    ensures 0 <= d < 7
  {
    (t / DayMs + 4) % 7
  }

  /** The weekday advances by one per day and repeats every week. */
  lemma UtcWeekdayCycle(t: int)
    ensures UtcWeekday(0) == 4
    ensures UtcWeekday(t + DayMs) == (UtcWeekday(t) + 1) % 7
    ensures UtcWeekday(t + 7 * DayMs) == UtcWeekday(t)
  {
    assert (t + DayMs) / DayMs == t / DayMs + 1;
    assert (t + 7 * DayMs) / DayMs == t / DayMs + 7;
  }

  /** `shift.startAt ?? shift.createdAt`. */
  function Anchor(s: Shift): int {
    match s.startAt
    case Some(t) => t
    case None => s.createdAt
  }

  /** The sort key of the history query; only dated shifts are ever sorted. */
  function StartKey(s: Shift): int {
    s.startAt.GetOr(0)
  }

  predicate NewestFirst(xs: seq<Shift>) {
    forall i, j :: 0 <= i < j < |xs| ==> StartKey(xs[i]) >= StartKey(xs[j])
  }

  /** Places `x` after every shift that starts no earlier, so that shifts
      starting at the same instant keep their table order. */
  function InsertNewest(x: Shift, xs: seq<Shift>): (r: seq<Shift>)
    requires NewestFirst(xs)
    ensures NewestFirst(r)
    ensures multiset(r) == multiset(xs) + multiset{x}
  {
    if xs == [] then [x]
    else if StartKey(xs[0]) >= StartKey(x) then
      var rest := InsertNewest(x, xs[1..]);
      assert xs == [xs[0]] + xs[1..];
      forall j | 0 <= j < |rest| ensures StartKey(rest[j]) <= StartKey(xs[0]) {
        assert rest[j] in multiset(rest);
      }
      NewestCons(xs[0], rest);
      [xs[0]] + rest
    else
      NewestCons(x, xs);
      [x] + xs
  }

  /** A shift starting no earlier than every shift of a newest-first list can go in front. */
  lemma NewestCons(h: Shift, rest: seq<Shift>)
    requires NewestFirst(rest)
    requires forall j :: 0 <= j < |rest| ==> StartKey(rest[j]) <= StartKey(h)
    ensures NewestFirst([h] + rest)
  {
    var r := [h] + rest;
    forall i, j | 0 <= i < j < |r| ensures StartKey(r[i]) >= StartKey(r[j]) {
      assert r[j] == rest[j - 1];
    }
  }

  /** orderBy: { startAt: "desc" }, ties kept in table order. */
  function SortNewestFirst(xs: seq<Shift>): (r: seq<Shift>)
    ensures NewestFirst(r)
    ensures multiset(r) == multiset(xs)
  {
    if xs == [] then []
    else
      assert xs == xs[..|xs| - 1] + [xs[|xs| - 1]];
      InsertNewest(xs[|xs| - 1], SortNewestFirst(xs[..|xs| - 1]))
  }

  /** where: { storeId, startAt: { not: null } }. */
  function StoreDated(shifts: seq<Shift>, storeId: string): (r: seq<Shift>)
    ensures forall s :: s in r <==> s in shifts && s.storeId == storeId && s.startAt.Some?
  {
    if shifts == [] then []
    else
      var last := shifts[|shifts| - 1];
      assert shifts == shifts[..|shifts| - 1] + [last];
      StoreDated(shifts[..|shifts| - 1], storeId) + if last.storeId == storeId && last.startAt.Some? then [last] else []
  }

  /** The first `n` elements, or all of them when there are fewer. */
  function Take<T>(xs: seq<T>, n: nat): (r: seq<T>)
    ensures |r| == if |xs| < n then |xs| else n
    ensures r <= xs
  {
    if |xs| <= n then xs else xs[..n]
  }

  /** The pastShifts query: the 40 newest dated shifts of the store. */
  function RecentShifts(shifts: seq<Shift>, storeId: string): seq<Shift> {
    Take(SortNewestFirst(StoreDated(shifts, storeId)), 40)
  }

  /** The query answers the 40 newest dated shifts of the store (all of them
      when there are fewer), newest first: a dated shift of the store is left
      out only when forty shifts were kept, each starting no earlier than it. */
  lemma RecentShiftsSpec(shifts: seq<Shift>, storeId: string)
    ensures var r := RecentShifts(shifts, storeId);
      var dated := StoreDated(shifts, storeId);
      && |r| == (if |dated| < 40 then |dated| else 40)
      && NewestFirst(r)
      && (forall s :: s in r ==> s in shifts && s.storeId == storeId && s.startAt.Some?)
      && (|r| < 40 ==> multiset(r) == multiset(dated))
      && (forall s :: s in shifts && s.storeId == storeId && s.startAt.Some? ==>
            s in r || (|r| == 40 && forall j :: 0 <= j < |r| ==> StartKey(s) <= StartKey(r[j])))
  {
    var dated := StoreDated(shifts, storeId);
    var sorted := SortNewestFirst(dated);
    var r := RecentShifts(shifts, storeId);
    assert r == Take(sorted, 40);
    SortedLength(dated, sorted);
    PrefixNewest(sorted, r);
    TakeOfSorted(dated, sorted, r);
    if |r| < 40 {
      assert r == sorted;
    }
  }

  /** A prefix of a newest-first list is newest first. */
  lemma PrefixNewest(xs: seq<Shift>, r: seq<Shift>)
    requires NewestFirst(xs) && r <= xs
    ensures NewestFirst(r)
  {
    forall i, j | 0 <= i < j < |r| ensures StartKey(r[i]) >= StartKey(r[j]) {
      assert r[i] == xs[i] && r[j] == xs[j];
    }
  }

  lemma SortedLength(dated: seq<Shift>, sorted: seq<Shift>)
    requires multiset(sorted) == multiset(dated)
    ensures |sorted| == |dated|
  {
    assert |sorted| == |multiset(sorted)|;
  }

  /** Helper of RecentShiftsSpec: what the first forty of the sorted shifts keep and leave out. */
  lemma TakeOfSorted(dated: seq<Shift>, sorted: seq<Shift>, r: seq<Shift>)
    requires multiset(sorted) == multiset(dated) && NewestFirst(sorted)
    requires r == Take(sorted, 40)
    ensures forall s :: s in r ==> s in dated
    ensures forall s :: s in dated ==>
      s in r || (|r| == 40 && forall j :: 0 <= j < |r| ==> StartKey(s) <= StartKey(r[j]))
  {
    forall s | s in r ensures s in dated {
      var i :| 0 <= i < |r| && r[i] == s;
      assert sorted[i] == s;
      assert s in multiset(sorted);
    }
    forall s | s in dated
      ensures s in r || (|r| == 40 && forall j :: 0 <= j < |r| ==> StartKey(s) <= StartKey(r[j]))
    {
      assert s in multiset(dated);
      var k :| 0 <= k < |sorted| && sorted[k] == s;
      if k < |r| {
        assert r[k] == s;
      } else {
        forall j | 0 <= j < |r| ensures StartKey(s) <= StartKey(r[j]) {
          assert r[j] == sorted[j];
        }
      }
    }
  }

  /** Appending a shift that starts no later than every shift of a newest-first list keeps it newest first. */
  lemma NewestSnoc(rest: seq<Shift>, x: Shift)
    requires NewestFirst(rest)
    requires forall j :: 0 <= j < |rest| ==> StartKey(x) <= StartKey(rest[j])
    ensures NewestFirst(rest + [x])
  {
    var r := rest + [x];
    forall i, j | 0 <= i < j < |r| ensures StartKey(r[i]) >= StartKey(r[j]) {
      assert r[i] == rest[i];
    }
  }

  /** pastShifts.filter(item => item.startAt && getUTCDay(item.startAt) === weekday). */
  function SameWeekday(xs: seq<Shift>, weekday: int): (r: seq<Shift>)
    ensures |r| <= |xs|
    ensures forall i :: 0 <= i < |r| ==> r[i].startAt.Some? && UtcWeekday(r[i].startAt.value) == weekday
  {
    if xs == [] then []
    else
      var last := xs[|xs| - 1];
      assert xs == xs[..|xs| - 1] + [last];
      SameWeekday(xs[..|xs| - 1], weekday) +
        if last.startAt.Some? && UtcWeekday(last.startAt.value) == weekday then [last] else []
  }

  /** The filter keeps exactly the dated shifts on the weekday, and keeps a
      newest-first history newest first. */
  lemma {:induction false} SameWeekdayFilter(xs: seq<Shift>, weekday: int)
    ensures forall s :: s in SameWeekday(xs, weekday) <==> s in xs && s.startAt.Some? && UtcWeekday(s.startAt.value) == weekday
    ensures NewestFirst(xs) ==> NewestFirst(SameWeekday(xs, weekday))
  {
    if xs != [] {
      var last := xs[|xs| - 1];
      var prefix := xs[..|xs| - 1];
      assert xs == prefix + [last];
      SameWeekdayFilter(prefix, weekday);
      var kept := SameWeekday(prefix, weekday);
      if NewestFirst(xs) {
        assert NewestFirst(prefix) by {
          forall i, j | 0 <= i < j < |prefix| ensures StartKey(prefix[i]) >= StartKey(prefix[j]) {
            assert prefix[i] == xs[i] && prefix[j] == xs[j];
          }
        }
      }
      if last.startAt.Some? && UtcWeekday(last.startAt.value) == weekday {
        assert SameWeekday(xs, weekday) == kept + [last];
        NewestPrefix(xs, last, kept);
      } else {
        assert SameWeekday(xs, weekday) == kept;
      }
    }
  }

  /** Helper of SameWeekdayFilter: a kept subset of a newest-first list's prefix
      stays newest first when the list's last shift is appended. */
  lemma NewestPrefix(xs: seq<Shift>, last: Shift, kept: seq<Shift>)
    requires |xs| > 0 && last == xs[|xs| - 1]
    requires forall s :: s in kept ==> s in xs[..|xs| - 1]
    requires NewestFirst(xs) ==> NewestFirst(kept)
    ensures NewestFirst(xs) ==> NewestFirst(kept + [last])
  {
    if NewestFirst(xs) {
      forall j | 0 <= j < |kept| ensures StartKey(last) <= StartKey(kept[j]) {
        assert kept[j] in kept;
        assert kept[j] in xs[..|xs| - 1];
        var i :| 0 <= i < |xs| - 1 && xs[i] == kept[j];
      }
      NewestSnoc(kept, last);
    }
  }

  /** A history whose shifts all fall on the weekday is kept whole, in order. */
  lemma {:induction false} SameWeekdayKeepsAll(xs: seq<Shift>, weekday: int)
    requires forall i :: 0 <= i < |xs| ==> xs[i].startAt.Some? && UtcWeekday(xs[i].startAt.value) == weekday
    ensures SameWeekday(xs, weekday) == xs
  {
    if xs != [] {
      var prefix := xs[..|xs| - 1];
      SameWeekdayKeepsAll(prefix, weekday);
      assert xs == prefix + [xs[|xs| - 1]];
    }
  }

  /** lastFour: the first four recent shifts on the evaluated shift's weekday;
      with fewer than four such shifts it holds every one of them. */
  function Baseline(shift: Shift, recent: seq<Shift>): (b: seq<Shift>)
    ensures |b| <= 4
    ensures forall i :: 0 <= i < |b| ==> b[i].startAt.Some? && UtcWeekday(b[i].startAt.value) == UtcWeekday(Anchor(shift))
    ensures forall s :: s in b ==> s in recent
    ensures forall s :: s in recent && s.startAt.Some? && UtcWeekday(s.startAt.value) == UtcWeekday(Anchor(shift)) ==>
              s in b || |b| == 4
    ensures NewestFirst(recent) ==> NewestFirst(b)
  {
    var sw := SameWeekday(recent, UtcWeekday(Anchor(shift)));
    SameWeekdayFilter(recent, UtcWeekday(Anchor(shift)));
    var b := Take(sw, 4);
    assert forall s :: s in b ==> s in sw by {
      forall s | s in b ensures s in sw {
        var i :| 0 <= i < |b| && b[i] == s;
        assert sw[i] == s;
      }
    }
    assert |b| < 4 ==> b == sw;
    b
  }

  /** Over a newest-first history, the baseline holds the newest shifts on the
      weekday: one left out starts no later than every baseline shift. */
  lemma BaselineNewest(shift: Shift, recent: seq<Shift>)
    requires NewestFirst(recent)
    ensures var b := Baseline(shift, recent);
      forall s :: s in recent && s.startAt.Some? && UtcWeekday(s.startAt.value) == UtcWeekday(Anchor(shift)) && s !in b ==>
        |b| == 4 && forall j :: 0 <= j < |b| ==> StartKey(s) <= StartKey(b[j])
  {
    var wd := UtcWeekday(Anchor(shift));
    var sw := SameWeekday(recent, wd);
    var b := Baseline(shift, recent);
    assert b == Take(sw, 4);
    SameWeekdayFilter(recent, wd);
    forall s | s in recent && s.startAt.Some? && UtcWeekday(s.startAt.value) == wd && s !in b
      ensures |b| == 4 && forall j :: 0 <= j < |b| ==> StartKey(s) <= StartKey(b[j])
    {
      var k :| 0 <= k < |sw| && sw[k] == s;
      assert k >= |b|;
      forall j | 0 <= j < |b| ensures StartKey(s) <= StartKey(b[j]) {
        assert b[j] == sw[j];
      }
    }
  }

  function Totals(xs: seq<Shift>): seq<real> {
    seq(|xs|, i requires 0 <= i < |xs| => xs[i].totalSales)
  }

  /** The mean total sales of a non-empty baseline. */
  function Mean(xs: seq<Shift>): (m: real)
    requires |xs| > 0
    ensures m * |xs| as real == Sum(Totals(xs))
  {
    Sum(Totals(xs)) / |xs| as real
  }

  // =====================================================================
  // The rules
  // =====================================================================

  predicate HighVoidsFires(s: Shift) {
    s.voidCount >= 5
  }

  predicate ZeroInsideFires(s: Shift) {
    s.nonFuelSales == 0.0 && s.totalSales > 0.0
  }

  predicate RefundsFires(s: Shift) {
    s.refunds > 0.0
  }

  /** At least three baseline shifts, and a total strictly below 70% of their mean. */
  predicate DipFires(total: real, baseline: seq<Shift>) {
    |baseline| >= 3 && total < Mean(baseline) * 0.7
  }

  function AlertOf(s: Shift, severity: Severity, kind: AlertKind, title: string, message: Message): AlertInput {
    AlertInput(s.storeId, Some(s.id), severity, kind, title, message)
  }

  function Rank(k: AlertKind): nat {
    match k
    case HighVoids => 0
    case ZeroInsideSales => 1
    case Refunds => 2
    case LowSalesDrop => 3
    case CashShort => 4
  }

  /** Every alert of `xs` is of kind `k`, and there is at most one. */
  predicate AtMostOneOf(xs: seq<AlertInput>, k: AlertKind) {
    |xs| <= 1 && forall a :: a in xs ==> a.kind == k
  }

  /** Some alert of the given kind and severity is among `r`. */
  predicate Raised(r: seq<AlertInput>, kind: AlertKind, severity: Severity) {
    exists a :: a in r && a.kind == kind && a.severity == severity
  }

  function VoidsAlert(s: Shift): (r: seq<AlertInput>)
    ensures AtMostOneOf(r, HighVoids)
    ensures Raised(r, HighVoids, Critical) <==> HighVoidsFires(s)
  {
    if HighVoidsFires(s) then
      var a := AlertOf(s, Critical, HighVoids, "High void count", VoidCountMessage(s.voidCount));
      assert a in [a];
      [a]
    else []
  }

  function ZeroInsideAlert(s: Shift): (r: seq<AlertInput>)
    ensures AtMostOneOf(r, ZeroInsideSales)
    ensures Raised(r, ZeroInsideSales, Warn) <==> ZeroInsideFires(s)
  {
    if ZeroInsideFires(s) then
      var a := AlertOf(s, Warn, ZeroInsideSales, "Zero inside sales", ZeroInsideMessage);
      assert a in [a];
      [a]
    else []
  }

  function RefundsAlert(s: Shift): (r: seq<AlertInput>)
    ensures AtMostOneOf(r, Refunds)
    ensures Raised(r, Refunds, Info) <==> RefundsFires(s)
  {
    if RefundsFires(s) then
      var a := AlertOf(s, Info, Refunds, "Refunds recorded", RefundsMessage(s.refunds));
      assert a in [a];
      [a]
    else []
  }

  function DipAlert(s: Shift, b: seq<Shift>): (r: seq<AlertInput>)
    ensures AtMostOneOf(r, LowSalesDrop)
    ensures Raised(r, LowSalesDrop, Warn) <==> DipFires(s.totalSales, b)
  {
    if DipFires(s.totalSales, b) then
      var a := AlertOf(s, Warn, LowSalesDrop, "Sales dip vs typical", SalesDipMessage(s.totalSales, Mean(b)));
      assert a in [a];
      [a]
    else []
  }

  /** The alerts the rules raise for `s` against the baseline `b`, in rule order. */
  function RuleAlerts(s: Shift, b: seq<Shift>): (r: seq<AlertInput>)
    ensures |r| <= 4
    ensures forall a :: a in r ==> a.storeId == s.storeId && a.shiftId == Some(s.id)
  {
    VoidsAlert(s) + ZeroInsideAlert(s) + RefundsAlert(s) + DipAlert(s, b)
  }

  /** Four groups of at most one alert each, of strictly increasing rank, concatenate in rank order. */
  lemma {:induction false} RankedGroups(v: seq<AlertInput>, z: seq<AlertInput>, f: seq<AlertInput>, d: seq<AlertInput>)
    requires AtMostOneOf(v, HighVoids) && AtMostOneOf(z, ZeroInsideSales)
    requires AtMostOneOf(f, Refunds) && AtMostOneOf(d, LowSalesDrop)
    ensures var r := v + z + f + d;
      forall i, j :: 0 <= i < j < |r| ==> Rank(r[i].kind) < Rank(r[j].kind)
  {
    var r := v + z + f + d;
    forall i, j | 0 <= i < j < |r| ensures Rank(r[i].kind) < Rank(r[j].kind) {
      if i < |v| {
        assert r[i] == v[i];
      } else if i < |v| + |z| {
        assert r[i] == z[i - |v|] && j >= |v| + |z|;
      } else if i < |v| + |z| + |f| {
        assert r[i] == f[i - |v| - |z|] && j >= |v| + |z| + |f|;
      }
    }
  }

  /** An alert of a given kind and severity is among four groups exactly when it is among one of them. */
  lemma RaisedInGroups(v: seq<AlertInput>, z: seq<AlertInput>, f: seq<AlertInput>, d: seq<AlertInput>, kind: AlertKind, severity: Severity)
    ensures Raised(v + z + f + d, kind, severity) <==>
      Raised(v, kind, severity) || Raised(z, kind, severity) || Raised(f, kind, severity) || Raised(d, kind, severity)
  {
    var r := v + z + f + d;
    if Raised(r, kind, severity) {
      var a :| a in r && a.kind == kind && a.severity == severity;
      assert a in v || a in z || a in f || a in d;
    }
  }

  /** The alerts come in rule order: HighVoids, ZeroInsideSales, Refunds, LowSalesDrop. */
  lemma RuleAlertsOrdered(s: Shift, b: seq<Shift>)
    ensures var r := RuleAlerts(s, b);
      forall i, j :: 0 <= i < j < |r| ==> Rank(r[i].kind) < Rank(r[j].kind)
  {
    RankedGroups(VoidsAlert(s), ZeroInsideAlert(s), RefundsAlert(s), DipAlert(s, b));
  }

  /** The alerts the engine creates for `s`, given the answer of the history query. */
  function ShiftAlerts(s: Shift, recent: seq<Shift>): seq<AlertInput> {
    RuleAlerts(s, Baseline(s, recent))
  }

  /** evaluateAlertsForShift(shiftId), as the inputs handed to createAlert. */
  function EvaluateSpec(t: Tables, shiftId: nat): seq<AlertInput> {
    match FindShift(t.shifts, shiftId)
    case None => []
    case Some(s) => ShiftAlerts(s, RecentShifts(t.shifts, s.storeId))
  }

  /** Each rule fires independently, exactly under its own condition, with its own severity. */
  lemma RuleAlertsIff(s: Shift, b: seq<Shift>)
    ensures var r := RuleAlerts(s, b);
      && (Raised(r, HighVoids, Critical) <==> s.voidCount >= 5)
      && (Raised(r, ZeroInsideSales, Warn) <==> s.nonFuelSales == 0.0 && s.totalSales > 0.0)
      && (Raised(r, Refunds, Info) <==> s.refunds > 0.0)
      && (Raised(r, LowSalesDrop, Warn) <==> DipFires(s.totalSales, b))
      && (forall a :: a in r ==> a.kind != CashShort)
  {
    var v, z, f, d := VoidsAlert(s), ZeroInsideAlert(s), RefundsAlert(s), DipAlert(s, b);
    RaisedInGroups(v, z, f, d, HighVoids, Critical);
    RaisedInGroups(v, z, f, d, ZeroInsideSales, Warn);
    RaisedInGroups(v, z, f, d, Refunds, Info);
    RaisedInGroups(v, z, f, d, LowSalesDrop, Warn);
  }

  /** Five voids raise the critical alert; four do not. */
  lemma HighVoidsThreshold(s: Shift, recent: seq<Shift>)
    ensures s.voidCount == 5 ==> ShiftAlerts(s, recent)[0].kind == HighVoids && ShiftAlerts(s, recent)[0].severity == Critical
    ensures s.voidCount == 4 ==> forall a :: a in ShiftAlerts(s, recent) ==> a.kind != HighVoids
  {
    RuleAlertsIff(s, Baseline(s, recent));
  }

  /** A total of exactly 70% of the mean does not raise the dip alert. */
  lemma DipIsStrict(total: real, baseline: seq<Shift>)
    requires |baseline| >= 3 && total == Mean(baseline) * 0.7
    ensures !DipFires(total, baseline)
  {
  }

  /** Fewer than three same-weekday shifts never raise the dip alert. */
  lemma DipNeedsThree(total: real, baseline: seq<Shift>)
    requires |baseline| < 3
    ensures !DipFires(total, baseline)
  {
  }

  /** Sum of the totals of four shifts, written out. */
  lemma SumOfFour(b: seq<Shift>)
    requires |b| == 4
    ensures Sum(Totals(b)) == b[0].totalSales + b[1].totalSales + b[2].totalSales + b[3].totalSales
  {
    var t := Totals(b);
    assert t[..1][..0] == [];
    assert Sum(t[..1]) == t[0];
    assert t[..2][..1] == t[..1];
    assert Sum(t[..2]) == t[0] + t[1];
    assert t[..3][..2] == t[..2];
    assert Sum(t[..3]) == t[0] + t[1] + t[2];
    assert t[..|t| - 1] == t[..3];
  }

  /** With four baseline shifts averaging 1000, a total of 650 raises the dip
      alert and a total of 750 does not. */
  lemma DipAgainstFourPrior(b: seq<Shift>)
    requires |b| == 4 && forall i :: 0 <= i < 4 ==> b[i].totalSales == 1000.0
    ensures DipFires(650.0, b) && !DipFires(750.0, b)
  {
    SumOfFour(b);
  }

  /** The evaluated shift is not excluded from its own history: when it is the
      newest dated shift of the store, it heads its own baseline, so with three
      earlier same-weekday shifts at 1000 a total of 650 does not raise the dip
      alert (the mean is 912.5). */
  lemma OwnShiftInBaseline(s: Shift, prior: seq<Shift>)
    requires s.startAt.Some? && s.totalSales == 650.0
    requires |prior| == 3
    requires forall i :: 0 <= i < 3 ==> (prior[i].startAt.Some? && prior[i].totalSales == 1000.0
      && UtcWeekday(prior[i].startAt.value) == UtcWeekday(s.startAt.value))
    ensures Baseline(s, [s] + prior) == [s] + prior
    ensures !DipFires(s.totalSales, [s] + prior)
  {
    var recent := [s] + prior;
    SameWeekdayKeepsAll(recent, UtcWeekday(Anchor(s)));
    SumOfFour(recent);
  }

  /** An unknown shift id yields no alert. */
  lemma EvaluateUnknownShift(t: Tables, shiftId: nat)
    requires forall i :: 0 <= i < |t.shifts| ==> t.shifts[i].id != shiftId
    ensures EvaluateSpec(t, shiftId) == []
  {
  }

  // =====================================================================
  // The evaluator as it runs against the database
  // =====================================================================

  /** createAlert(input). */
  method CreateAlert(db: Database, input: AlertInput, now: int) returns (a: Alert)
    modifies db
    ensures a.input == input && a.id == old(db.nextId)
    ensures db.State() == AddAlerts(old(db.State()), [input], now)
  {
    a := db.CreateAlert(input, now);
    AddAlertsSnoc(old(db.State()), [], input, now);
    assert [] + [input] == [input];
  }

  /** alerts.push(createAlert(input)): one more alert after those created so far. */
  method PushAlert(db: Database, input: AlertInput, now: int, ghost t0: Tables, ghost inputs: seq<AlertInput>, created: seq<Alert>)
    returns (ghost inputs': seq<AlertInput>, created': seq<Alert>)
    requires db.State() == AddAlerts(t0, inputs, now) && created == NewAlerts(inputs, t0.nextId, now)
    modifies db
    ensures inputs' == inputs + [input]
    ensures db.State() == AddAlerts(t0, inputs', now) && created' == NewAlerts(inputs', t0.nextId, now)
  {
    AddAlertsSnoc(t0, inputs, input, now);
    var a := db.CreateAlert(input, now);
    inputs', created' := inputs + [input], created + [a];
    assert inputs'[..|inputs'| - 1] == inputs;
  }

  /** `if (fires) alerts.push(await createAlert(input))`. */
  method PushIf(db: Database, fires: bool, input: AlertInput, now: int, ghost t0: Tables, ghost inputs: seq<AlertInput>, created: seq<Alert>)
    returns (ghost inputs': seq<AlertInput>, created': seq<Alert>)
    requires db.State() == AddAlerts(t0, inputs, now) && created == NewAlerts(inputs, t0.nextId, now)
    modifies db
    ensures inputs' == inputs + (if fires then [input] else [])
    ensures db.State() == AddAlerts(t0, inputs', now) && created' == NewAlerts(inputs', t0.nextId, now)
  {
    inputs', created' := inputs, created;
    if fires {
      inputs', created' := PushAlert(db, input, now, t0, inputs, created);
    }
  }

  /** The sales-dip step: with three or more baseline shifts, compare the total with 70% of their mean. */
  method PushDip(db: Database, shift: Shift, lastFour: seq<Shift>, now: int, ghost t0: Tables, ghost inputs: seq<AlertInput>, created: seq<Alert>)
    returns (ghost inputs': seq<AlertInput>, created': seq<Alert>)
    requires db.State() == AddAlerts(t0, inputs, now) && created == NewAlerts(inputs, t0.nextId, now)
    modifies db
    ensures inputs' == inputs + DipAlert(shift, lastFour)
    ensures db.State() == AddAlerts(t0, inputs', now) && created' == NewAlerts(inputs', t0.nextId, now)
  {
    inputs', created' := inputs, created;
    if |lastFour| >= 3 {
      var avg := Mean(lastFour);
      if shift.totalSales < avg * 0.7 {
        inputs', created' := PushAlert(db, AlertOf(shift, Warn, LowSalesDrop, "Sales dip vs typical", SalesDipMessage(shift.totalSales, avg)), now, t0, inputs, created);
      }
    }
  }

  /** evaluateAlertsForShift(shiftId): the firing rules' alerts are created in
      rule order; an unknown id creates nothing. */
  method EvaluateAlertsForShift(db: Database, shiftId: nat, now: int) returns (created: seq<Alert>)
    modifies db
    ensures db.State() == AddAlerts(old(db.State()), EvaluateSpec(old(db.State()), shiftId), now)
    ensures created == NewAlerts(EvaluateSpec(old(db.State()), shiftId), old(db.nextId), now)
  {
    ghost var t0 := db.State();
    var found := FindShift(db.shifts, shiftId);
    if found.None? {
      assert db.State() == AddAlerts(db.State(), [], now);
      return [];
    }
    var shift := found.value;
    ghost var inputs: seq<AlertInput> := [];
    created := [];
    assert db.State() == AddAlerts(t0, inputs, now);
    inputs, created := PushIf(db, shift.voidCount >= 5, AlertOf(shift, Critical, HighVoids, "High void count", VoidCountMessage(shift.voidCount)), now, t0, inputs, created);
    assert inputs == VoidsAlert(shift);
    ghost var fixedRules := inputs;
    inputs, created := PushIf(db, shift.nonFuelSales == 0.0 && shift.totalSales > 0.0, AlertOf(shift, Warn, ZeroInsideSales, "Zero inside sales", ZeroInsideMessage), now, t0, inputs, created);
    assert inputs == fixedRules + ZeroInsideAlert(shift);
    fixedRules := inputs;
    inputs, created := PushIf(db, shift.refunds > 0.0, AlertOf(shift, Info, Refunds, "Refunds recorded", RefundsMessage(shift.refunds)), now, t0, inputs, created);
    assert inputs == fixedRules + RefundsAlert(shift);
    fixedRules := inputs;
    var pastShifts := RecentShifts(db.shifts, shift.storeId);
    var lastFour := Baseline(shift, pastShifts);
    inputs, created := PushDip(db, shift, lastFour, now, t0, inputs, created);
    assert inputs == fixedRules + DipAlert(shift, lastFour);
    assert inputs == RuleAlerts(shift, lastFour);
  }
}

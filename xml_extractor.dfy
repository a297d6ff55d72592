/** The heuristic shift extractor (apps/api/src/parsers/xmlParser.ts):
    keyword lookups over the flattened multimap, the department scan over
    the text leaves, and the assembly of a parsed shift. */
module XmlExtractor {
  import opened Common
  import opened XmlTree
  import opened NumberText

  // =====================================================================
  // Keyword lookups (findNumberByKeys, findStringByKeys)
  // =====================================================================

  /** k.toLowerCase().includes(fragment.toLowerCase()). */
  predicate KeyMatches(key: string, fragment: string) {
    Contains(Lower(key), Lower(fragment))
  }

  /** Object.entries(data).find(([k]) => KeyMatches(k, fragment)): the first slot whose key matches. */
  function FirstMatch(f: Flat, fragment: string): (r: Option<nat>)
    ensures r.Some? ==> r.value < |f| && KeyMatches(f[r.value].key, fragment)
    ensures r.Some? ==> forall j :: 0 <= j < r.value ==> !KeyMatches(f[j].key, fragment)
    ensures r.None? <==> forall j :: 0 <= j < |f| ==> !KeyMatches(f[j].key, fragment)
  {
    if f == [] then None
    else if KeyMatches(f[0].key, fragment) then Some(0)
    else
      var r := FirstMatch(f[1..], fragment);
      assert forall j :: 1 <= j < |f| ==> f[j] == f[1..][j - 1];
      if r.None? then None else Some(r.value + 1)
  }

  /** values.find(Boolean): the first non-empty string. */
  function FirstNonEmpty(values: seq<string>): (r: Option<string>)
    ensures r.Some? ==> exists i :: (0 <= i < |values| && values[i] == r.value && r.value != ""
      && forall j :: 0 <= j < i ==> values[j] == "")
    ensures r.None? <==> forall j :: 0 <= j < |values| ==> values[j] == ""
  {
    if values == [] then None
    else if values[0] != "" then Some(values[0])
    else
      var r := FirstNonEmpty(values[1..]);
      assert r.Some? ==> exists i :: (1 <= i < |values| && values[i] == r.value
        && forall j :: 0 <= j < i ==> values[j] == "") by {
        if r.Some? {
          var i :| 0 <= i < |values[1..]| && values[1..][i] == r.value && r.value != ""
              && forall j :: 0 <= j < i ==> values[1..][j] == "";
          assert values[i + 1] == r.value;
          assert forall j :: 1 <= j < i + 1 ==> values[j] == values[1..][j - 1];
        }
      }
      r
  }

  /** toNumber(value) with the default fallback 0, which is always finite. */
  function Amount(s: string): real {
    match ToNumber(Text(s), Finite(0.0))
    case Finite(x) => x
    case NaN => 0.0
  }

  /** A fragment decides a numeric lookup when its first matching slot holds a non-empty value. */
  predicate Decisive(f: Flat, fragment: string) {
    var m := FirstMatch(f, fragment);
    m.Some? && FirstNonEmpty(f[m.value].values).Some?
  }

  /** The value a decisive fragment yields. */
  function DecidingValue(f: Flat, fragment: string): string
    requires Decisive(f, fragment)
  {
    FirstNonEmpty(f[FirstMatch(f, fragment).value].values).value
  }

  /** findNumberByKeys(data, keys): the fragments are tried in order; a
      fragment whose first matching slot has only empty values is skipped. */
  function NumberByKeys(f: Flat, keys: seq<string>): (r: real)
    ensures r == 0.0 || exists i, j :: (0 <= i < |f| && 0 <= j < |f[i].values| && f[i].values[j] != ""
      && r == Amount(f[i].values[j]))
  {
    if keys == [] then 0.0
    else if Decisive(f, keys[0]) then
      var i := FirstMatch(f, keys[0]).value;
      var v := FirstNonEmpty(f[i].values).value;
      assert exists j :: 0 <= j < |f[i].values| && f[i].values[j] == v && v != "";
      Amount(v)
    else NumberByKeys(f, keys[1..])
  }

  /** findStringByKeys(data, keys): the first fragment matching any key
      decides, even when every value under that key is empty. */
  function StringByKeys(f: Flat, keys: seq<string>): (r: Option<string>)
    ensures r.Some? ==> r.value != "" && exists i :: 0 <= i < |f| && r.value in f[i].values
  {
    if keys == [] then None
    else match FirstMatch(f, keys[0])
      case Some(i) => FirstNonEmpty(f[i].values)
      case None => StringByKeys(f, keys[1..])
  }

  /** The loop of findNumberByKeys. */
  method FindNumberByKeys(data: Flat, keys: seq<string>) returns (r: real)
    ensures r == NumberByKeys(data, keys)
  {
    var k := 0;
    while k < |keys|
      invariant k <= |keys|
      invariant NumberByKeys(data, keys) == NumberByKeys(data, keys[k..])
    {
      assert keys[k..][0] == keys[k] && keys[k..][1..] == keys[k + 1..];
      var hit := FirstMatch(data, keys[k]);
      if hit.Some? {
        var value := FirstNonEmpty(data[hit.value].values);
        if value.Some? {
          return Amount(value.value);
        }
      }
      k := k + 1;
    }
    return 0.0;
  }

  /** The loop of findStringByKeys. */
  method FindStringByKeys(data: Flat, keys: seq<string>) returns (r: Option<string>)
    ensures r == StringByKeys(data, keys)
  {
    var k := 0;
    while k < |keys|
      invariant k <= |keys|
      invariant StringByKeys(data, keys) == StringByKeys(data, keys[k..])
    {
      assert keys[k..][0] == keys[k] && keys[k..][1..] == keys[k + 1..];
      var hit := FirstMatch(data, keys[k]);
      if hit.Some? {
        return FirstNonEmpty(data[hit.value].values);
      }
      k := k + 1;
    }
    return None;
  }

  /** The earliest decisive fragment determines the number. */
  lemma {:induction false} NumberByKeysChosen(f: Flat, keys: seq<string>, k: nat)
    requires k < |keys| && Decisive(f, keys[k])
    requires forall j :: 0 <= j < k ==> !Decisive(f, keys[j])
    ensures NumberByKeys(f, keys) == Amount(DecidingValue(f, keys[k]))
    decreases k
  {
    if k > 0 {
      NumberByKeysChosen(f, keys[1..], k - 1);
    }
  }

  /** With no decisive fragment the number is 0. */
  lemma {:induction false} NumberByKeysDefault(f: Flat, keys: seq<string>)
    requires forall j :: 0 <= j < |keys| ==> !Decisive(f, keys[j])
    ensures NumberByKeys(f, keys) == 0.0
    decreases |keys|
  {
    if keys != [] {
      NumberByKeysDefault(f, keys[1..]);
    }
  }

  /** The earliest fragment that matches any key determines the string. */
  lemma {:induction false} StringByKeysChosen(f: Flat, keys: seq<string>, k: nat)
    requires k < |keys| && FirstMatch(f, keys[k]).Some?
    requires forall j :: 0 <= j < k ==> FirstMatch(f, keys[j]).None?
    ensures StringByKeys(f, keys) == FirstNonEmpty(f[FirstMatch(f, keys[k]).value].values)
    decreases k
  {
    if k > 0 {
      StringByKeysChosen(f, keys[1..], k - 1);
    }
  }

  /** With no matching fragment there is no string. */
  lemma {:induction false} StringByKeysDefault(f: Flat, keys: seq<string>)
    requires forall j :: 0 <= j < |keys| ==> FirstMatch(f, keys[j]).None?
    ensures StringByKeys(f, keys) == None
    decreases |keys|
  {
    if keys != [] {
      StringByKeysDefault(f, keys[1..]);
    }
  }

  /** Matching ignores the case of the fragment. */
  lemma KeyMatchesIgnoresCase(key: string, fragment: string)
    ensures KeyMatches(key, Lower(fragment)) == KeyMatches(key, fragment)
  {
    LowerIdempotent(fragment);
  }

  // =====================================================================
  // Rounding and dates
  // =====================================================================

  /** Math.round: the nearest integer, halves rounded up. */
  function Round(x: real): (n: int)
    ensures n as real - 0.5 <= x < n as real + 0.5
  {
    (x + 0.5).Floor
  }

  /** Math.round sends halves toward positive infinity. */
  lemma RoundHalves()
    ensures Round(2.5) == 3 && Round(-2.5) == -2 && Round(0.49) == 0
  {
  }

  /** parseDate(value): an absent or empty string gives no date; otherwise
      the calendar parser decides. */
  function ParseDate(value: Option<string>, dateOf: string -> Option<int>): (r: Option<int>)
    ensures !Present(value) ==> r.None?
    ensures Present(value) ==> r == dateOf(value.value)
  {
    if !Present(value) then None else dateOf(value.value)
  }

  // =====================================================================
  // Department scan
  // =====================================================================

  datatype Department = Department(name: string, amount: real)

  /** /dept|department|category|sales/i.test(name). */
  predicate IsDepartmentName(name: string) {
    var n := Lower(name);
    Contains(n, "dept") || Contains(n, "department") || Contains(n, "category") || Contains(n, "sales")
  }

  /** Each leaf read as toNumber(leaf, NaN). */
  function Readings(strs: seq<string>): (rs: seq<JsNumber>)
    ensures |rs| == |strs|
  {
    seq(|strs|, i requires 0 <= i < |strs| => ToNumber(Text(strs[i]), NaN))
  }

  /** The department record that the leaves at `i` and `i + 1` yield, if any. */
  function DepartmentAt(strs: seq<string>, rs: seq<JsNumber>, i: nat): Option<Department>
    requires |rs| == |strs| && i + 1 < |strs|
  {
    match rs[i + 1]
    case Finite(a) => if IsDepartmentName(strs[i]) then Some(Department(strs[i], a)) else None
    case NaN => None
  }

  /** The records found at the positions below `n`. */
  function DepartmentsBefore(strs: seq<string>, rs: seq<JsNumber>, n: nat): (ds: seq<Department>)
    requires |rs| == |strs| && (n == 0 || n < |strs|)
    ensures |ds| <= n
  {
    if n == 0 then []
    else DepartmentsBefore(strs, rs, n - 1) + match DepartmentAt(strs, rs, n - 1) case Some(d) => [d] case None => []
  }

  /** The records the scan finds over all neighbouring pairs of leaves, given
      the reading of each leaf. */
  function DepartmentsIn(strs: seq<string>, rs: seq<JsNumber>): seq<Department>
    requires |rs| == |strs|
  {
    if |strs| < 2 then [] else DepartmentsBefore(strs, rs, |strs| - 1)
  }

  function Departments(strs: seq<string>): seq<Department> {
    DepartmentsIn(strs, Readings(strs))
  }

  /** The department loop of parseXmlGateway. */
  method InferDepartments(strs: seq<string>) returns (ds: seq<Department>)
    ensures ds == Departments(strs)
  {
    ghost var rs := Readings(strs);
    ds := [];
    var i := 0;
    while i < |strs| - 1
      invariant i == 0 || i < |strs|
      invariant ds == DepartmentsBefore(strs, rs, i)
    {
      var amount := ToNumber(Text(strs[i + 1]), NaN);
      var named := IsDepartmentName(strs[i]);
      ScanStep(strs, rs, i, amount, named);
      if amount.Finite? && named {
        ds := ds + [Department(strs[i], amount.val)];
      }
      i := i + 1;
    }
    ScanDone(strs, rs, i, ds);
  }

  /** When the department loop stops, it has scanned every neighbouring pair. */
  lemma ScanDone(strs: seq<string>, rs: seq<JsNumber>, i: nat, ds: seq<Department>)
    requires rs == Readings(strs) && (i == 0 || i < |strs|) && i >= |strs| - 1
    requires ds == DepartmentsBefore(strs, rs, i)
    ensures ds == Departments(strs)
  {
    if |strs| >= 2 {
      assert i == |strs| - 1;
    }
  }

  /** One pass of the department loop, in terms of the values it computes. */
  lemma ScanStep(strs: seq<string>, rs: seq<JsNumber>, i: nat, amount: JsNumber, named: bool)
    requires rs == Readings(strs) && i + 1 < |strs|
    requires amount == ToNumber(Text(strs[i + 1]), NaN) && named == IsDepartmentName(strs[i])
    ensures DepartmentsBefore(strs, rs, i + 1) == DepartmentsBefore(strs, rs, i)
      + (if amount.Finite? && named then [Department(strs[i], amount.val)] else [])
  {
    assert amount == rs[i + 1];
    DepartmentsBeforeStep(strs, rs, i);
  }

  /** One step of the scan: the pair at `i` adds its record, if any. */
  lemma DepartmentsBeforeStep(strs: seq<string>, rs: seq<JsNumber>, i: nat)
    requires |rs| == |strs| && i + 1 < |strs|
    ensures DepartmentsBefore(strs, rs, i + 1) == DepartmentsBefore(strs, rs, i)
      + (if rs[i + 1].Finite? && IsDepartmentName(strs[i]) then [Department(strs[i], rs[i + 1].val)] else [])
  {
  }

  /** Every record comes from a department-like leaf followed by a finite reading. */
  lemma {:induction false} DepartmentsBeforeSound(strs: seq<string>, rs: seq<JsNumber>, n: nat, d: Department)
    requires |rs| == |strs| && (n == 0 || n < |strs|)
    requires d in DepartmentsBefore(strs, rs, n)
    ensures exists i :: (0 <= i < n && i + 1 < |strs| && strs[i] == d.name && IsDepartmentName(d.name)
      && rs[i + 1] == Finite(d.amount))
    decreases n
  {
    if d in DepartmentsBefore(strs, rs, n - 1) {
      DepartmentsBeforeSound(strs, rs, n - 1, d);
    } else {
      assert DepartmentAt(strs, rs, n - 1) == Some(d);
    }
  }

  /** Every department-like leaf followed by a finite reading yields a record. */
  lemma {:induction false} DepartmentsBeforeComplete(strs: seq<string>, rs: seq<JsNumber>, n: nat, i: nat)
    requires |rs| == |strs| && (n == 0 || n < |strs|)
    requires i < n && IsDepartmentName(strs[i]) && rs[i + 1].Finite?
    ensures Department(strs[i], rs[i + 1].val) in DepartmentsBefore(strs, rs, n)
    decreases n
  {
    if i < n - 1 {
      DepartmentsBeforeComplete(strs, rs, n - 1, i);
    }
  }

  /** Every record of the scan comes from a department-like leaf followed by
      a leaf that reads as a finite number. */
  lemma DepartmentsSound(strs: seq<string>, rs: seq<JsNumber>, d: Department)
    requires |rs| == |strs| && d in DepartmentsIn(strs, rs)
    ensures IsDepartmentName(d.name)
    ensures exists i :: (0 <= i && i + 1 < |strs| && strs[i] == d.name && rs[i + 1] == Finite(d.amount))
  {
    DepartmentsBeforeSound(strs, rs, |strs| - 1, d);
  }

  /** Every department-like leaf followed by a leaf that reads as a finite
      number yields a record. */
  lemma DepartmentsComplete(strs: seq<string>, rs: seq<JsNumber>, i: nat)
    requires |rs| == |strs| && i + 1 < |strs| && IsDepartmentName(strs[i]) && rs[i + 1].Finite?
    ensures Department(strs[i], rs[i + 1].val) in DepartmentsIn(strs, rs)
  {
    DepartmentsBeforeComplete(strs, rs, |strs| - 1, i);
  }

  /** A record is found exactly for each department-like leaf followed by a
      leaf that reads as a finite number. */
  lemma DepartmentsIff(strs: seq<string>, rs: seq<JsNumber>, d: Department)
    requires |rs| == |strs|
    ensures d in DepartmentsIn(strs, rs) <==>
      exists i :: (0 <= i && i + 1 < |strs| && strs[i] == d.name && IsDepartmentName(d.name)
        && rs[i + 1] == Finite(d.amount))
  {
    if d in DepartmentsIn(strs, rs) {
      DepartmentsSound(strs, rs, d);
    }
    if exists i :: (0 <= i && i + 1 < |strs| && strs[i] == d.name && IsDepartmentName(d.name)
        && rs[i + 1] == Finite(d.amount)) {
      var i :| 0 <= i && i + 1 < |strs| && strs[i] == d.name && IsDepartmentName(d.name)
        && rs[i + 1] == Finite(d.amount);
      DepartmentsComplete(strs, rs, i);
    }
  }

  /** A department label followed by a word records the amount 0: the word
      cleans to the empty string, which Number() reads as 0. */
  lemma DepartmentLabelThenWord()
    ensures Departments(["Dept", "Grocery"]) == [Department("Dept", 0.0)]
  {
    var strs := ["Dept", "Grocery"];
    var rs := Readings(strs);
    ToNumberNothingKept("Grocery", NaN);
    assert rs[1] == Finite(0.0);
    assert Lower("Dept") == "dept";
    ContainsAt("dept", "dept", 0);
    assert IsDepartmentName(strs[0]);
    DepartmentsBeforeStep(strs, rs, 0);
    assert Departments(strs) == DepartmentsBefore(strs, rs, 1);
  }

  /** Of a department label with an amount, an unrelated word and a stray
      word, only the label and its amount are recorded. */
  lemma SnacksExample()
    ensures Departments(["Department Snacks", "42.50", "Unrelated", "xyz"]) == [Department("Department Snacks", 42.5)]
  {
    var strs := ["Department Snacks", "42.50", "Unrelated", "xyz"];
    var rs := Readings(strs);
    AmountOf4250();
    assert rs[1] == Finite(42.5);
    SnacksIsDepartment(strs[0]);
    NumberIsNoDepartment(strs[1]);
    UnrelatedIsNoDepartment(strs[2]);
    DepartmentsBeforeStep(strs, rs, 0);
    DepartmentsBeforeStep(strs, rs, 1);
    DepartmentsBeforeStep(strs, rs, 2);
    assert Departments(strs) == DepartmentsBefore(strs, rs, 3);
  }

  lemma AmountOf4250()
    ensures ToNumber(Text("42.50"), NaN) == Finite(42.5)
  {
    CleanKeepsKept("42.50");
    var d := Decimal(false, "42", true, "50");
    assert Render(d) == "42.50";
    assert DigitsValue("42") == 42 by {
      assert "42"[..1] == "4" && "4"[..0] == "";
    }
    assert DigitsValue("50") == 50 by {
      assert "50"[..1] == "5" && "5"[..0] == "";
    }
    assert Pow10(|d.fraction|) == 100;
    assert DecimalValue(d) == 42.5;
    ToNumberOfLiteral("42.50", d, NaN);
  }

  lemma SnacksIsDepartment(n: string)
    requires n == "Department Snacks"
    ensures IsDepartmentName(n)
  {
    assert Lower(n)[0..10] == "department";
    ContainsAt(Lower(n), "department", 0);
  }

  /** A name without the letters p, c and s matches none of the department words. */
  lemma NoDepartmentLetters(name: string)
    requires 'p' !in Lower(name) && 'c' !in Lower(name) && 's' !in Lower(name)
    ensures !IsDepartmentName(name)
  {
    NotContainsByChar(Lower(name), "dept", 'p');
    NotContainsByChar(Lower(name), "department", 'p');
    NotContainsByChar(Lower(name), "category", 'c');
    NotContainsByChar(Lower(name), "sales", 's');
  }

  lemma NumberIsNoDepartment(n: string)
    requires n == "42.50"
    ensures !IsDepartmentName(n)
  {
    assert Lower(n) == n;
    NoDepartmentLetters(n);
  }

  lemma UnrelatedIsNoDepartment(n: string)
    requires n == "Unrelated"
    ensures !IsDepartmentName(n)
  {
    assert Lower(n) == "unrelated";
    NoDepartmentLetters(n);
  }

  // =====================================================================
  // parseXmlGateway
  // =====================================================================

  const ReportTypeKeys: seq<string> := ["ReportType", "ReportName", "ShiftReport", "StoreSummary"]
  const RegisterKeys: seq<string> := ["Register", "RegisterId", "Till", "POS"]
  const OperatorKeys: seq<string> := ["Operator", "Cashier", "Employee"]
  const StartKeys: seq<string> := ["Start", "From", "Begin", "Open"]
  const EndKeys: seq<string> := ["End", "To", "Close"]
  const TotalKeys: seq<string> := ["TotalSales", "Total", "Gross"]
  const FuelKeys: seq<string> := ["FuelSales", "Fuel", "Gas"]
  const NonFuelKeys: seq<string> := ["InsideSales", "NonFuel", "Merchandise"]
  const RefundKeys: seq<string> := ["Refund", "Return"]
  const VoidKeys: seq<string> := ["Void", "Voids"]
  const DiscountKeys: seq<string> := ["Discount", "Markdown"]
  const TaxKeys: seq<string> := ["Tax"]
  const CustomerKeys: seq<string> := ["CustomerCount", "Customers", "Transactions"]
  const CashShortKeys: seq<string> := ["CashShort", "Short"]

  /** The ParsedShift record; instants are milliseconds since the epoch. */
  datatype ParsedShift = ParsedShift(
    registerId: Option<string>,
    operatorId: Option<string>,
    startAt: Option<int>,
    endAt: Option<int>,
    totalSales: real,
    fuelSales: real,
    nonFuelSales: real,
    refunds: real,
    voidCount: int,
    discountTotal: real,
    taxTotal: real,
    customerCount: Option<int>,
    departmentSales: seq<Department>,
    reportType: Option<string>,
    cashShort: real)

  /** The shift parseXmlGateway extracts from a parsed document, or None for null. */
  function ExtractShift(root: Value, dateOf: string -> Option<int>): (r: Option<ParsedShift>)
    ensures r.Some? ==> r.value.customerCount != Some(0)
    ensures r.Some? ==> forall d :: d in r.value.departmentSales ==> IsDepartmentName(d.name)
  {
    var flat := FlatOf(root);
    var total := NumberByKeys(flat, TotalKeys);
    var fuel := NumberByKeys(flat, FuelKeys);
    var nonFuel := NumberByKeys(flat, NonFuelKeys);
    var customers := Round(NumberByKeys(flat, CustomerKeys));
    var departments := Departments(AllStrings(root));
    if total == 0.0 && fuel == 0.0 && nonFuel == 0.0 then None
    else
      assert forall d :: d in departments ==> IsDepartmentName(d.name) by {
        forall d | d in departments ensures IsDepartmentName(d.name) {
          DepartmentsSound(AllStrings(root), Readings(AllStrings(root)), d);
        }
      }
      Some(ParsedShift(
        StringByKeys(flat, RegisterKeys),
        StringByKeys(flat, OperatorKeys),
        ParseDate(StringByKeys(flat, StartKeys), dateOf),
        ParseDate(StringByKeys(flat, EndKeys), dateOf),
        total, fuel, nonFuel,
        NumberByKeys(flat, RefundKeys),
        Round(NumberByKeys(flat, VoidKeys)),
        NumberByKeys(flat, DiscountKeys),
        NumberByKeys(flat, TaxKeys),
        if customers == 0 then None else Some(customers),
        departments,
        StringByKeys(flat, ReportTypeKeys),
        NumberByKeys(flat, CashShortKeys)))
  }

  /** What parseXmlGateway(rawXml) does: it throws, or it returns a shift or null. */
  datatype Extraction = Threw | Extracted(shift: Option<ParsedShift>)

  /** parseXmlGateway given what parser.parse made of the markup (None when
      parser.parse throws): findAllKeyValues throws on a document with a
      string-valued property under an inherited name, and otherwise the
      shift is extracted. */
  function Gateway(doc: Option<Value>, dateOf: string -> Option<int>): (r: Extraction)
    ensures r.Threw? <==> doc.None? || HasInheritedKey(Pairs(doc.value))
    ensures r.Extracted? ==> r.shift == ExtractShift(doc.value, dateOf)
  {
    match doc
    case None => Threw
    case Some(root) =>
      var ps := Pairs(root);
      RecordIff([], ps);
      if Record([], ps).None? then Threw else Extracted(ExtractShift(root, dateOf))
  }

  /** parseXmlGateway(rawXml), given what parser.parse made of the markup. */
  method ParseXmlGateway(doc: Option<Value>, dateOf: string -> Option<int>) returns (r: Extraction)
    ensures r == Gateway(doc, dateOf)
  {
    if doc.None? {
      return Threw;
    }
    var root := doc.value;
    var recorded := FindAllKeyValues(root, []);
    if recorded.None? {
      return Threw;
    }
    RecordIff([], Pairs(root));
    var flat := recorded.value;
    assert flat == FlatOf(root);
    var reportType := FindStringByKeys(flat, ReportTypeKeys);
    var registerId := FindStringByKeys(flat, RegisterKeys);
    var operatorId := FindStringByKeys(flat, OperatorKeys);
    var start := FindStringByKeys(flat, StartKeys);
    var end := FindStringByKeys(flat, EndKeys);
    var startAt := ParseDate(start, dateOf);
    var endAt := ParseDate(end, dateOf);

    var totalSales := FindNumberByKeys(flat, TotalKeys);
    var fuelSales := FindNumberByKeys(flat, FuelKeys);
    var nonFuelSales := FindNumberByKeys(flat, NonFuelKeys);
    var refunds := FindNumberByKeys(flat, RefundKeys);
    var voids := FindNumberByKeys(flat, VoidKeys);
    var discountTotal := FindNumberByKeys(flat, DiscountKeys);
    var taxTotal := FindNumberByKeys(flat, TaxKeys);
    var customers := FindNumberByKeys(flat, CustomerKeys);
    var cashShort := FindNumberByKeys(flat, CashShortKeys);
    var customerCount := if Round(customers) == 0 then None else Some(Round(customers));

    var allStrings := FindAllStrings(root, []);
    assert allStrings == AllStrings(root);
    var departmentSales := InferDepartments(allStrings);

    if totalSales == 0.0 && fuelSales == 0.0 && nonFuelSales == 0.0 {
      return Extracted(None);
    }
    return Extracted(Some(ParsedShift(registerId, operatorId, startAt, endAt, totalSales, fuelSales,
      nonFuelSales, refunds, Round(voids), discountTotal, taxTotal, customerCount,
      departmentSales, reportType, cashShort)));
  }

  /** The document is discarded exactly when total, fuel and inside sales all read as 0. */
  lemma ExtractShiftNullIff(root: Value, dateOf: string -> Option<int>)
    ensures ExtractShift(root, dateOf).None? <==>
      var flat := FlatOf(root);
      NumberByKeys(flat, TotalKeys) == 0.0 && NumberByKeys(flat, FuelKeys) == 0.0
        && NumberByKeys(flat, NonFuelKeys) == 0.0
  {
  }

  /** A document with no key-value pairs at all, such as a bare text, is discarded. */
  lemma ExtractShiftOfBareText(s: string, dateOf: string -> Option<int>)
    ensures ExtractShift(Str(s), dateOf) == None
  {
    assert FlatOf(Str(s)) == [];
    NumberByKeysDefault([], TotalKeys);
    NumberByKeysDefault([], FuelKeys);
    NumberByKeysDefault([], NonFuelKeys);
  }

  /** Every field of an extracted record is the reading of its own key list:
      the first fragment whose matching key has a usable value decides. */
  lemma ExtractShiftFields(root: Value, dateOf: string -> Option<int>)
    requires ExtractShift(root, dateOf).Some?
    ensures var s := ExtractShift(root, dateOf).value;
      var flat := FlatOf(root);
      && s.totalSales == NumberByKeys(flat, TotalKeys)
      && s.fuelSales == NumberByKeys(flat, FuelKeys)
      && s.nonFuelSales == NumberByKeys(flat, NonFuelKeys)
      && s.refunds == NumberByKeys(flat, RefundKeys)
      && s.voidCount == Round(NumberByKeys(flat, VoidKeys))
      && s.discountTotal == NumberByKeys(flat, DiscountKeys)
      && s.taxTotal == NumberByKeys(flat, TaxKeys)
      && s.cashShort == NumberByKeys(flat, CashShortKeys)
      && (Round(NumberByKeys(flat, CustomerKeys)) != 0 ==> s.customerCount == Some(Round(NumberByKeys(flat, CustomerKeys))))
      && s.departmentSales == Departments(AllStrings(root))
      && s.registerId == StringByKeys(flat, RegisterKeys)
      && s.operatorId == StringByKeys(flat, OperatorKeys)
      && s.reportType == StringByKeys(flat, ReportTypeKeys)
      && s.startAt == ParseDate(StringByKeys(flat, StartKeys), dateOf)
      && s.endAt == ParseDate(StringByKeys(flat, EndKeys), dateOf)
  {
  }

  /** The customer count is absent exactly when it rounds to 0. */
  lemma ExtractShiftCustomerCount(root: Value, dateOf: string -> Option<int>)
    requires ExtractShift(root, dateOf).Some?
    ensures ExtractShift(root, dateOf).value.customerCount.None? <==>
      Round(NumberByKeys(FlatOf(root), CustomerKeys)) == 0
  {
  }

  /** The start and end are absent unless a non-empty string is found under their keys. */
  lemma ExtractShiftDates(root: Value, dateOf: string -> Option<int>)
    requires ExtractShift(root, dateOf).Some?
    ensures var s := ExtractShift(root, dateOf).value;
      (s.startAt.Some? ==> StringByKeys(FlatOf(root), StartKeys).Some?)
      && (s.endAt.Some? ==> StringByKeys(FlatOf(root), EndKeys).Some?)
  {
  }

  /** `<Shift toString="x"><TotalSales>10</TotalSales></Shift>`, attributes
      read without a prefix: the toString attribute makes the gateway throw
      although the document carries a total. */
  lemma ToStringAttributeThrows(dateOf: string -> Option<int>)
    ensures var shift := Obj([Entry("Shift", Obj([Entry("toString", Str("x")), Entry("TotalSales", Str("10"))]))]);
      Gateway(Some(shift), dateOf) == Threw
  {
    var inner := [Entry("toString", Str("x")), Entry("TotalSales", Str("10"))];
    var root := Obj([Entry("Shift", Obj(inner))]);
    assert inner[..1] == [Entry("toString", Str("x"))];
    assert EntriesPairs(inner[..1]) == [Pair("toString", "x")] by {
      assert inner[..1][..0] == [];
    }
    EntriesPairsPrefix(inner, 1);
    var top := [Entry("Shift", Obj(inner))];
    assert top[..0] == [];
    assert EntriesPairs(top) == EntryPairs("Shift", Obj(inner));
    assert Pairs(root) == EntriesPairs(inner);
    assert Pairs(root)[0].key == "toString";
  }
}

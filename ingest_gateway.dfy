/** The POST /xml ingest handler (backend/api/src/routes/ingest.ts): device
    authentication, de-duplication by (store, content hash), persistence of
    the raw upload, extraction, shift and department rows, and alerts. */
module IngestGateway {
  import opened Common
  import opened XmlTree
  import opened XmlExtractor
  import opened Db
  import opened AlertEngine

  /** The uploaded file as multer hands it over. */
  datatype UploadedFile = UploadedFile(text: string, size: nat)

  /** The parts of the request the handler reads. */
  datatype Request = Request(
    authorization: Option<string>,
    storeId: Option<string>,
    deviceId: Option<string>,
    filename: Option<string>,
    sha256: Option<string>,
    file: Option<UploadedFile>)

  /** The handler's answer. Aborted: parseXmlGateway threw, the handler's promise
      rejects outside any try, and no response is written. */
  datatype Response =
    | Rejected(status: nat, error: string)
    | Duplicated(rawFileId: nat)
    | Accepted(rawFileId: nat, parsed: bool)
    | Aborted

  /** What the handler calls but this model does not define: the device-key
      digest, the markup parser (None when parser.parse throws), the date
      parser and the clock. */
  datatype Env = Env(hash: string -> string, parseDocument: string -> Option<Value>, dateOf: string -> Option<int>, now: int)

  // =====================================================================
  // Authentication and validation
  // =====================================================================

  /** s.replace(pattern, replacement) with a string pattern: only the first occurrence is replaced. */
  function ReplaceFirst(s: string, pattern: string, replacement: string): string {
    match IndexOf(s, pattern)
    case None => s
    case Some(i) => s[..i] + replacement + s[i + |pattern|..]
  }

  /** req.headers.authorization?.replace("Bearer ", "") || "". */
  function Credential(authorization: Option<string>): string {
    match authorization
    case None => ""
    case Some(h) => ReplaceFirst(h, "Bearer ", "")
  }

  /** A bearer header yields the key after the prefix; a missing header yields "". */
  lemma CredentialOfBearer(key: string)
    ensures Credential(Some("Bearer " + key)) == key
    ensures Credential(None) == ""
  {
    assert StartsWith("Bearer " + key, "Bearer ");
  }

  /** A header without the prefix is used whole. */
  lemma CredentialWithoutBearer(h: string)
    requires !Contains(h, "Bearer ")
    ensures Credential(Some(h)) == h
  {
    IndexOfFirst(h, "Bearer ");
    if IndexOf(h, "Bearer ").Some? {
      ContainsAt(h, "Bearer ", IndexOf(h, "Bearer ").value);
    }
  }

  /** ReplaceFirst replaces the occurrence with no occurrence before it. */
  lemma ReplaceFirstAt(s: string, pattern: string, replacement: string, i: nat)
    requires OccursAt(s, pattern, i)
    requires forall j :: 0 <= j < i ==> !OccursAt(s, pattern, j)
    ensures ReplaceFirst(s, pattern, replacement) == s[..i] + replacement + s[i + |pattern|..]
  {
    IndexOfFirst(s, pattern);
  }

  /** The prefix is removed wherever it first occurs, not only at the start. */
  lemma CredentialRemovesInnerBearer()
    ensures Credential(Some("Token Bearer k")) == "Token k"
  {
    var h := "Token Bearer k";
    var b := "Bearer ";
    assert h == "Token " + b + "k";
    assert OccursAt(h, b, 6) by {
      assert h[6..13] == b;
    }
    forall j | 0 <= j < 6
      ensures !OccursAt(h, b, j)
    {
      assert h[j] != b[0];
    }
    ReplaceFirstAt(h, b, "", 6);
    assert h[..6] == "Token ";
    assert h[13..] == "k";
  }

  predicate DeviceMatches(d: Device, deviceId: Option<string>, storeId: string) {
    d.storeId == storeId && (!Present(deviceId) || d.id == deviceId.value)
  }

  /** device.findFirst({ where: { id: deviceId || undefined, storeId } }): the first matching row. */
  function FindDevice(devices: seq<Device>, deviceId: Option<string>, storeId: string): (r: Option<nat>)
    ensures r.Some? ==> r.value < |devices| && DeviceMatches(devices[r.value], deviceId, storeId)
    ensures r.Some? ==> forall j :: 0 <= j < r.value ==> !DeviceMatches(devices[j], deviceId, storeId)
    ensures r.None? <==> forall j :: 0 <= j < |devices| ==> !DeviceMatches(devices[j], deviceId, storeId)
  {
    if devices == [] then None
    else if DeviceMatches(devices[0], deviceId, storeId) then Some(0)
    else match FindDevice(devices[1..], deviceId, storeId)
      case None => None
      case Some(i) => Some(i + 1)
  }

  predicate SameContent(f: RawFile, storeId: string, sha256: string) {
    f.storeId == storeId && f.sha256 == sha256
  }

  /** rawFile.findFirst({ where: { storeId, sha256 } }). */
  function FindRawFile(files: seq<RawFile>, storeId: string, sha256: string): (r: Option<nat>)
    ensures r.Some? ==> r.value < |files| && SameContent(files[r.value], storeId, sha256)
    ensures r.Some? ==> forall j :: 0 <= j < r.value ==> !SameContent(files[j], storeId, sha256)
    ensures r.None? <==> forall j :: 0 <= j < |files| ==> !SameContent(files[j], storeId, sha256)
  {
    if files == [] then None
    else if SameContent(files[0], storeId, sha256) then Some(0)
    else match FindRawFile(files[1..], storeId, sha256)
      case None => None
      case Some(i) => Some(i + 1)
  }

  /** A request that passed every check: the matched device and the fields. */
  datatype Admission = Admission(deviceIndex: nat, device: Device, apiKey: string,
    storeId: string, filename: string, sha256: string, file: UploadedFile)

  datatype Gate = Admitted(admission: Admission) | Refused(response: Response)

  /** storeId, filename, sha256 and the file are all sent and non-empty. */
  predicate FieldsPresent(req: Request) {
    Present(req.storeId) && Present(req.filename) && Present(req.sha256) && req.file.Some?
  }

  /** The checks in the order the handler makes them: a bearer key, the four
      required fields, a device of the store (with the given id, if any), and
      the key's digest against the device's. */
  function Admit(t: Tables, req: Request, hash: string -> string): (g: Gate)
    ensures g.Admitted? ==> (g.admission.deviceIndex < |t.devices|
      && g.admission.device == t.devices[g.admission.deviceIndex])
  {
    var apiKey := Credential(req.authorization);
    if apiKey == "" then Refused(Rejected(401, "Missing device API key"))
    else if !FieldsPresent(req) then
      Refused(Rejected(400, "Missing required fields"))
    else match FindDevice(t.devices, req.deviceId, req.storeId.value)
      case None => Refused(Rejected(401, "Invalid device"))
      case Some(i) =>
        if hash(apiKey) != t.devices[i].apiKeyHash then Refused(Rejected(401, "Invalid device key"))
        else Admitted(Admission(i, t.devices[i], apiKey, req.storeId.value, req.filename.value, req.sha256.value, req.file.value))
  }

  // =====================================================================
  // The table updates, one per database call
  // =====================================================================

  /** rawFile.update({ data: { status: "DUPLICATE" } }) on row `i`. */
  function MarkDuplicate(t: Tables, i: nat): Tables
    requires i < |t.rawFiles|
  {
    t.(rawFiles := t.rawFiles[i := t.rawFiles[i].(status := Duplicate)])
  }

  /** The RECEIVED row that rawFile.create stores. */
  function ReceivedRow(id: nat, a: Admission): RawFile {
    RawFile(id, a.storeId, a.device.id, a.filename, a.sha256, a.file.size, Received, a.file.text, None, None, None)
  }

  function AddRawFile(t: Tables, a: Admission): Tables {
    t.(rawFiles := t.rawFiles + [ReceivedRow(t.nextId, a)], nextId := t.nextId + 1)
  }

  const ParseError: string := "Unable to parse shift data"

  /** The ERROR update of row `i`. */
  function MarkError(t: Tables, i: nat, now: int): Tables
    requires i < |t.rawFiles|
  {
    t.(rawFiles := t.rawFiles[i := t.rawFiles[i].(status := Error, parsedAt := Some(now), error := Some(ParseError))])
  }

  /** The row shift.create stores for a parse result. */
  function ShiftRow(id: nat, storeId: string, p: ParsedShift, rawFileId: nat, now: int): Shift {
    Shift(id, storeId, p.registerId, p.operatorId, p.startAt, p.endAt, p.totalSales, p.fuelSales,
      p.nonFuelSales, p.refunds, p.voidCount, p.discountTotal, p.taxTotal, p.customerCount,
      Some(rawFileId), now)
  }

  function AddShift(t: Tables, storeId: string, p: ParsedShift, rawFileId: nat, now: int): Tables {
    t.(shifts := t.shifts + [ShiftRow(t.nextId, storeId, p, rawFileId, now)], nextId := t.nextId + 1)
  }

  /** The rows deptSale.createMany stores, one per department entry, in order. */
  function DeptRows(shiftId: nat, depts: seq<Department>, firstId: nat): (r: seq<DeptSale>)
    ensures |r| == |depts|
    ensures forall k :: 0 <= k < |r| ==> r[k] == DeptSale(firstId + k, shiftId, depts[k].name, depts[k].amount)
  {
    seq(|depts|, k requires 0 <= k < |depts| => DeptSale(firstId + k, shiftId, depts[k].name, depts[k].amount))
  }

  function AddDeptSales(t: Tables, shiftId: nat, depts: seq<Department>): Tables {
    if |depts| > 0 then t.(deptSales := t.deptSales + DeptRows(shiftId, depts, t.nextId), nextId := t.nextId + |depts|)
    else t
  }

  /** The cash-short alert, raised when the parse found a positive shortage. */
  function CashShortAlerts(storeId: string, shiftId: nat, p: ParsedShift): seq<AlertInput> {
    if p.cashShort > 0.0 then [AlertInput(storeId, Some(shiftId), Warn, CashShort, "Cash short detected", CashShortMessage(p.cashShort))]
    else []
  }

  /** `parsed.reportType || null`. */
  function ReportTypeOrNull(r: Option<string>): Option<string> {
    if Present(r) then r else None
  }

  /** The PARSED update of row `i`. */
  function MarkParsed(t: Tables, i: nat, p: ParsedShift, now: int): Tables
    requires i < |t.rawFiles|
  {
    t.(rawFiles := t.rawFiles[i := t.rawFiles[i].(status := Parsed, parsedAt := Some(now), reportType := ReportTypeOrNull(p.reportType))])
  }

  /** device.update({ data: { lastSeenAt: new Date() } }) on row `i`. */
  function TouchDevice(t: Tables, i: nat, now: int): Tables
    requires i < |t.devices|
  {
    t.(devices := t.devices[i := t.devices[i].(lastSeenAt := Some(now))])
  }

  /** The tables after the shift, its departments and the cash-short alert are written. */
  function WithShift(t: Tables, storeId: string, p: ParsedShift, rawFileId: nat, now: int): Tables {
    var shiftId := t.nextId;
    var t2 := AddShift(t, storeId, p, rawFileId, now);
    var t3 := AddDeptSales(t2, shiftId, p.departmentSales);
    AddAlerts(t3, CashShortAlerts(storeId, shiftId, p), now)
  }

  /** Everything after a successful parse, once the RECEIVED row at index `i`
      is stored: shift, departments, cash-short alert, evaluated alerts, the
      PARSED update and the device's lastSeenAt. */
  function Complete(t: Tables, a: Admission, i: nat, p: ParsedShift, now: int): Tables
    requires i < |t.rawFiles| && a.deviceIndex < |t.devices|
  {
    var t4 := WithShift(t, a.storeId, p, t.rawFiles[i].id, now);
    Finish(t, a, i, p, now, EvaluateSpec(t4, t.nextId))
  }

  /** Complete, given the alerts the evaluator returns for the new shift. */
  function Finish(t: Tables, a: Admission, i: nat, p: ParsedShift, now: int, evaluated: seq<AlertInput>): Tables
    requires i < |t.rawFiles| && a.deviceIndex < |t.devices|
  {
    var t5 := AddAlerts(WithShift(t, a.storeId, p, t.rawFiles[i].id, now), evaluated, now);
    TouchDevice(MarkParsed(t5, i, p, now), a.deviceIndex, now)
  }

  // =====================================================================
  // The handler
  // =====================================================================

  datatype Outcome = Outcome(tables: Tables, response: Response)

  /** What the gateway makes of the uploaded text. */
  function Extract(env: Env, a: Admission): Extraction {
    Gateway(env.parseDocument(a.file.text), env.dateOf)
  }

  /** A new upload (no row with the same store and hash): the RECEIVED row,
      then the ERROR update, everything after a successful parse, or, when
      the gateway throws, nothing more. */
  function IngestNew(t: Tables, a: Admission, env: Env): Outcome
    requires a.deviceIndex < |t.devices|
  {
    var t1 := AddRawFile(t, a);
    var i := |t.rawFiles|;
    match Extract(env, a)
    case Threw => Outcome(t1, Aborted)
    case Extracted(None) => Outcome(MarkError(t1, i, env.now), Accepted(t.nextId, false))
    case Extracted(Some(p)) => Outcome(Complete(t1, a, i, p, env.now), Accepted(t.nextId, true))
  }

  /** The whole request: new tables and the response. */
  function Ingest(t: Tables, req: Request, env: Env): Outcome {
    match Admit(t, req, env.hash)
    case Refused(resp) => Outcome(t, resp)
    case Admitted(a) =>
      match FindRawFile(t.rawFiles, a.storeId, a.sha256)
      case Some(i) => Outcome(MarkDuplicate(t, i), Duplicated(t.rawFiles[i].id))
      case None => IngestNew(t, a, env)
  }

  /** The admission checks as the handler runs them; writes nothing. */
  method Authenticate(db: Database, req: Request, env: Env) returns (g: Gate)
    ensures g == Admit(db.State(), req, env.hash)
  {
    var apiKey := Credential(req.authorization);
    if apiKey == "" {
      return Refused(Rejected(401, "Missing device API key"));
    }
    if !Present(req.storeId) || !Present(req.filename) || !Present(req.sha256) || req.file.None? {
      return Refused(Rejected(400, "Missing required fields"));
    }
    var storeId := req.storeId.value;
    var found := FindDevice(db.devices, req.deviceId, storeId);
    if found.None? {
      return Refused(Rejected(401, "Invalid device"));
    }
    var device := db.devices[found.value];
    if env.hash(apiKey) != device.apiKeyHash {
      return Refused(Rejected(401, "Invalid device key"));
    }
    return Admitted(Admission(found.value, device, apiKey, storeId, req.filename.value, req.sha256.value, req.file.value));
  }

  /** The shift row, its department rows and the cash-short alert. */
  method StoreShift(db: Database, storeId: string, p: ParsedShift, rawFileId: nat, now: int)
    modifies db
    ensures db.State() == WithShift(old(db.State()), storeId, p, rawFileId, now)
  {
    var shiftId := db.nextId;
    db.shifts := db.shifts + [ShiftRow(shiftId, storeId, p, rawFileId, now)];
    db.nextId := db.nextId + 1;
    if |p.departmentSales| > 0 {
      db.deptSales := db.deptSales + DeptRows(shiftId, p.departmentSales, db.nextId);
      db.nextId := db.nextId + |p.departmentSales|;
    }
    assert db.State() == AddDeptSales(AddShift(old(db.State()), storeId, p, rawFileId, now), shiftId, p.departmentSales);
    if p.cashShort > 0.0 {
      var _ := CreateAlert(db, AlertInput(storeId, Some(shiftId), Warn, CashShort, "Cash short detected", CashShortMessage(p.cashShort)), now);
    } else {
      assert db.State() == AddAlerts(db.State(), [], now);
    }
  }

  /** Everything after a successful parse, for the RECEIVED row at index `i`. */
  method CompleteUpload(db: Database, a: Admission, i: nat, p: ParsedShift, now: int)
    requires i < |db.rawFiles| && a.deviceIndex < |db.devices|
    modifies db
    ensures db.State() == Complete(old(db.State()), a, i, p, now)
  {
    var shiftId := db.nextId;
    StoreShift(db, a.storeId, p, db.rawFiles[i].id, now);
    var _ := EvaluateAlertsForShift(db, shiftId, now);
    db.rawFiles := db.rawFiles[i := db.rawFiles[i].(status := Parsed, parsedAt := Some(now), reportType := ReportTypeOrNull(p.reportType))];
    db.devices := db.devices[a.deviceIndex := db.devices[a.deviceIndex].(lastSeenAt := Some(now))];
  }

  /** An upload whose content is new to the store: the RECEIVED row, the parse, and what follows it. */
  method StoreNew(db: Database, a: Admission, env: Env) returns (resp: Response)
    requires a.deviceIndex < |db.devices|
    modifies db
    ensures Outcome(db.State(), resp) == IngestNew(old(db.State()), a, env)
  {
    var rawFileId := db.nextId;
    var i := |db.rawFiles|;
    db.rawFiles := db.rawFiles + [ReceivedRow(rawFileId, a)];
    db.nextId := db.nextId + 1;
    ghost var t1 := db.State();
    assert t1 == AddRawFile(old(db.State()), a);

    var extraction := ParseXmlGateway(env.parseDocument(a.file.text), env.dateOf);
    if extraction.Threw? {
      return Aborted;
    }
    var parsed := extraction.shift;
    if parsed.None? {
      db.rawFiles := db.rawFiles[i := db.rawFiles[i].(status := Error, parsedAt := Some(env.now), error := Some(ParseError))];
      assert db.State() == MarkError(t1, i, env.now);
      return Accepted(rawFileId, false);
    }
    CompleteUpload(db, a, i, parsed.value, env.now);
    assert db.State() == Complete(t1, a, i, parsed.value, env.now);
    return Accepted(rawFileId, true);
  }

  /** router.post("/xml", ...): the handler as it runs against the database. */
  method PostXml(db: Database, req: Request, env: Env) returns (resp: Response)
    modifies db
    ensures Outcome(db.State(), resp) == Ingest(old(db.State()), req, env)
  {
    var gate := Authenticate(db, req, env);
    if gate.Refused? {
      return gate.response;
    }
    var a := gate.admission;
    var existing := FindRawFile(db.rawFiles, a.storeId, a.sha256);
    if existing.Some? {
      var e := existing.value;
      db.rawFiles := db.rawFiles[e := db.rawFiles[e].(status := Duplicate)];
      return Duplicated(db.rawFiles[e].id);
    }
    resp := StoreNew(db, a, env);
  }

  // =====================================================================
  // What one request does to the tables
  // =====================================================================

  /** A request is rejected exactly when one of the checks fails, and a rejected
      request writes nothing. The checks answer in order: a missing key, a
      missing field, no matching device, a key whose digest differs. */
  lemma IngestRejects(t: Tables, req: Request, env: Env)
    ensures var o := Ingest(t, req, env);
      && (o.response.Rejected? <==> Admit(t, req, env.hash).Refused?)
      && (o.response.Rejected? ==> o.tables == t)
      && (Credential(req.authorization) == "" ==> o.response == Rejected(401, "Missing device API key"))
      && (Credential(req.authorization) != "" && !FieldsPresent(req) ==> o.response == Rejected(400, "Missing required fields"))
      && (Credential(req.authorization) != "" && FieldsPresent(req) && FindDevice(t.devices, req.deviceId, req.storeId.value).None?
          ==> o.response == Rejected(401, "Invalid device"))
      && (Credential(req.authorization) != "" && FieldsPresent(req) && FindDevice(t.devices, req.deviceId, req.storeId.value).Some?
          && env.hash(Credential(req.authorization)) != t.devices[FindDevice(t.devices, req.deviceId, req.storeId.value).value].apiKeyHash
          ==> o.response == Rejected(401, "Invalid device key"))
  {
  }

  /** Content already stored for the store is not stored again: the existing row is
      marked DUPLICATE (whatever its status was, PARSED included), its id is answered,
      and no shift, department row or alert is written. */
  lemma IngestDuplicate(t: Tables, req: Request, env: Env, a: Admission, i: nat)
    requires Admit(t, req, env.hash) == Admitted(a)
    requires FindRawFile(t.rawFiles, a.storeId, a.sha256) == Some(i)
    ensures var o := Ingest(t, req, env);
      && o.response == Duplicated(t.rawFiles[i].id)
      && o.tables.shifts == t.shifts && o.tables.deptSales == t.deptSales
      && o.tables.alerts == t.alerts && o.tables.devices == t.devices && o.tables.nextId == t.nextId
      && |o.tables.rawFiles| == |t.rawFiles|
      && o.tables.rawFiles[i].status == Duplicate
      && (forall j :: 0 <= j < |t.rawFiles| && j != i ==> o.tables.rawFiles[j] == t.rawFiles[j])
  {
  }

  /** A new upload the extractor cannot read is stored as an ERROR row with the
      fixed message; nothing else is written, not even the device's lastSeenAt. */
  lemma IngestUnparsed(t: Tables, req: Request, env: Env, a: Admission)
    requires Admit(t, req, env.hash) == Admitted(a)
    requires FindRawFile(t.rawFiles, a.storeId, a.sha256).None?
    requires Extract(env, a) == Extracted(None)
    ensures var o := Ingest(t, req, env);
      && o.response == Accepted(t.nextId, false)
      && o.tables.rawFiles == t.rawFiles + [ReceivedRow(t.nextId, a).(status := Error, parsedAt := Some(env.now), error := Some(ParseError))]
      && o.tables.shifts == t.shifts && o.tables.deptSales == t.deptSales
      && o.tables.alerts == t.alerts && o.tables.devices == t.devices
      && o.tables.nextId == t.nextId + 1
  {
    UpdateLast(t.rawFiles, ReceivedRow(t.nextId, a), ReceivedRow(t.nextId, a).(status := Error, parsedAt := Some(env.now), error := Some(ParseError)));
  }

  /** A new upload on which the gateway throws keeps its RECEIVED row, gets no
      response, and writes nothing else, not even the device's lastSeenAt. */
  lemma IngestAborted(t: Tables, req: Request, env: Env, a: Admission)
    requires Admit(t, req, env.hash) == Admitted(a)
    requires FindRawFile(t.rawFiles, a.storeId, a.sha256).None?
    requires Extract(env, a) == Threw
    ensures var o := Ingest(t, req, env);
      && o.response == Aborted
      && o.tables.rawFiles == t.rawFiles + [ReceivedRow(t.nextId, a)]
      && ReceivedRow(t.nextId, a).status == Received
      && o.tables.shifts == t.shifts && o.tables.deptSales == t.deptSales
      && o.tables.alerts == t.alerts && o.tables.devices == t.devices
      && o.tables.nextId == t.nextId + 1
  {
  }

  /** Storing alerts in two batches is storing the concatenation. */
  lemma {:induction false} AddAlertsAppend(t: Tables, xs: seq<AlertInput>, ys: seq<AlertInput>, now: int)
    ensures AddAlerts(AddAlerts(t, xs, now), ys, now) == AddAlerts(t, xs + ys, now)
  {
    var l := NewAlerts(xs, t.nextId, now) + NewAlerts(ys, t.nextId + |xs|, now);
    var r := NewAlerts(xs + ys, t.nextId, now);
    assert |l| == |r|;
    forall k | 0 <= k < |l| ensures l[k] == r[k] {
      if k < |xs| {
        assert l[k] == Alert(t.nextId + k, xs[k], now);
      } else {
        assert l[k] == NewAlerts(ys, t.nextId + |xs|, now)[k - |xs|];
      }
    }
    assert l == r;
  }

  /** An admitted upload with new content takes the IngestNew path. */
  lemma IngestOfNew(t: Tables, req: Request, env: Env, a: Admission)
    requires Admit(t, req, env.hash) == Admitted(a)
    requires FindRawFile(t.rawFiles, a.storeId, a.sha256).None?
    ensures a.deviceIndex < |t.devices|
    ensures Ingest(t, req, env) == IngestNew(t, a, env)
  {
  }

  /** A successful parse takes the Complete path. */
  lemma IngestNewParsed(t: Tables, a: Admission, env: Env, p: ParsedShift)
    requires a.deviceIndex < |t.devices|
    requires Extract(env, a) == Extracted(Some(p))
    ensures IngestNew(t, a, env) == Outcome(Complete(AddRawFile(t, a), a, |t.rawFiles|, p, env.now), Accepted(t.nextId, true))
  {
  }

  /** The effect of everything after a successful parse, table by table,
      whatever the evaluator returns. */
  lemma FinishEffect(t: Tables, a: Admission, i: nat, p: ParsedShift, now: int, evaluated: seq<AlertInput>, rawFileId: nat, shiftId: nat)
    requires i < |t.rawFiles| && a.deviceIndex < |t.devices|
    requires t.rawFiles[i].id == rawFileId && t.nextId == shiftId
    ensures var c := Finish(t, a, i, p, now, evaluated);
      var firstDept := shiftId + 1;
      && c.rawFiles == t.rawFiles[i := t.rawFiles[i].(status := Parsed, parsedAt := Some(now), reportType := ReportTypeOrNull(p.reportType))]
      && c.shifts == t.shifts + [ShiftRow(shiftId, a.storeId, p, rawFileId, now)]
      && c.deptSales == t.deptSales + DeptRows(shiftId, p.departmentSales, firstDept)
      && c.alerts == t.alerts + NewAlerts(CashShortAlerts(a.storeId, shiftId, p) + evaluated, firstDept + |p.departmentSales|, now)
      && c.devices == t.devices[a.deviceIndex := t.devices[a.deviceIndex].(lastSeenAt := Some(now))]
      && c.nextId == firstDept + |p.departmentSales| + |CashShortAlerts(a.storeId, shiftId, p)| + |evaluated|
  {
    var t2 := AddShift(t, a.storeId, p, rawFileId, now);
    var t3 := AddDeptSales(t2, shiftId, p.departmentSales);
    var cash := CashShortAlerts(a.storeId, shiftId, p);
    var t4 := AddAlerts(t3, cash, now);
    var t5 := AddAlerts(t4, evaluated, now);
    assert WithShift(t, a.storeId, p, rawFileId, now) == t4;
    assert t3.alerts == t.alerts;
    assert t3.nextId == t.nextId + 1 + |p.departmentSales|;
    AddAlertsAppend(t3, cash, evaluated, now);
    assert t5.alerts == t.alerts + NewAlerts(cash + evaluated, t.nextId + 1 + |p.departmentSales|, now);
    assert Finish(t, a, i, p, now, evaluated).alerts == t5.alerts;
    if |p.departmentSales| == 0 {
      assert DeptRows(shiftId, p.departmentSales, t.nextId + 1) == [];
    }
  }

  /** The row Complete writes for the raw file, seen from the end of the request. */
  function ParsedRow(id: nat, a: Admission, p: ParsedShift, now: int): RawFile {
    ReceivedRow(id, a).(status := Parsed, parsedAt := Some(now), reportType := ReportTypeOrNull(p.reportType))
  }

  /** Storing the RECEIVED row and then finishing it, seen from the tables before the request. */
  lemma ReceivedThenFinish(t: Tables, a: Admission, p: ParsedShift, now: int, evaluated: seq<AlertInput>)
    requires a.deviceIndex < |t.devices|
    ensures var c := Finish(AddRawFile(t, a), a, |t.rawFiles|, p, now, evaluated);
      var shiftId := t.nextId + 1;
      var firstDept := t.nextId + 2;
      && c.rawFiles == t.rawFiles + [ParsedRow(t.nextId, a, p, now)]
      && c.shifts == t.shifts + [ShiftRow(shiftId, a.storeId, p, t.nextId, now)]
      && c.deptSales == t.deptSales + DeptRows(shiftId, p.departmentSales, firstDept)
      && c.alerts == t.alerts + NewAlerts(CashShortAlerts(a.storeId, shiftId, p) + evaluated, firstDept + |p.departmentSales|, now)
      && c.devices == t.devices[a.deviceIndex := t.devices[a.deviceIndex].(lastSeenAt := Some(now))]
      && c.nextId == firstDept + |p.departmentSales| + |CashShortAlerts(a.storeId, shiftId, p)| + |evaluated|
  {
    var t1 := AddRawFile(t, a);
    var i := |t.rawFiles|;
    FinishEffect(t1, a, i, p, now, evaluated, t.nextId, t.nextId + 1);
    assert t1.rawFiles == t.rawFiles + [ReceivedRow(t.nextId, a)];
    UpdateLast(t.rawFiles, ReceivedRow(t.nextId, a), ParsedRow(t.nextId, a, p, now));
  }

  /** Updating the row just appended is appending the updated row. */
  lemma UpdateLast(files: seq<RawFile>, row: RawFile, row': RawFile)
    ensures (files + [row])[|files| := row'] == files + [row']
  {
  }

  /** A new upload the extractor reads: a PARSED row, one shift tied to it, one
      department row per department entry, then the cash-short alert (when the
      shortage is positive) ahead of the evaluator's alerts, and the device's
      lastSeenAt set. The ids are handed out in that order from nextId on. */
  lemma IngestParsed(t: Tables, req: Request, env: Env, a: Admission, p: ParsedShift)
    requires Admit(t, req, env.hash) == Admitted(a)
    requires FindRawFile(t.rawFiles, a.storeId, a.sha256).None?
    requires Extract(env, a) == Extracted(Some(p))
    ensures var o := Ingest(t, req, env);
      var shiftId := t.nextId + 1;
      var firstDept := t.nextId + 2;
      var withShift := WithShift(AddRawFile(t, a), a.storeId, p, t.nextId, env.now);
      && o.response == Accepted(t.nextId, true)
      && o.tables.rawFiles == t.rawFiles + [ParsedRow(t.nextId, a, p, env.now)]
      && o.tables.shifts == t.shifts + [ShiftRow(shiftId, a.storeId, p, t.nextId, env.now)]
      && o.tables.deptSales == t.deptSales + DeptRows(shiftId, p.departmentSales, firstDept)
      && o.tables.alerts == t.alerts + NewAlerts(CashShortAlerts(a.storeId, shiftId, p) + EvaluateSpec(withShift, shiftId), firstDept + |p.departmentSales|, env.now)
      && o.tables.devices == t.devices[a.deviceIndex := t.devices[a.deviceIndex].(lastSeenAt := Some(env.now))]
      && o.tables.nextId == firstDept + |p.departmentSales| + |CashShortAlerts(a.storeId, shiftId, p)| + |EvaluateSpec(withShift, shiftId)|
  {
    var withShift := WithShift(AddRawFile(t, a), a.storeId, p, t.nextId, env.now);
    var evaluated := EvaluateSpec(withShift, t.nextId + 1);
    IngestParsedOutcome(t, req, env, a, p);
    ReceivedThenFinish(t, a, p, env.now, evaluated);
  }

  /** The path IngestParsed takes, as one Finish over the evaluator's alerts. */
  lemma IngestParsedOutcome(t: Tables, req: Request, env: Env, a: Admission, p: ParsedShift)
    requires Admit(t, req, env.hash) == Admitted(a)
    requires FindRawFile(t.rawFiles, a.storeId, a.sha256).None?
    requires Extract(env, a) == Extracted(Some(p))
    ensures a.deviceIndex < |t.devices|
    ensures Ingest(t, req, env) == Outcome(Finish(AddRawFile(t, a), a, |t.rawFiles|, p, env.now,
      EvaluateSpec(WithShift(AddRawFile(t, a), a.storeId, p, t.nextId, env.now), t.nextId + 1)), Accepted(t.nextId, true))
  {
    IngestOfNew(t, req, env, a);
    IngestNewParsed(t, a, env, p);
    CompleteAfterReceived(t, a, p, env.now);
  }

  /** Complete on the row just stored, with the evaluator's alerts named. */
  lemma CompleteAfterReceived(t: Tables, a: Admission, p: ParsedShift, now: int)
    requires a.deviceIndex < |t.devices|
    ensures Complete(AddRawFile(t, a), a, |t.rawFiles|, p, now) == Finish(AddRawFile(t, a), a, |t.rawFiles|, p, now,
      EvaluateSpec(WithShift(AddRawFile(t, a), a.storeId, p, t.nextId, now), t.nextId + 1))
  {
    var t1 := AddRawFile(t, a);
    assert t1.rawFiles[|t.rawFiles|].id == t.nextId;
    CompleteUnfold(t1, a, |t.rawFiles|, p, now, t.nextId, t.nextId + 1);
  }

  /** Complete is Finish over the alerts the evaluator returns for the shift id nextId. */
  lemma CompleteUnfold(t: Tables, a: Admission, i: nat, p: ParsedShift, now: int, rawFileId: nat, shiftId: nat)
    requires i < |t.rawFiles| && a.deviceIndex < |t.devices| && t.rawFiles[i].id == rawFileId && t.nextId == shiftId
    ensures Complete(t, a, i, p, now) == Finish(t, a, i, p, now, EvaluateSpec(WithShift(t, a.storeId, p, rawFileId, now), shiftId))
  {
  }

  // =====================================================================
  // Invariants of the tables across requests
  // =====================================================================

  /** Every stored id is below nextId, so the ids handed out next are fresh. */
  predicate IdsBelow(t: Tables) {
    && (forall k :: 0 <= k < |t.rawFiles| ==> t.rawFiles[k].id < t.nextId)
    && (forall k :: 0 <= k < |t.shifts| ==> t.shifts[k].id < t.nextId)
    && (forall k :: 0 <= k < |t.deptSales| ==> t.deptSales[k].id < t.nextId)
    && (forall k :: 0 <= k < |t.alerts| ==> t.alerts[k].id < t.nextId)
  }

  /** No two raw files of a store carry the same content hash. */
  predicate ContentUnique(files: seq<RawFile>) {
    forall j, k :: 0 <= j < k < |files| ==> !SameContent(files[j], files[k].storeId, files[k].sha256)
  }

  /** No raw file is RECEIVED: each request that stored one has moved it on. */
  predicate Settled(files: seq<RawFile>) {
    forall k :: 0 <= k < |files| ==> files[k].status != Received
  }

  /** Every shift names a stored raw file as its source. */
  predicate ShiftsSourced(t: Tables) {
    forall k :: 0 <= k < |t.shifts| ==>
      t.shifts[k].sourceRawFileId.Some? && HasRawFile(t.rawFiles, t.shifts[k].sourceRawFileId.value)
  }

  predicate HasRawFile(files: seq<RawFile>, id: nat) {
    exists j :: 0 <= j < |files| && files[j].id == id
  }

  predicate Valid(t: Tables) {
    IdsBelow(t) && ContentUnique(t.rawFiles) && ShiftsSourced(t)
  }

  /** Raw files keep their ids when rows are updated in place or appended. */
  lemma HasRawFileKept(files: seq<RawFile>, files': seq<RawFile>, id: nat)
    requires |files| <= |files'|
    requires forall j :: 0 <= j < |files| ==> files'[j].id == files[j].id
    requires HasRawFile(files, id)
    ensures HasRawFile(files', id)
  {
    var j :| 0 <= j < |files| && files[j].id == id;
    assert files'[j].id == id;
  }

  /** Marking a row DUPLICATE keeps the tables valid. */
  lemma DuplicateKeepsValid(t: Tables, i: nat)
    requires Valid(t) && i < |t.rawFiles|
    ensures Valid(MarkDuplicate(t, i))
  {
    var u := MarkDuplicate(t, i);
    forall k | 0 <= k < |u.shifts|
      ensures u.shifts[k].sourceRawFileId.Some? && HasRawFile(u.rawFiles, u.shifts[k].sourceRawFileId.value)
    {
      HasRawFileKept(t.rawFiles, u.rawFiles, t.shifts[k].sourceRawFileId.value);
    }
  }

  /** Appending a row with new content and the id nextId keeps the raw-file invariants. */
  lemma AppendRowKeepsFiles(t: Tables, row: RawFile, u: Tables)
    requires Valid(t)
    requires FindRawFile(t.rawFiles, row.storeId, row.sha256).None?
    requires row.id == t.nextId
    requires u.rawFiles == t.rawFiles + [row] && u.nextId > t.nextId
    ensures ContentUnique(u.rawFiles)
    ensures forall k :: 0 <= k < |u.rawFiles| ==> u.rawFiles[k].id < u.nextId
  {
    forall j, k | 0 <= j < k < |u.rawFiles|
      ensures !SameContent(u.rawFiles[j], u.rawFiles[k].storeId, u.rawFiles[k].sha256)
    {
      if k == |t.rawFiles| {
        assert u.rawFiles[k] == row;
        assert u.rawFiles[j] == t.rawFiles[j];
      }
    }
  }

  /** The handler keeps the tables valid, whichever way the request goes. */
  lemma IngestKeepsValid(t: Tables, req: Request, env: Env)
    requires Valid(t)
    ensures Valid(Ingest(t, req, env).tables)
  {
    var o := Ingest(t, req, env);
    match Admit(t, req, env.hash)
    case Refused(_) =>
    case Admitted(a) =>
      match FindRawFile(t.rawFiles, a.storeId, a.sha256)
      case Some(i) =>
        DuplicateKeepsValid(t, i);
      case None =>
        match Extract(env, a)
        case Threw =>
          IngestAborted(t, req, env, a);
          AbortedKeepsValid(t, a, o.tables);
        case Extracted(None) =>
          IngestUnparsed(t, req, env, a);
          UnparsedKeepsValid(t, a, env.now, o.tables);
        case Extracted(Some(p)) =>
          IngestParsed(t, req, env, a, p);
          var withShift := WithShift(AddRawFile(t, a), a.storeId, p, t.nextId, env.now);
          ParsedKeepsValid(t, a, p, env.now, EvaluateSpec(withShift, t.nextId + 1), o.tables);
  }

  /** The tables IngestAborted describes are valid when the tables before were. */
  lemma AbortedKeepsValid(t: Tables, a: Admission, u: Tables)
    requires Valid(t)
    requires FindRawFile(t.rawFiles, a.storeId, a.sha256).None?
    requires u.rawFiles == t.rawFiles + [ReceivedRow(t.nextId, a)]
    requires u.shifts == t.shifts && u.deptSales == t.deptSales && u.alerts == t.alerts
    requires u.nextId == t.nextId + 1
    ensures Valid(u)
  {
    AppendRowKeepsFiles(t, ReceivedRow(t.nextId, a), u);
    forall k | 0 <= k < |u.shifts|
      ensures u.shifts[k].sourceRawFileId.Some? && HasRawFile(u.rawFiles, u.shifts[k].sourceRawFileId.value)
    {
      HasRawFileKept(t.rawFiles, u.rawFiles, t.shifts[k].sourceRawFileId.value);
    }
  }

  /** A request that is answered leaves no row RECEIVED when none was before;
      a request whose parse throws leaves its new row RECEIVED. */
  lemma IngestSettles(t: Tables, req: Request, env: Env)
    requires Settled(t.rawFiles)
    ensures var o := Ingest(t, req, env);
      Settled(o.tables.rawFiles) <==> o.response != Aborted
  {
    match Admit(t, req, env.hash)
    case Refused(_) =>
    case Admitted(a) =>
      match FindRawFile(t.rawFiles, a.storeId, a.sha256)
      case Some(i) =>
        assert Ingest(t, req, env).tables.rawFiles == t.rawFiles[i := t.rawFiles[i].(status := Duplicate)];
      case None =>
        match Extract(env, a)
        case Threw =>
          IngestAborted(t, req, env, a);
          SettledAppend(t.rawFiles, ReceivedRow(t.nextId, a));
        case Extracted(None) =>
          IngestUnparsed(t, req, env, a);
          SettledAppend(t.rawFiles, ReceivedRow(t.nextId, a).(status := Error, parsedAt := Some(env.now), error := Some(ParseError)));
        case Extracted(Some(p)) =>
          SettlesParsed(t, req, env, a, p);
  }

  lemma SettledAppend(files: seq<RawFile>, row: RawFile)
    requires Settled(files)
    ensures Settled(files + [row]) <==> row.status != Received
  {
    assert (files + [row])[|files|] == row;
  }

  lemma SettlesParsed(t: Tables, req: Request, env: Env, a: Admission, p: ParsedShift)
    requires Settled(t.rawFiles)
    requires Admit(t, req, env.hash) == Admitted(a)
    requires FindRawFile(t.rawFiles, a.storeId, a.sha256).None?
    requires Extract(env, a) == Extracted(Some(p))
    ensures Settled(Ingest(t, req, env).tables.rawFiles) && Ingest(t, req, env).response != Aborted
  {
    IngestParsed(t, req, env, a, p);
    SettledAppend(t.rawFiles, ParsedRow(t.nextId, a, p, env.now));
  }

  /** The tables IngestUnparsed describes are valid when the tables before were. */
  lemma UnparsedKeepsValid(t: Tables, a: Admission, now: int, u: Tables)
    requires Valid(t)
    requires FindRawFile(t.rawFiles, a.storeId, a.sha256).None?
    requires u.rawFiles == t.rawFiles + [ReceivedRow(t.nextId, a).(status := Error, parsedAt := Some(now), error := Some(ParseError))]
    requires u.shifts == t.shifts && u.deptSales == t.deptSales && u.alerts == t.alerts
    requires u.nextId == t.nextId + 1
    ensures Valid(u)
  {
    var row := ReceivedRow(t.nextId, a).(status := Error, parsedAt := Some(now), error := Some(ParseError));
    AppendRowKeepsFiles(t, row, u);
    forall k | 0 <= k < |u.shifts|
      ensures u.shifts[k].sourceRawFileId.Some? && HasRawFile(u.rawFiles, u.shifts[k].sourceRawFileId.value)
    {
      HasRawFileKept(t.rawFiles, u.rawFiles, t.shifts[k].sourceRawFileId.value);
    }
  }

  /** The tables IngestParsed describes are valid when the tables before were. */
  lemma ParsedKeepsValid(t: Tables, a: Admission, p: ParsedShift, now: int, evaluated: seq<AlertInput>, u: Tables)
    requires Valid(t) && a.deviceIndex < |t.devices|
    requires FindRawFile(t.rawFiles, a.storeId, a.sha256).None?
    requires u.rawFiles == t.rawFiles + [ParsedRow(t.nextId, a, p, now)]
    requires u.shifts == t.shifts + [ShiftRow(t.nextId + 1, a.storeId, p, t.nextId, now)]
    requires u.deptSales == t.deptSales + DeptRows(t.nextId + 1, p.departmentSales, t.nextId + 2)
    requires u.alerts == t.alerts + NewAlerts(CashShortAlerts(a.storeId, t.nextId + 1, p) + evaluated, t.nextId + 2 + |p.departmentSales|, now)
    requires u.nextId == t.nextId + 2 + |p.departmentSales| + |CashShortAlerts(a.storeId, t.nextId + 1, p)| + |evaluated|
    ensures Valid(u)
  {
    AppendRowKeepsFiles(t, ParsedRow(t.nextId, a, p, now), u);
    ParsedIdsBelow(t, p, u, NewAlerts(CashShortAlerts(a.storeId, t.nextId + 1, p) + evaluated, t.nextId + 2 + |p.departmentSales|, now),
      DeptRows(t.nextId + 1, p.departmentSales, t.nextId + 2));
    ParsedSourced(t, ParsedRow(t.nextId, a, p, now), ShiftRow(t.nextId + 1, a.storeId, p, t.nextId, now), u);
  }

  /** Helper of ParsedKeepsValid: the new department rows and alerts take ids below the new nextId. */
  lemma ParsedIdsBelow(t: Tables, p: ParsedShift, u: Tables, added: seq<Alert>, rows: seq<DeptSale>)
    requires IdsBelow(t)
    requires rows == DeptRows(t.nextId + 1, p.departmentSales, t.nextId + 2)
    requires u.deptSales == t.deptSales + rows
    requires forall k :: 0 <= k < |added| ==> added[k].id == t.nextId + 2 + |p.departmentSales| + k
    requires u.alerts == t.alerts + added
    requires u.nextId == t.nextId + 2 + |p.departmentSales| + |added|
    requires |u.shifts| == |t.shifts| + 1 && u.shifts[..|t.shifts|] == t.shifts && u.shifts[|t.shifts|].id == t.nextId + 1
    requires forall k :: 0 <= k < |u.rawFiles| ==> u.rawFiles[k].id < u.nextId
    ensures IdsBelow(u)
  {
    forall k | 0 <= k < |u.alerts| ensures u.alerts[k].id < u.nextId {
      if k >= |t.alerts| {
        assert u.alerts[k] == added[k - |t.alerts|];
      }
    }
    forall k | 0 <= k < |u.deptSales| ensures u.deptSales[k].id < u.nextId {
      if k >= |t.deptSales| {
        assert u.deptSales[k] == rows[k - |t.deptSales|];
      }
    }
    forall k | 0 <= k < |u.shifts| ensures u.shifts[k].id < u.nextId {
      if k < |t.shifts| {
        assert u.shifts[k] == t.shifts[k];
      }
    }
  }

  /** Helper of ParsedKeepsValid: the new shift names the new raw file, and old shifts keep theirs. */
  lemma ParsedSourced(t: Tables, row: RawFile, shift: Shift, u: Tables)
    requires ShiftsSourced(t)
    requires u.rawFiles == t.rawFiles + [row] && u.shifts == t.shifts + [shift]
    requires shift.sourceRawFileId == Some(row.id)
    ensures ShiftsSourced(u)
  {
    assert u.rawFiles[|t.rawFiles|].id == row.id;
    forall k | 0 <= k < |u.shifts|
      ensures u.shifts[k].sourceRawFileId.Some? && HasRawFile(u.rawFiles, u.shifts[k].sourceRawFileId.value)
    {
      if k < |t.shifts| {
        assert u.shifts[k] == t.shifts[k];
        HasRawFileKept(t.rawFiles, u.rawFiles, t.shifts[k].sourceRawFileId.value);
      }
    }
  }

  // =====================================================================
  // Uploading the same content twice
  // =====================================================================

  /** Updating a device's lastSeenAt does not change which device a lookup finds. */
  lemma FindDeviceIgnoresLastSeen(devices: seq<Device>, i: nat, seen: Option<int>, deviceId: Option<string>, storeId: string)
    requires i < |devices|
    ensures FindDevice(devices[i := devices[i].(lastSeenAt := seen)], deviceId, storeId) == FindDevice(devices, deviceId, storeId)
  {
    var touched := devices[i := devices[i].(lastSeenAt := seen)];
    var r, r' := FindDevice(devices, deviceId, storeId), FindDevice(touched, deviceId, storeId);
    assert forall j :: 0 <= j < |devices| ==> (DeviceMatches(touched[j], deviceId, storeId) <==> DeviceMatches(devices[j], deviceId, storeId));
  }

  /** After an accepted upload, the store's content is found at the new row. */
  lemma FindAppendedRow(files: seq<RawFile>, row: RawFile)
    requires FindRawFile(files, row.storeId, row.sha256).None?
    ensures FindRawFile(files + [row], row.storeId, row.sha256) == Some(|files|)
  {
    var all := files + [row];
    assert SameContent(all[|files|], row.storeId, row.sha256);
    assert forall j :: 0 <= j < |files| ==> all[j] == files[j];
  }

  /** A request admitted once is admitted again against tables whose devices
      differ only in lastSeenAt. */
  lemma AdmitAgain(t: Tables, u: Tables, req: Request, hash: string -> string, a: Admission)
    requires Admit(t, req, hash) == Admitted(a)
    requires |u.devices| == |t.devices|
    requires forall j :: 0 <= j < |t.devices| ==> u.devices[j] == t.devices[j].(lastSeenAt := u.devices[j].lastSeenAt)
    ensures Admit(u, req, hash).Admitted?
    ensures Admit(u, req, hash).admission.storeId == a.storeId
    ensures Admit(u, req, hash).admission.sha256 == a.sha256
  {
    var r := FindDevice(t.devices, req.deviceId, a.storeId);
    var r' := FindDevice(u.devices, req.deviceId, a.storeId);
    assert forall j :: 0 <= j < |t.devices| ==> (DeviceMatches(u.devices[j], req.deviceId, a.storeId) <==> DeviceMatches(t.devices[j], req.deviceId, a.storeId));
    assert r.Some?;
    assert r' == r;
  }

  /** Sending the same request again, once it was accepted or aborted, is answered
      as a duplicate of the row the first request stored, and stores no second
      row, shift, department row or alert: content whose first parse threw is
      never parsed again. */
  lemma SecondUploadIsDuplicate(t: Tables, req: Request, env: Env, env': Env)
    requires Ingest(t, req, env).response.Accepted? || Ingest(t, req, env).response.Aborted?
    requires env'.hash == env.hash
    ensures var first := Ingest(t, req, env);
      var second := Ingest(first.tables, req, env');
      && second.response == Duplicated(t.nextId)
      && (first.response.Accepted? ==> first.response.rawFileId == t.nextId)
      && |second.tables.rawFiles| == |first.tables.rawFiles|
      && second.tables.shifts == first.tables.shifts
      && second.tables.deptSales == first.tables.deptSales
      && second.tables.alerts == first.tables.alerts
  {
    var first := Ingest(t, req, env);
    var a := Admit(t, req, env.hash).admission;
    assert FindRawFile(t.rawFiles, a.storeId, a.sha256).None?;
    var u := first.tables;
    var row := FirstRow(t, req, env, a);
    AdmitAgain(t, u, req, env.hash, a);
    var a' := Admit(u, req, env'.hash).admission;
    FindAppendedRow(t.rawFiles, row);
    IngestDuplicate(u, req, env', a', |t.rawFiles|);
  }

  /** The row an accepted first request stores, with what else it leaves unchanged. */
  lemma FirstRow(t: Tables, req: Request, env: Env, a: Admission) returns (row: RawFile)
    requires Admit(t, req, env.hash) == Admitted(a)
    requires FindRawFile(t.rawFiles, a.storeId, a.sha256).None?
    ensures var u := Ingest(t, req, env).tables;
      && u.rawFiles == t.rawFiles + [row]
      && row.id == t.nextId
      && (Ingest(t, req, env).response.Accepted? ==> Ingest(t, req, env).response.rawFileId == row.id)
      && row.storeId == a.storeId && row.sha256 == a.sha256
      && |u.devices| == |t.devices|
      && (forall j :: 0 <= j < |t.devices| ==> u.devices[j] == t.devices[j].(lastSeenAt := u.devices[j].lastSeenAt))
  {
    match Extract(env, a)
    case Threw =>
      IngestAborted(t, req, env, a);
      row := ReceivedRow(t.nextId, a);
    case Extracted(None) =>
      row := FirstRowUnparsed(t, req, env, a);
    case Extracted(Some(p)) =>
      row := FirstRowParsed(t, req, env, a, p);
  }

  lemma FirstRowUnparsed(t: Tables, req: Request, env: Env, a: Admission) returns (row: RawFile)
    requires Admit(t, req, env.hash) == Admitted(a)
    requires FindRawFile(t.rawFiles, a.storeId, a.sha256).None?
    requires Extract(env, a) == Extracted(None)
    ensures var u := Ingest(t, req, env).tables;
      && u.rawFiles == t.rawFiles + [row]
      && row.id == t.nextId
      && (Ingest(t, req, env).response.Accepted? ==> Ingest(t, req, env).response.rawFileId == row.id)
      && row.storeId == a.storeId && row.sha256 == a.sha256
      && |u.devices| == |t.devices|
      && (forall j :: 0 <= j < |t.devices| ==> u.devices[j] == t.devices[j].(lastSeenAt := u.devices[j].lastSeenAt))
  {
    IngestUnparsed(t, req, env, a);
    row := ReceivedRow(t.nextId, a).(status := Error, parsedAt := Some(env.now), error := Some(ParseError));
  }

  lemma FirstRowParsed(t: Tables, req: Request, env: Env, a: Admission, p: ParsedShift) returns (row: RawFile)
    requires Admit(t, req, env.hash) == Admitted(a)
    requires FindRawFile(t.rawFiles, a.storeId, a.sha256).None?
    requires Extract(env, a) == Extracted(Some(p))
    ensures var u := Ingest(t, req, env).tables;
      && u.rawFiles == t.rawFiles + [row]
      && row.id == t.nextId
      && (Ingest(t, req, env).response.Accepted? ==> Ingest(t, req, env).response.rawFileId == row.id)
      && row.storeId == a.storeId && row.sha256 == a.sha256
      && |u.devices| == |t.devices|
      && (forall j :: 0 <= j < |t.devices| ==> u.devices[j] == t.devices[j].(lastSeenAt := u.devices[j].lastSeenAt))
  {
    IngestParsed(t, req, env, a, p);
    row := ParsedRow(t.nextId, a, p, env.now);
    var u := Ingest(t, req, env).tables;
    assert u.devices == t.devices[a.deviceIndex := t.devices[a.deviceIndex].(lastSeenAt := Some(env.now))];
  }

  // =====================================================================
  // A first upload for a store
  // =====================================================================

  /** A store none of whose shifts are in `shifts` has no dated shifts there. */
  lemma {:induction false} StoreDatedNone(shifts: seq<Shift>, storeId: string)
    requires forall k :: 0 <= k < |shifts| ==> shifts[k].storeId != storeId
    ensures StoreDated(shifts, storeId) == []
  {
    if shifts != [] {
      StoreDatedNone(shifts[..|shifts| - 1], storeId);
    }
  }

  /** A store with no earlier shifts has at most the new shift in its history. */
  lemma OnlyShiftOfStore(before: seq<Shift>, row: Shift)
    requires forall k :: 0 <= k < |before| ==> before[k].storeId != row.storeId
    ensures |RecentShifts(before + [row], row.storeId)| <= 1
  {
    var all := before + [row];
    StoreDatedNone(before, row.storeId);
    assert all[..|all| - 1] == before;
    assert |StoreDated(all, row.storeId)| <= 1;
    var sorted := SortNewestFirst(StoreDated(all, row.storeId));
    assert |multiset(sorted)| == |multiset(StoreDated(all, row.storeId))|;
  }

  /** The lookup by id finds a shift appended with an id above every earlier one. */
  lemma FindNewShift(before: seq<Shift>, row: Shift)
    requires forall k :: 0 <= k < |before| ==> before[k].id < row.id
    ensures FindShift(before + [row], row.id) == Some(row)
  {
    var found := FindShift(before + [row], row.id);
    assert (before + [row])[|before|].id == row.id;
    assert forall s :: s in before ==> s.id < row.id;
    assert found.value !in before;
  }

  /** The evaluator, run on the first shift of a store that has high voids,
      non-zero inside sales and no refunds, raises the HighVoids alert alone. */
  lemma EvaluateFirstShift(u: Tables, before: seq<Shift>, row: Shift)
    requires u.shifts == before + [row]
    requires forall k :: 0 <= k < |before| ==> before[k].id < row.id && before[k].storeId != row.storeId
    requires row.voidCount >= 5 && row.nonFuelSales != 0.0 && row.refunds <= 0.0
    ensures EvaluateSpec(u, row.id) == [AlertOf(row, Critical, HighVoids, "High void count", VoidCountMessage(row.voidCount))]
  {
    FindNewShift(before, row);
    var recent := RecentShifts(u.shifts, row.storeId);
    OnlyShiftOfStore(before, row);
    var b := Baseline(row, recent);
    assert |b| <= 1;
    DipNeedsThree(row.totalSales, b);
    VoidsOnly(row, b);
    assert EvaluateSpec(u, row.id) == RuleAlerts(row, b);
  }

  /** When only the void rule fires, the rules raise its alert alone. */
  lemma VoidsOnly(row: Shift, b: seq<Shift>)
    requires row.voidCount >= 5 && row.nonFuelSales != 0.0 && row.refunds <= 0.0 && !DipFires(row.totalSales, b)
    ensures RuleAlerts(row, b) == [AlertOf(row, Critical, HighVoids, "High void count", VoidCountMessage(row.voidCount))]
  {
    assert ZeroInsideAlert(row) == [] && RefundsAlert(row) == [] && DipAlert(row, b) == [];
    assert VoidsAlert(row) == [AlertOf(row, Critical, HighVoids, "High void count", VoidCountMessage(row.voidCount))];
  }

  /** An upload with total sales 500, fuel 0, inside 500 and six voids, for a store
      with no earlier shifts: the raw file ends PARSED, one shift carries those
      totals, and exactly one alert is stored, the critical HighVoids one. */
  lemma HighVoidsScenario(t: Tables, req: Request, env: Env, a: Admission, p: ParsedShift)
    requires Valid(t)
    requires Admit(t, req, env.hash) == Admitted(a)
    requires FindRawFile(t.rawFiles, a.storeId, a.sha256).None?
    requires Extract(env, a) == Extracted(Some(p))
    requires p.totalSales == 500.0 && p.fuelSales == 0.0 && p.nonFuelSales == 500.0 && p.voidCount == 6
    requires p.refunds == 0.0 && p.cashShort == 0.0
    requires forall k :: 0 <= k < |t.shifts| ==> t.shifts[k].storeId != a.storeId
    ensures var o := Ingest(t, req, env);
      var shiftId := t.nextId + 1;
      var row := ShiftRow(shiftId, a.storeId, p, t.nextId, env.now);
      && o.response == Accepted(t.nextId, true)
      && o.tables.rawFiles == t.rawFiles + [ParsedRow(t.nextId, a, p, env.now)]
      && ParsedRow(t.nextId, a, p, env.now).status == Parsed
      && o.tables.shifts == t.shifts + [row]
      && row.totalSales == 500.0 && row.voidCount == 6
      && o.tables.alerts == t.alerts + [Alert(t.nextId + 2 + |p.departmentSales|,
           AlertInput(a.storeId, Some(shiftId), Critical, HighVoids, "High void count", VoidCountMessage(6)), env.now)]
  {
    IngestParsed(t, req, env, a, p);
    var shiftId := t.nextId + 1;
    var row := ShiftRow(shiftId, a.storeId, p, t.nextId, env.now);
    var withShift := WithShift(AddRawFile(t, a), a.storeId, p, t.nextId, env.now);
    assert withShift.shifts == t.shifts + [row];
    EvaluateFirstShift(withShift, t.shifts, row);
    assert CashShortAlerts(a.storeId, shiftId, p) == [];
    var alert := AlertInput(a.storeId, Some(shiftId), Critical, HighVoids, "High void count", VoidCountMessage(6));
    assert CashShortAlerts(a.storeId, shiftId, p) + EvaluateSpec(withShift, shiftId) == [alert];
    assert NewAlerts([alert], t.nextId + 2 + |p.departmentSales|, env.now)
      == [Alert(t.nextId + 2 + |p.departmentSales|, alert, env.now)];
  }
}

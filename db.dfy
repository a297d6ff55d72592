/** The relational tables the gateway and the alert engine read and write
    (devices, raw files, shifts, department sales and alerts), held by a
    Database object whose fields the operations update in place. Row ids
    handed out by the database are natural numbers from one counter. */
module Db {
  import opened Common

  datatype Severity = Info | Warn | Critical

  /** The alert `type` tags. */
  datatype AlertKind = HighVoids | ZeroInsideSales | Refunds | LowSalesDrop | CashShort

  /** The figures an alert message is formatted from. */
  datatype Message =
    | VoidCountMessage(voidCount: int)
    | ZeroInsideMessage
    | RefundsMessage(refunds: real)
    | SalesDipMessage(totalSales: real, average: real)
    | CashShortMessage(cashShort: real)

  /** The input of createAlert. */
  datatype AlertInput = AlertInput(
    storeId: string,
    shiftId: Option<nat>,
    severity: Severity,
    kind: AlertKind,
    title: string,
    message: Message)

  /** A stored alert: the input as given, an id and a creation time. */
  datatype Alert = Alert(id: nat, input: AlertInput, createdAt: int)

  datatype Device = Device(id: string, storeId: string, apiKeyHash: string, lastSeenAt: Option<int>)

  datatype RawStatus = Received | Parsed | Error | Duplicate

  datatype RawFile = RawFile(
    id: nat,
    storeId: string,
    deviceId: string,
    filename: string,
    sha256: string,
    sizeBytes: nat,
    status: RawStatus,
    rawXml: string,
    parsedAt: Option<int>,
    error: Option<string>,
    reportType: Option<string>)

  /** A shift row; instants are milliseconds since the epoch. */
  datatype Shift = Shift(
    id: nat,
    storeId: string,
    registerId: Option<string>,
    operatorId: Option<string>,
    startAt: Option<int>,
    endAt: Option<int>,
    totalSales: real,
    fuelSales: real,
    nonFuelSales: real,
    refunds: real,
    voidCount: int,
    discountTotal: real,
    taxTotal: real,
    customerCount: Option<int>,
    sourceRawFileId: Option<nat>,
    createdAt: int)

  datatype DeptSale = DeptSale(id: nat, shiftId: nat, departmentName: string, amount: real)

  /** A snapshot of every table and of the id counter. */
  datatype Tables = Tables(
    devices: seq<Device>,
    rawFiles: seq<RawFile>,
    shifts: seq<Shift>,
    deptSales: seq<DeptSale>,
    alerts: seq<Alert>,
    nextId: nat)

  /** The shift with the given id (shift.findUnique). */
  function FindShift(shifts: seq<Shift>, id: nat): (r: Option<Shift>)
    ensures r.Some? ==> r.value in shifts && r.value.id == id
    ensures r.None? <==> forall i :: 0 <= i < |shifts| ==> shifts[i].id != id
  {
    if shifts == [] then None
    else if shifts[0].id == id then Some(shifts[0])
    else FindShift(shifts[1..], id)
  }

  /** The alerts that createAlert stores for `inputs`, in order, from the id `firstId` on. */
  function NewAlerts(inputs: seq<AlertInput>, firstId: nat, now: int): (r: seq<Alert>)
    ensures |r| == |inputs|
    ensures forall i :: 0 <= i < |r| ==> r[i] == Alert(firstId + i, inputs[i], now)
  {
    if inputs == [] then []
    else NewAlerts(inputs[..|inputs| - 1], firstId, now) + [Alert(firstId + |inputs| - 1, inputs[|inputs| - 1], now)]
  }

  /** The tables after createAlert has been called on each input in turn. */
  function AddAlerts(t: Tables, inputs: seq<AlertInput>, now: int): Tables {
    t.(alerts := t.alerts + NewAlerts(inputs, t.nextId, now), nextId := t.nextId + |inputs|)
  }

  /** The database: the tables are sequences the operations reassign. */
  class Database {
    var devices: seq<Device>
    var rawFiles: seq<RawFile>
    var shifts: seq<Shift>
    var deptSales: seq<DeptSale>
    var alerts: seq<Alert>
    var nextId: nat

    function State(): Tables
      reads this
    {
      Tables(devices, rawFiles, shifts, deptSales, alerts, nextId)
    }

    constructor (t: Tables)
      ensures State() == t
    {
      devices, rawFiles, shifts, deptSales, alerts, nextId := t.devices, t.rawFiles, t.shifts, t.deptSales, t.alerts, t.nextId;
    }

    /** createAlert(input): prisma.alert.create({ data: input }). */
    method CreateAlert(input: AlertInput, now: int) returns (a: Alert)
      modifies this
      ensures a == Alert(old(nextId), input, now)
      ensures State() == old(State()).(alerts := old(alerts) + [a], nextId := old(nextId) + 1)
    {
      a := Alert(nextId, input, now);
      alerts := alerts + [a];
      nextId := nextId + 1;
    }
  }

  /** Storing one more alert extends the run of stored alerts by one. */
  lemma AddAlertsSnoc(t: Tables, inputs: seq<AlertInput>, x: AlertInput, now: int)
    ensures AddAlerts(t, inputs + [x], now) ==
      var u := AddAlerts(t, inputs, now);
      u.(alerts := u.alerts + [Alert(u.nextId, x, now)], nextId := u.nextId + 1)
  {
    assert (inputs + [x])[..|inputs + [x]| - 1] == inputs;
  }
}

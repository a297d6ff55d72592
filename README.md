# silentmanager core, modelled in Dafny

silentmanager collects end-of-shift reports from convenience-store and fuel
point-of-sale systems. An **upload agent** on the store PC watches a folder
for report files. It waits until each file stops growing, hashes it and
skips files it has already uploaded. It posts the rest to the **ingest
gateway**, retrying with exponential backoff. The gateway authenticates the
device and drops repeated content (same store, same hash). It stores the raw
upload and runs the **heuristic XML extractor**, which finds totals, counts,
dates and department sales in markup whose schema it does not know. It then
records the shift and its department rows, and raises a cash-short alert.
Finally it runs the **alert engine** (high voids, zero inside sales,
refunds, and a dip against the same weekday of recent weeks). A **chat
route** classifies a store owner's question by keywords and answers it from
the shift table.

The project has nine modules, one per file:

| file | module | models |
|---|---|---|
| common.dfy | Common | Option, ASCII lower-casing, `includes`/`indexOf`, decimal digits, left-to-right sums |
| db.dfy | Db | the rows the core reads and writes (devices, raw files, shifts, department sales, alerts) and a `Database` class holding the tables as `seq` fields |
| xml_tree.dfy | XmlTree | the parsed document as a tree value; `findAllStrings` and `findAllKeyValues` (the flattened multimap) |
| number_text.dfy | NumberText | `toNumber`: the character filter and JavaScript's `Number()` on what is left |
| xml_extractor.dfy | XmlExtractor | `findNumberByKeys`, `findStringByKeys`, `parseDate`, `Math.round`, department inference and `parseXmlGateway` |
| alert_engine.dfy | AlertEngine | `createAlert` and `evaluateAlertsForShift` |
| ingest_gateway.dfy | IngestGateway | the `POST /xml` handler |
| upload_agent.dfy | UploadAgent | `retry`, `fileStable`, `processFile` and the upload ledger, `handleFile` |
| chat_intent.dfy | ChatIntent | `classifyIntent`, the intent labels, `startOfWeek`/`endOfDay`, and the answer of each intent |

Each handler that changes state is a method on a class whose fields are
the state: `Db.Database` for the server tables and `UploadAgent.Agent` for
the agent. Each such method is proved equal to a pure function of the old
state (`PostXml` to `Ingest`, `EvaluateAlertsForShift` to `EvaluateSpec`,
`ProcessFile` to `Process`). The lemmas are stated about those functions.
Loops in the source (the key search, the department scan, the daily
tallies, the best-day scan, the retry loop, the tree walks) are methods
with loop invariants. Each is proved equal to a recursive specification
function.

Behaviour of the code a reader might not expect:

- The alert engine's history query does not exclude the shift being
  evaluated, so that shift is in its own baseline. With three earlier $1000
  shifts of the same weekday and a $650 shift, the mean is $912.50 and no dip
  alert fires (`AlertEngine.OwnShiftInBaseline`). Against a baseline of four
  $1000 shifts, $650 fires and $750 does not
  (`AlertEngine.DipAgainstFourPrior`); a baseline of four earlier shifts
  arises only when the evaluated shift is not among the four newest of its
  weekday.
- A repeated upload sets the stored row's status to DUPLICATE whatever it
  was before, PARSED included. The status therefore does change again after
  leaving RECEIVED (`IngestGateway.IngestDuplicate`).
- An upload that cannot be parsed does not update the device's
  `lastSeenAt` (`IngestGateway.IngestUnparsed`).
- The de-duplication check runs in the handler and reads the first
  matching row. It is not a storage constraint.
- The handler calls `parseXmlGateway` outside any `try`. When it throws,
  the request gets no response and the upload's row stays RECEIVED
  (`IngestGateway.IngestAborted`, `IngestGateway.IngestSettles`). A retry
  of the same content is then answered DUPLICATE, so that content is never
  parsed (`IngestGateway.SecondUploadIsDuplicate`).
- `findAllKeyValues` throws on a string-valued property named like a member
  of `Object.prototype` (`toString`, `constructor`, ...). `results[key] || []`
  then yields the inherited function, and spreading it throws a TypeError.
  A report with such an attribute or element is therefore never extracted
  (`XmlTree.RecordIff`, `XmlExtractor.ToStringAttributeThrows`).
- The extractor reports "no record" only when all three sales figures are
  0. A report whose only figure is a refund or a void count is still no
  record (`XmlExtractor.ExtractShiftNullIff`).
- The highest-day query has no upper bound, so shifts dated in the year
  10000 or later are selected. Two such shifts of 1 and 2 January 10000, of
  $10 and $20, share the key `+010000-01`, and the answer names that key
  with $30 (`ChatIntent.ExpandedYearSharesKey`).
- `customerCount` is absent when it rounds to 0, not only when it cannot be
  found (`XmlExtractor.ExtractShiftCustomerCount`).

Modelling choices:

- Amounts are `real`. Parsing a numeral gives its exact value.
- Instants are integers in epoch milliseconds.
- Row ids are natural numbers drawn from one counter (`nextId`) shared by
  every table. Prisma's ids are generated strings; the model relies only on
  their being fresh and distinct, which the counter guarantees.
- The agent's `maxAttempts` and delays are read as a whole number of
  attempts and exact milliseconds; a fractional `maxAttempts` from the
  configuration file is not modelled.
- The chat route reads times as UTC. A shift's day key is
  `toISOString().slice(0, 10)`: for the years 0000 to 9999 that is the UTC
  date, one key per day. Outside them `toISOString` writes an expanded
  six-digit year (`+010000-01-01T...`), so the ten characters name only the
  year and the month, and every shift of that month shares one key
  (`ChatIntent.DayKey` has a `YearMonth` case for it). The calendar date
  comes from the proleptic Gregorian conversion `CivilOf`.
  A shift without a start time gets the key "unknown" (`NoDate`), but no
  window selects it, because `startAt: { gte }` excludes null start times.
- Every Prisma query is a filter over the table `seq`. `findFirst` returns
  the first row in table order, and `orderBy` is a stable sort (ties stay
  in table order).
- Answer texts are an `Answer` datatype holding the numbers that the
  template would print.
- Each function the core calls but does not define is a parameter:
  - the markup parser (`Env.parseDocument`, where `None` stands for a
    thrown error);
  - the date parser (`dateOf`);
  - the device-key digest (`Env.hash`);
  - the clock (`Env.now`, `now`);
  - `Math.random` (`jitter`);
  - the upload call (`call`, where `None` stands for a thrown error);
  - the file system's answers (`FileObservation`).

## Model

| member | source | states |
|---|---|---|
| Common.Lower | backend/api/src/routes/chat.ts:9 | lower-casing keeps the length and maps every character through the ASCII case fold |
| Common.LowerIdempotent | apps/api/src/parsers/xmlParser.ts:65 | lower-casing a lower-cased string changes nothing |
| Common.LowerOfLowerCase | backend/api/src/routes/chat.ts:9 | a string without capitals is its own lower-case form |
| Common.IndexOf | backend/api/src/routes/ingest.ts:21 | a found position leaves room for the whole needle |
| Common.IndexOfFirst | backend/api/src/routes/ingest.ts:21 | `indexOf` returns the first position where the needle occurs, and "none" only when it occurs nowhere |
| Common.ContainsAt | backend/api/src/routes/chat.ts:10-14 | an occurrence at a known position makes `includes` true |
| Common.NotContainsByChar | backend/api/src/routes/chat.ts:10-14 | a needle with a character the text lacks is not included |
| Common.NatToString | apps/api/src/services/alerts.ts:37 | `String(n)` is a non-empty digit string without a leading zero |
| Common.NatToStringRoundTrip | apps/api/src/services/alerts.ts:37 | reading back `String(n)` gives `n` |
| Common.SumAppend | backend/api/src/routes/chat.ts:99-100 | the sum of a concatenation is the sum of the sums |
| Db.FindShift | apps/api/src/services/alerts.ts:19-22 | `findUnique` by id returns a row with that id, and nothing exactly when no row has it |
| Db.NewAlerts | apps/api/src/services/alerts.ts:5-14 | the created rows are the inputs in order, with consecutive ids and the creation time |
| Db.Database.constructor | apps/api/src/services/alerts.ts:13 | the database starts with the given tables |
| Db.Database.CreateAlert | apps/api/src/services/alerts.ts:5-14 | `prisma.alert.create` appends one alert with the next id and leaves every other table unchanged |
| Db.AddAlertsSnoc | apps/api/src/services/alerts.ts:5-14 | creating alerts one more at a time appends one row with the next id |
| XmlTree.FindAllStrings | apps/api/src/parsers/xmlParser.ts:29-38 | the method appends to `results` exactly the specification's depth-first list of text leaves |
| XmlTree.AllStrings | apps/api/src/parsers/xmlParser.ts:29-38 | the depth-first list of text leaves that `findAllStrings` builds; `AllStringsAreLeaves` and `AllStringsLength` state that it holds each leaf once |
| XmlTree.AllStringsAreLeaves | apps/api/src/parsers/xmlParser.ts:29-38 | a string is collected if and only if it is a text leaf of the tree |
| XmlTree.ItemsStringsAreLeaves | apps/api/src/parsers/xmlParser.ts:32-33 | the strings of an array are exactly the leaves of its elements |
| XmlTree.EntriesStringsAreLeaves | apps/api/src/parsers/xmlParser.ts:34-35 | the strings of an object are exactly the leaves of its values |
| XmlTree.AllStringsLength | apps/api/src/parsers/xmlParser.ts:29-38 | one string is collected per text leaf, so none is lost or repeated |
| XmlTree.ItemsStringsLength | apps/api/src/parsers/xmlParser.ts:32-33 | an array contributes one string per leaf |
| XmlTree.EntriesStringsLength | apps/api/src/parsers/xmlParser.ts:34-35 | an object contributes one string per leaf |
| XmlTree.ItemsLeafCountSnoc | apps/api/src/parsers/xmlParser.ts:33 | one more element adds its leaves to the count |
| XmlTree.EntriesLeafCountSnoc | apps/api/src/parsers/xmlParser.ts:35 | one more entry adds its leaves to the count |
| XmlTree.FirstIndexAppend | apps/api/src/parsers/xmlParser.ts:44 | a new key added at the end is found there, and other keys stay where they were |
| XmlTree.Insert | apps/api/src/parsers/xmlParser.ts:44 | `results[key] = [...(results[key] \|\| []), entry]` appends the text to that key only, keeps keys distinct, and adds the key at the end when it is new |
| XmlTree.BuildAppend | apps/api/src/parsers/xmlParser.ts:40-53 | recording two runs of pairs in turn is recording their concatenation |
| XmlTree.Build | apps/api/src/parsers/xmlParser.ts:40-53 | recording pairs in order with `Insert`; `BuildValues` and `BuildKeys` state what it leaves under each key |
| XmlTree.FlatOf | apps/api/src/parsers/xmlParser.ts:93 | `findAllKeyValues(parsed)` on a fresh `{}` when it does not throw, by `RecordIff` |
| XmlTree.Pairs | apps/api/src/parsers/xmlParser.ts:40-53 | the (key, text) pairs `findAllKeyValues` meets, in walk order; `RecordIff` and `BuildValues` state what recording them gives |
| XmlTree.InheritedKey | apps/api/src/parsers/xmlParser.ts:44 | the names every plain object inherits from Object.prototype |
| XmlTree.TryInsert | apps/api/src/parsers/xmlParser.ts:44 | one insertion as JavaScript runs it; `TryInsertOwn` states when it throws |
| XmlTree.Record | apps/api/src/parsers/xmlParser.ts:40-53 | recording the pairs in order, stopping at the first throw; `RecordIff` states it |
| XmlTree.RecordIff | apps/api/src/parsers/xmlParser.ts:40-53 | from an object with no inherited names as own keys (the fresh `{}` included), the walk throws exactly when some recorded key is a name inherited from Object.prototype (`toString`, `constructor`, ...), and otherwise builds the multimap of all the pairs |
| XmlTree.RecordAppend | apps/api/src/parsers/xmlParser.ts:44 | recording two runs of pairs is recording the first and then, unless it threw, the second |
| XmlTree.RecordThrownPrefix | apps/api/src/parsers/xmlParser.ts:44 | once an insertion throws, the rest of the walk does not run |
| XmlTree.TryInsertOwn | apps/api/src/parsers/xmlParser.ts:44 | on an object without inherited names as own keys, an insertion throws exactly when the key is an inherited name, and otherwise keeps that property |
| XmlTree.FindAllKeyValues | apps/api/src/parsers/xmlParser.ts:40-53 | the recursive walk gives exactly `Record` of the specification's list of (key, text) pairs on `results`: the multimap it builds, or none when an insertion throws, stopping at the first that does |
| XmlTree.RecordEntry | apps/api/src/parsers/xmlParser.ts:43-49 | one object entry records a string under its key (or throws), walks array children and nested objects, and ignores anything else, as `Record` of that entry's pairs says |
| XmlTree.BuildValues | apps/api/src/parsers/xmlParser.ts:40-53 | the values under a key are the old values followed by that key's texts in document order |
| XmlTree.BuildKeys | apps/api/src/parsers/xmlParser.ts:40-53 | keys stay distinct, keep their first-insertion order, and are exactly the old keys plus the keys met |
| XmlTree.ArrayTextsNotRecorded | apps/api/src/parsers/xmlParser.ts:45-46 | texts that are direct elements of an array are not recorded, since the walk only records string entries of objects |
| NumberText.Clean | apps/api/src/parsers/xmlParser.ts:58 | the output is no longer than the input and holds only digits, points and minus signs; with `CleanChar`, `CleanAppend` and `CleanMembers` it is the in-order filter that keeps every such character |
| NumberText.CleanChar | apps/api/src/parsers/xmlParser.ts:58 | one character survives exactly when it is a digit, a point or a minus sign |
| NumberText.CleanAppend | apps/api/src/parsers/xmlParser.ts:58 | the filter works character by character in order: cleaning a concatenation concatenates the cleaned parts |
| NumberText.CleanMembers | apps/api/src/parsers/xmlParser.ts:58 | a character is in the result exactly when it is in the input and kept, so no kept character is dropped |
| NumberText.Scan | apps/api/src/parsers/xmlParser.ts:59 | the decimal literals `Number()` accepts on filtered text; `ScanSound` and `ScanRender` make it a round trip with `Render` |
| NumberText.ParseNumber | apps/api/src/parsers/xmlParser.ts:59-60 | `Number(cleaned)`: "" reads as 0, a literal as its value, anything else as NaN (none) |
| NumberText.ToNumber | apps/api/src/parsers/xmlParser.ts:55-61 | `toNumber`; `ToNumberFiniteIff` states when it is the reading and when the fallback |
| NumberText.CleanKeepsKept | apps/api/src/parsers/xmlParser.ts:58 | a string of kept characters passes through unchanged |
| NumberText.CleanDropsAll | apps/api/src/parsers/xmlParser.ts:58 | a string without kept characters becomes "" |
| NumberText.ScanSound | apps/api/src/parsers/xmlParser.ts:59 | whatever `Number()` accepts is a well-formed decimal literal that renders back to the text |
| NumberText.ScanRender | apps/api/src/parsers/xmlParser.ts:59 | every well-formed decimal literal is accepted and read as itself (round trip) |
| NumberText.SplitAtPointRenders | apps/api/src/parsers/xmlParser.ts:59 | splitting at the first point and rendering gives back the text |
| NumberText.SplitRendered | apps/api/src/parsers/xmlParser.ts:59 | rendering a literal and splitting it gives back the literal |
| NumberText.IndexOfPoint | apps/api/src/parsers/xmlParser.ts:59 | the first point is found at its position |
| NumberText.IndexOfNoPoint | apps/api/src/parsers/xmlParser.ts:59 | a text without a point has none |
| NumberText.ToNumberTrivialCases | apps/api/src/parsers/xmlParser.ts:55-57 | a number passes through; an absent or empty string gives the fallback |
| NumberText.ToNumberOfLiteral | apps/api/src/parsers/xmlParser.ts:55-61 | a string whose filtered text is a literal reads as that literal's value |
| NumberText.ToNumberFiniteIff | apps/api/src/parsers/xmlParser.ts:58-60 | the result is finite if and only if the filtered text is empty or a decimal literal, and then it is that literal's value; otherwise it is the fallback |
| NumberText.ToNumberCurrency | apps/api/src/parsers/xmlParser.ts:58-60 | "$1,234.50" reads as 1234.5 |
| NumberText.CleanSample | apps/api/src/parsers/xmlParser.ts:58 | "$1,234.50" filters to "1234.50" |
| NumberText.ToNumberInnerMinus | apps/api/src/parsers/xmlParser.ts:59-60 | a minus sign that is not leading gives the fallback |
| NumberText.ToNumberTwoPoints | apps/api/src/parsers/xmlParser.ts:59-60 | a second decimal point gives the fallback |
| NumberText.ToNumberLoneMinus | apps/api/src/parsers/xmlParser.ts:59-60 | a lone "-" gives the fallback |
| NumberText.ToNumberNothingKept | apps/api/src/parsers/xmlParser.ts:57-60 | a non-empty string with nothing kept reads as 0, not as the fallback |
| NumberText.ToNumberOfNatText | apps/api/src/parsers/xmlParser.ts:55-61 | the decimal text of a natural reads as that natural |
| XmlExtractor.FirstMatch | apps/api/src/parsers/xmlParser.ts:65 | `find` returns the first key that contains the fragment, ignoring case, and nothing when no key does |
| XmlExtractor.KeyMatches | apps/api/src/parsers/xmlParser.ts:65 | `k.toLowerCase().includes(key.toLowerCase())`; `KeyMatchesIgnoresCase` states that the fragment's case does not matter |
| XmlExtractor.FirstNonEmpty | apps/api/src/parsers/xmlParser.ts:67 | `find(Boolean)` returns the first non-empty value, and nothing exactly when all values are empty |
| XmlExtractor.NumberByKeys | apps/api/src/parsers/xmlParser.ts:63-72 | the result is 0 or the reading of some non-empty value in the multimap |
| XmlExtractor.StringByKeys | apps/api/src/parsers/xmlParser.ts:74-82 | a result is a non-empty value of some key |
| XmlExtractor.FindNumberByKeys | apps/api/src/parsers/xmlParser.ts:63-72 | the loop with its early return computes `NumberByKeys` |
| XmlExtractor.FindStringByKeys | apps/api/src/parsers/xmlParser.ts:74-82 | the loop with its early return computes `StringByKeys` |
| XmlExtractor.NumberByKeysChosen | apps/api/src/parsers/xmlParser.ts:63-72 | the first fragment whose matching key has a non-empty value decides the number; fragments before it are skipped |
| XmlExtractor.NumberByKeysDefault | apps/api/src/parsers/xmlParser.ts:71 | when no fragment decides, the result is 0 |
| XmlExtractor.StringByKeysChosen | apps/api/src/parsers/xmlParser.ts:74-82 | the first fragment that matches a key decides, even when that key's values are all empty |
| XmlExtractor.StringByKeysDefault | apps/api/src/parsers/xmlParser.ts:81 | when no fragment matches, the result is absent |
| XmlExtractor.KeyMatchesIgnoresCase | apps/api/src/parsers/xmlParser.ts:65 | key matching does not depend on the fragment's case |
| XmlExtractor.Round | apps/api/src/parsers/xmlParser.ts:105 | `Math.round` gives the integer within one half, with halves rounded up |
| XmlExtractor.RoundHalves | apps/api/src/parsers/xmlParser.ts:105 | 2.5 rounds to 3, -2.5 to -2, 0.49 to 0 |
| XmlExtractor.ParseDate | apps/api/src/parsers/xmlParser.ts:84-89 | absent or empty text gives no date; otherwise the date parser's answer, where none stands for an invalid date |
| XmlExtractor.DepartmentsBefore | apps/api/src/parsers/xmlParser.ts:114-120 | after `n` steps at most `n` entries were pushed |
| XmlExtractor.IsDepartmentName | apps/api/src/parsers/xmlParser.ts:117 | the case-insensitive test for "dept", "department", "category" or "sales"; `SnacksIsDepartment`, `NoDepartmentLetters` and the other example lemmas pin it down |
| XmlExtractor.Departments | apps/api/src/parsers/xmlParser.ts:111-120 | the department entries of adjacent string pairs; `DepartmentsIff` states exactly which pairs give one |
| XmlExtractor.InferDepartments | apps/api/src/parsers/xmlParser.ts:111-120 | the loop over adjacent strings pushes exactly the specification's entries |
| XmlExtractor.DepartmentsBeforeStep | apps/api/src/parsers/xmlParser.ts:114-119 | each step appends the pair at `i` when its name is department-like and the next string reads as finite |
| XmlExtractor.DepartmentsBeforeSound | apps/api/src/parsers/xmlParser.ts:114-119 | every entry comes from a department-like string followed by a finite reading |
| XmlExtractor.DepartmentsBeforeComplete | apps/api/src/parsers/xmlParser.ts:114-119 | every such pair before step `n` is recorded |
| XmlExtractor.DepartmentsSound | apps/api/src/parsers/xmlParser.ts:111-120 | every department entry is a department-like string followed by the finite reading of the next string |
| XmlExtractor.DepartmentsComplete | apps/api/src/parsers/xmlParser.ts:111-120 | every department-like string followed by a finite reading gives an entry |
| XmlExtractor.DepartmentsIff | apps/api/src/parsers/xmlParser.ts:111-120 | an entry is produced if and only if such an adjacent pair exists |
| XmlExtractor.DepartmentLabelThenWord | apps/api/src/parsers/xmlParser.ts:116-117 | a label followed by a word gives an entry of 0, because a string with nothing kept reads as 0 |
| XmlExtractor.SnacksExample | apps/api/src/parsers/xmlParser.ts:111-120 | `["Department Snacks", "42.50", "Unrelated", "xyz"]` gives exactly one entry, ("Department Snacks", 42.5) |
| XmlExtractor.AmountOf4250 | apps/api/src/parsers/xmlParser.ts:116 | "42.50" reads as 42.5 |
| XmlExtractor.SnacksIsDepartment | apps/api/src/parsers/xmlParser.ts:117 | "Department Snacks" matches the department pattern |
| XmlExtractor.NoDepartmentLetters | apps/api/src/parsers/xmlParser.ts:117 | a name without p, c and s matches none of dept, department, category, sales |
| XmlExtractor.NumberIsNoDepartment | apps/api/src/parsers/xmlParser.ts:117 | "42.50" is not department-like |
| XmlExtractor.UnrelatedIsNoDepartment | apps/api/src/parsers/xmlParser.ts:117 | "Unrelated" is not department-like |
| XmlExtractor.ExtractShift | apps/api/src/parsers/xmlParser.ts:91-143 | a record never has a customer count of 0, and all its department names are department-like; `ExtractShiftFields` states every field |
| XmlExtractor.Gateway | apps/api/src/parsers/xmlParser.ts:91-93 | parseXmlGateway throws exactly when the parser throws or some string-valued property of the tree has a name inherited from Object.prototype; otherwise it gives `ExtractShift` of the tree |
| XmlExtractor.ParseXmlGateway | apps/api/src/parsers/xmlParser.ts:91-143 | the method, with its loops, returns exactly `Gateway`: it throws where the parser or `findAllKeyValues` throws, and otherwise returns `ExtractShift` of the parsed tree |
| XmlExtractor.ExtractShiftNullIff | apps/api/src/parsers/xmlParser.ts:122-124 | there is no record if and only if total, fuel and inside sales all read 0 |
| XmlExtractor.ExtractShiftFields | apps/api/src/parsers/xmlParser.ts:94-139 | every field of a record is the reading of its own key list: the sales, refund, discount, tax and cash-short figures by `findNumberByKeys`, the void count rounded, the customer count rounded when non-zero, the departments inferred from all strings, the register, operator and report type by `findStringByKeys`, the times parsed from the start and end strings |
| XmlExtractor.ExtractShiftOfBareText | apps/api/src/parsers/xmlParser.ts:92-93 | a document that parses to bare text has no keys and gives no record |
| XmlExtractor.ExtractShiftCustomerCount | apps/api/src/parsers/xmlParser.ts:108 | the customer count is absent if and only if the rounded reading is 0 |
| XmlExtractor.ExtractShiftDates | apps/api/src/parsers/xmlParser.ts:98-99 | a start or end time is present only if a start or end key was found |
| XmlExtractor.ToStringAttributeThrows | apps/api/src/parsers/xmlParser.ts:44 | `<Shift toString="x"><TotalSales>10</TotalSales></Shift>` makes the gateway throw although it carries a total |
| AlertEngine.UtcWeekday | apps/api/src/services/alerts.ts:69 | `getUTCDay` is in 0..6 |
| AlertEngine.UtcWeekdayCycle | apps/api/src/services/alerts.ts:69 | the epoch was a Thursday; the weekday advances by one per day and repeats every week |
| AlertEngine.Anchor | apps/api/src/services/alerts.ts:68 | `shift.startAt ?? shift.createdAt`; `Baseline` states its use |
| AlertEngine.InsertNewest | apps/api/src/services/alerts.ts:75 | inserting keeps the list newest first and adds exactly the one shift |
| AlertEngine.NewestCons | apps/api/src/services/alerts.ts:75 | a shift no older than every listed one can go in front |
| AlertEngine.SortNewestFirst | apps/api/src/services/alerts.ts:75 | `orderBy: { startAt: "desc" }` is newest first and a permutation |
| AlertEngine.StoreDated | apps/api/src/services/alerts.ts:70-74 | the query selects exactly the store's shifts that have a start time |
| AlertEngine.Take | apps/api/src/services/alerts.ts:76 | `take`/`slice` keeps a prefix of length min(n, size) |
| AlertEngine.RecentShifts | apps/api/src/services/alerts.ts:70-77 | the history query: the store's dated shifts, newest first, at most 40; `RecentShiftsSpec` states it |
| AlertEngine.RecentShiftsSpec | apps/api/src/services/alerts.ts:70-77 | exactly min(40, n) of the store's n dated shifts, all of them the store's and dated, newest first; all of them (as a multiset) when fewer than 40; and any dated shift of the store left out is no newer than every one kept |
| AlertEngine.SameWeekday | apps/api/src/services/alerts.ts:79 | the filter keeps only dated shifts on the weekday and is no longer than its input |
| AlertEngine.SameWeekdayKeepsAll | apps/api/src/services/alerts.ts:79 | a history whose shifts are all dated and on the weekday passes the filter whole |
| AlertEngine.SameWeekdayFilter | apps/api/src/services/alerts.ts:79 | a shift passes the filter exactly when it is in the history, dated and on the weekday; the filter keeps newest-first order |
| AlertEngine.BaselineNewest | apps/api/src/services/alerts.ts:79-80 | from a newest-first history, a weekday shift left out of the baseline is no newer than any of the four kept |
| AlertEngine.Baseline | apps/api/src/services/alerts.ts:68-80 | at most four shifts, all from the history and on the evaluated shift's weekday (its start, or its creation time); a weekday shift of the history is left out only when four are kept; newest first when the history is |
| AlertEngine.Mean | apps/api/src/services/alerts.ts:81-83 | the mean times the number of shifts is the sum of their totals |
| AlertEngine.HighVoidsFires | apps/api/src/services/alerts.ts:29 | the void-count condition; `RuleAlertsIff` states that it decides the HighVoids alert |
| AlertEngine.ZeroInsideFires | apps/api/src/services/alerts.ts:42 | the zero-inside-sales condition; `RuleAlertsIff` states its alert |
| AlertEngine.RefundsFires | apps/api/src/services/alerts.ts:55 | the refunds condition; `RuleAlertsIff` states its alert |
| AlertEngine.DipFires | apps/api/src/services/alerts.ts:81-84 | at least three baseline shifts and a total below 70% of their mean; `DipIsStrict`, `DipNeedsThree` and `RuleAlertsIff` state it |
| AlertEngine.VoidsAlert | apps/api/src/services/alerts.ts:29-40 | at most one HighVoids alert, raised as critical exactly when the void count is at least 5 |
| AlertEngine.ZeroInsideAlert | apps/api/src/services/alerts.ts:42-53 | at most one ZeroInsideSales alert, raised as warn exactly when inside sales are 0 and total sales positive |
| AlertEngine.RefundsAlert | apps/api/src/services/alerts.ts:55-66 | at most one Refunds alert, raised as info exactly when refunds are positive |
| AlertEngine.DipAlert | apps/api/src/services/alerts.ts:81-96 | at most one LowSalesDrop alert, raised as warn exactly when at least three baseline shifts exist and the total is below 70% of their mean |
| AlertEngine.RuleAlerts | apps/api/src/services/alerts.ts:29-98 | at most four alerts, all for this shift and store |
| AlertEngine.ShiftAlerts | apps/api/src/services/alerts.ts:29-96 | the rule alerts against the baseline drawn from the history; `RuleAlertsIff` states them |
| AlertEngine.RankedGroups | apps/api/src/services/alerts.ts:29-96 | concatenating at most one alert per rule, in rule order, gives alerts in strict rule order |
| AlertEngine.RaisedInGroups | apps/api/src/services/alerts.ts:29-96 | an alert is among the concatenation exactly when it is among one of the parts |
| AlertEngine.RuleAlertsOrdered | apps/api/src/services/alerts.ts:29-98 | the alerts come in rule order, at most one per kind |
| AlertEngine.RuleAlertsIff | apps/api/src/services/alerts.ts:29-96 | each rule fires, with its severity, if and only if its condition holds, independently of the others; no cash-short alert comes from here |
| AlertEngine.HighVoidsThreshold | apps/api/src/services/alerts.ts:29-40 | 5 voids give a HighVoids alert first, with severity critical; 4 voids give none |
| AlertEngine.DipIsStrict | apps/api/src/services/alerts.ts:84 | exactly 70% of the mean does not fire |
| AlertEngine.DipNeedsThree | apps/api/src/services/alerts.ts:81 | fewer than three baseline shifts never fire |
| AlertEngine.SumOfFour | apps/api/src/services/alerts.ts:83 | the reduce over four shifts adds their totals |
| AlertEngine.DipAgainstFourPrior | apps/api/src/services/alerts.ts:81-96 | against four $1000 shifts, $650 fires and $750 does not |
| AlertEngine.OwnShiftInBaseline | apps/api/src/services/alerts.ts:68-96 | with three older $1000 shifts, a $650 shift is its own newest baseline entry and no dip fires |
| AlertEngine.EvaluateUnknownShift | apps/api/src/services/alerts.ts:23 | an unknown shift id raises nothing |
| AlertEngine.EvaluateSpec | apps/api/src/services/alerts.ts:18-98 | the alerts `evaluateAlertsForShift` creates; `RuleAlertsIff` and `RuleAlertsOrdered` state which and in what order |
| AlertEngine.CreateAlert | apps/api/src/services/alerts.ts:5-14 | one alert is created with the next id, and the tables are the old ones plus that alert |
| AlertEngine.PushAlert | apps/api/src/services/alerts.ts:30-39 | `alerts.push(createAlert(...))` creates one more alert after those already created |
| AlertEngine.PushIf | apps/api/src/services/alerts.ts:29-66 | a rule that fires creates its alert after those already created; otherwise nothing changes |
| AlertEngine.PushDip | apps/api/src/services/alerts.ts:81-96 | the dip rule creates exactly `DipAlert`'s alerts |
| AlertEngine.EvaluateAlertsForShift | apps/api/src/services/alerts.ts:18-99 | the alerts created, and the new tables, are those of `EvaluateSpec` on the old tables |
| IngestGateway.CredentialOfBearer | backend/api/src/routes/ingest.ts:21 | "Bearer k" gives k; a missing header gives "" |
| IngestGateway.Credential | backend/api/src/routes/ingest.ts:21 | the device key read from the header; `CredentialOfBearer` and its neighbours state what it gives |
| IngestGateway.CredentialWithoutBearer | backend/api/src/routes/ingest.ts:21 | a header without the prefix is used whole |
| IngestGateway.ReplaceFirstAt | backend/api/src/routes/ingest.ts:21 | `replace` with a string pattern removes only the first occurrence |
| IngestGateway.ReplaceFirst | backend/api/src/routes/ingest.ts:21 | `replace` with a string pattern; `ReplaceFirstAt` states it |
| IngestGateway.CredentialRemovesInnerBearer | backend/api/src/routes/ingest.ts:21 | "Token Bearer k" gives "Token k", since the prefix is removed wherever it first occurs |
| IngestGateway.FindDevice | backend/api/src/routes/ingest.ts:31-33 | the first device of the store (with the given id, when one is sent), and none exactly when none matches |
| IngestGateway.FindRawFile | backend/api/src/routes/ingest.ts:43-45 | the first upload with the same store and hash, and none exactly when none exists |
| IngestGateway.FieldsPresent | backend/api/src/routes/ingest.ts:26-27 | store id, filename and hash are non-empty and a file was sent |
| IngestGateway.Admit | backend/api/src/routes/ingest.ts:21-41 | an admitted request names an existing device row |
| IngestGateway.DeptRows | backend/api/src/routes/ingest.ts:99-107 | one row per extracted department, in order, each with the next fresh id, the shift's id, the department's name and its amount |
| IngestGateway.MarkDuplicate | backend/api/src/routes/ingest.ts:47-50 | the DUPLICATE update of one row; `IngestDuplicate` states its effect |
| IngestGateway.ReceivedRow | backend/api/src/routes/ingest.ts:55-65 | the created row in status RECEIVED; `FirstRow` states what is stored |
| IngestGateway.MarkError | backend/api/src/routes/ingest.ts:69-76 | the ERROR update with its time and message; `IngestUnparsed` states its effect |
| IngestGateway.ShiftRow | backend/api/src/routes/ingest.ts:80-97 | the shift row built from the parsed record; `IngestParsed` states what is stored |
| IngestGateway.CashShortAlerts | backend/api/src/routes/ingest.ts:109-118 | a warn CashShort alert when the parsed shortage is positive, otherwise none; `FinishEffect` states its place among the rows written |
| IngestGateway.ReportTypeOrNull | backend/api/src/routes/ingest.ts:127 | `parsed.reportType \|\| null` |
| IngestGateway.MarkParsed | backend/api/src/routes/ingest.ts:122-129 | the PARSED update with its time and report type; `ReceivedThenFinish` states its effect |
| IngestGateway.TouchDevice | backend/api/src/routes/ingest.ts:131-134 | the device's `lastSeenAt` update; `FirstRow` states that only that field of the devices changes |
| IngestGateway.Authenticate | backend/api/src/routes/ingest.ts:21-41 | the checks run in order and give `Admit`'s verdict without writing anything |
| IngestGateway.StoreShift | backend/api/src/routes/ingest.ts:80-118 | the shift row, its department rows and any cash-short alert are added as `WithShift` says |
| IngestGateway.CompleteUpload | backend/api/src/routes/ingest.ts:80-134 | after a successful parse the tables become `Complete` of the old ones |
| IngestGateway.StoreNew | backend/api/src/routes/ingest.ts:54-136 | a new upload ends as `IngestNew` says: the RECEIVED row, then the ERROR update, the PARSED path, or no response when the gateway throws |
| IngestGateway.PostXml | backend/api/src/routes/ingest.ts:20-137 | the handler's response and new tables are those of `Ingest` on the old tables, a thrown parse included |
| IngestGateway.Ingest | backend/api/src/routes/ingest.ts:20-137 | the handler as a function of the old tables; `IngestRejects`, `IngestDuplicate`, `IngestUnparsed`, `IngestAborted` and `IngestParsed` state each path |
| IngestGateway.IngestNew | backend/api/src/routes/ingest.ts:54-136 | the path of an upload of unseen content |
| IngestGateway.IngestRejects | backend/api/src/routes/ingest.ts:21-41 | a request is rejected exactly when a check fails, and then nothing changes; in order: no key gives 401 "Missing device API key", a missing store, filename, hash or file gives 400, no matching device gives 401 "Invalid device", a key whose digest differs gives 401 "Invalid device key" |
| IngestGateway.IngestDuplicate | backend/api/src/routes/ingest.ts:43-52 | a repeated upload returns the stored row's id and marks only that row DUPLICATE |
| IngestGateway.IngestUnparsed | backend/api/src/routes/ingest.ts:54-78 | an unparseable upload adds one row in status ERROR with its parse time and message, and nothing else |
| IngestGateway.IngestAborted | backend/api/src/routes/ingest.ts:67 | a new upload on which parseXmlGateway throws keeps its RECEIVED row, gets no response, and writes nothing else, not even the device's `lastSeenAt` |
| IngestGateway.AddAlertsAppend | backend/api/src/routes/ingest.ts:109-120 | creating two runs of alerts is creating their concatenation |
| IngestGateway.IngestOfNew | backend/api/src/routes/ingest.ts:43-54 | a request that passes the checks with unseen content takes the new-upload path |
| IngestGateway.IngestNewParsed | backend/api/src/routes/ingest.ts:54-136 | a parsed new upload stores RECEIVED, then completes, and is accepted as parsed |
| IngestGateway.FinishEffect | backend/api/src/routes/ingest.ts:80-134 | the exact rows written after a parse: upload PARSED, shift, department rows, cash-short and rule alerts, device seen |
| IngestGateway.ReceivedThenFinish | backend/api/src/routes/ingest.ts:54-134 | the RECEIVED row written first is then overwritten by its PARSED form |
| IngestGateway.UpdateLast | backend/api/src/routes/ingest.ts:122-129 | updating the row just appended replaces it |
| IngestGateway.IngestParsed | backend/api/src/routes/ingest.ts:54-136 | a parsed new upload adds exactly one PARSED upload, one shift with the next id, its department rows, then the cash-short alert and the rule alerts, and marks the device seen |
| IngestGateway.IngestParsedOutcome | backend/api/src/routes/ingest.ts:54-136 | the parsed path is the RECEIVED row followed by `Finish` with the rules evaluated on the new shift |
| IngestGateway.CompleteAfterReceived | backend/api/src/routes/ingest.ts:80-134 | completing after the RECEIVED row evaluates the rules on the just-stored shift |
| IngestGateway.CompleteUnfold | backend/api/src/routes/ingest.ts:80-134 | `Complete` is `Finish` with the rules evaluated on the stored shift |
| IngestGateway.HasRawFileKept | backend/api/src/routes/ingest.ts:95 | a raw-file reference stays valid when rows keep their ids and more are added |
| IngestGateway.Valid | backend/api/src/routes/ingest.ts:43-65 | the invariant the de-duplication lookup and the id counter rely on; `IngestKeepsValid` states that every request keeps it |
| IngestGateway.DuplicateKeepsValid | backend/api/src/routes/ingest.ts:46-51 | marking a duplicate keeps the table invariant |
| IngestGateway.AppendRowKeepsFiles | backend/api/src/routes/ingest.ts:55-65 | appending a row of unseen content with the next id keeps (store, hash) unique and every id below the counter, whatever the row's status |
| IngestGateway.IngestKeepsValid | backend/api/src/routes/ingest.ts:20-137 | every request, a thrown parse included, keeps the invariant: ids below the counter, (store, hash) unique per store, every shift's source upload exists |
| IngestGateway.AbortedKeepsValid | backend/api/src/routes/ingest.ts:54-67 | the tables a thrown parse leaves behind are valid |
| IngestGateway.IngestSettles | backend/api/src/routes/ingest.ts:20-137 | starting with no row RECEIVED, a request leaves none exactly when it gets a response; a thrown parse leaves its new row RECEIVED |
| IngestGateway.UnparsedKeepsValid | backend/api/src/routes/ingest.ts:67-78 | the ERROR path keeps the invariant |
| IngestGateway.ParsedKeepsValid | backend/api/src/routes/ingest.ts:80-136 | the PARSED path keeps the invariant |
| IngestGateway.FindDeviceIgnoresLastSeen | backend/api/src/routes/ingest.ts:31-33 | the device lookup does not depend on `lastSeenAt` |
| IngestGateway.FindAppendedRow | backend/api/src/routes/ingest.ts:43-45 | the lookup finds a just-added upload of unseen content |
| IngestGateway.AdmitAgain | backend/api/src/routes/ingest.ts:21-41 | a request admitted once is admitted again after only `lastSeenAt` changed |
| IngestGateway.SecondUploadIsDuplicate | backend/api/src/routes/ingest.ts:43-52 | sending again an upload that was accepted, or whose parse threw, reports a duplicate of the first row and adds no upload, shift, department row or alert; content whose parse threw is never parsed again |
| IngestGateway.FirstRow | backend/api/src/routes/ingest.ts:54-65 | a new upload appends exactly one row with its store, hash and the next id, which an accepted response returns; devices change at most in `lastSeenAt` |
| IngestGateway.FirstRowUnparsed | backend/api/src/routes/ingest.ts:67-77 | the same on the ERROR path |
| IngestGateway.FirstRowParsed | backend/api/src/routes/ingest.ts:80-136 | the same on the PARSED path |
| IngestGateway.StoreDatedNone | apps/api/src/services/alerts.ts:70-74 | a store without shifts has no history |
| IngestGateway.OnlyShiftOfStore | apps/api/src/services/alerts.ts:70-77 | the first shift of a store is its only history |
| IngestGateway.FindNewShift | apps/api/src/services/alerts.ts:19-22 | the new shift is found by its id |
| IngestGateway.EvaluateFirstShift | apps/api/src/services/alerts.ts:18-98 | the first shift of a store with many voids, inside sales and no refunds gives exactly one HighVoids alert |
| IngestGateway.VoidsOnly | apps/api/src/services/alerts.ts:29-96 | when only the void rule's condition holds, it is the only alert |
| IngestGateway.HighVoidsScenario | backend/api/src/routes/ingest.ts:54-136 | $500 total, $0 fuel, $500 inside, 6 voids, first shift of its store: the upload is PARSED, one shift with those totals, and exactly one critical HighVoids alert (no dip) |
| UploadAgent.Pow2 | backend/agent/src/index.ts:106 | `2 ** attempt` is at least 1 |
| UploadAgent.Delay | backend/agent/src/index.ts:104-107 | the wait after a failed attempt; `DelayBounds` states its range |
| UploadAgent.RetryFrom | backend/agent/src/index.ts:97-113 | the calls and sleeps of the retry loop; `RetryOutcome`, `RetrySucceedsIff` and `RetrySleeps` state them |
| UploadAgent.Retry | backend/agent/src/index.ts:97-113 | the loop makes the calls and sleeps of `RetryFrom`, and gives up with "Max retry attempts reached" |
| UploadAgent.RetryOutcome | backend/agent/src/index.ts:97-113 | at most `maxAttempts` calls; every call before the last failed; giving up happens only after `maxAttempts` failures |
| UploadAgent.RetrySucceedsIff | backend/agent/src/index.ts:97-113 | the retry succeeds if and only if one of the first `maxAttempts` calls succeeds |
| UploadAgent.RetrySleeps | backend/agent/src/index.ts:103-109 | one sleep after each failed call, of the delay for the incremented attempt |
| UploadAgent.DelayBounds | backend/agent/src/index.ts:104-107 | the delay never exceeds `maxDelayMs`; when below it, it lies in [base·2^k, base·2^k + 500) |
| UploadAgent.DelayExample | backend/agent/src/index.ts:104-107 | with base 1000 and maximum 30000, attempt 5 waits 30000 and attempt 4 waits 16000 plus jitter |
| UploadAgent.Agent.constructor | backend/agent/src/index.ts:141-143 | the agent starts from the loaded ledger with nothing queued |
| UploadAgent.FileStable | backend/agent/src/index.ts:65-70 | a file is stable when its size did not change across the wait |
| UploadAgent.Process | backend/agent/src/index.ts:115-139 | the ledger step of `processFile`; `ProcessGates`, `ProcessRecords` and `NoReupload` state it |
| UploadAgent.LedgerKey | backend/agent/src/index.ts:129 | the ledger key `${filePath}:${sha256}`; `ProcessRecords` and `NoReupload` state its use |
| UploadAgent.Agent.ProcessFile | backend/agent/src/index.ts:115-139 | the ledger becomes `Process`'s, and it is saved exactly after an upload |
| UploadAgent.Agent.HandleFile | backend/agent/src/index.ts:145-151 | a dry run queues nothing; otherwise the file is queued; the ledger is untouched |
| UploadAgent.ProcessGates | backend/agent/src/index.ts:115-133 | too large, not stable, already uploaded: each skip happens exactly under its condition, in that order, and changes nothing |
| UploadAgent.ProcessRecords | backend/agent/src/index.ts:135-137 | a successful upload adds exactly one entry at `path:sha256` with the hash and mtime; a failure adds none |
| UploadAgent.NoReupload | backend/agent/src/index.ts:128-133 | after an upload, the same path with the same content is skipped |
| UploadAgent.ProcessKeepsEntries | backend/agent/src/index.ts:115-139 | the ledger only grows |
| ChatIntent.ClassifyFirstRule | backend/api/src/routes/chat.ts:8-16 | the intent is the first rule, in order, that holds on the lower-cased question; UNKNOWN exactly when none does |
| ChatIntent.ClassifyIntent | backend/api/src/routes/chat.ts:8-16 | `classifyIntent`; `ClassifyFirstRule` and `ClassifyIgnoresCase` state it |
| ChatIntent.ClassifyLowered | backend/api/src/routes/chat.ts:10-15 | the rule chain on the lower-cased question |
| ChatIntent.ClassifyByRules | backend/api/src/routes/chat.ts:8-16 | a rule that holds with no earlier rule holding decides |
| ChatIntent.ClassifyIgnoresCase | backend/api/src/routes/chat.ts:9 | classification does not depend on case |
| ChatIntent.HighestRule | backend/api/src/routes/chat.ts:10 | "highest" and "week" give HIGHEST_DAY_WEEK |
| ChatIntent.WorstRule | backend/api/src/routes/chat.ts:11 | "worst" and "yesterday" give WORST_SHIFT_YESTERDAY unless the first rule applies |
| ChatIntent.CompareRule | backend/api/src/routes/chat.ts:12 | "compare" and "last week" give COMPARE_WEEK_VS_LAST_WEEK unless an earlier rule applies |
| ChatIntent.RefundsRule | backend/api/src/routes/chat.ts:13 | "refund" gives REFUNDS_TODAY unless an earlier rule applies |
| ChatIntent.FuelRule | backend/api/src/routes/chat.ts:14 | "fuel" with "inside" gives FUEL_VS_INSIDE_WEEK unless an earlier rule applies |
| ChatIntent.UnknownRule | backend/api/src/routes/chat.ts:15 | a question that can satisfy no rule is UNKNOWN |
| ChatIntent.FuelAloneIsUnknown | backend/api/src/routes/chat.ts:14 | "fuel sales" alone is UNKNOWN |
| ChatIntent.HighestLabel | packages/shared/src/index.ts:12 | the label "highest day this week" classifies as its intent |
| ChatIntent.WorstLabel | packages/shared/src/index.ts:13 | "worst shift yesterday" classifies as its intent |
| ChatIntent.CompareLabelLower | packages/shared/src/index.ts:14 | the compare label has no capitals |
| ChatIntent.CompareLabelLacks | packages/shared/src/index.ts:14 | the compare label cannot satisfy the first two rules |
| ChatIntent.CompareLabelNeedles | packages/shared/src/index.ts:14 | the compare label contains "compare" and "last week" |
| ChatIntent.CompareLabel | packages/shared/src/index.ts:14 | "compare this week vs last week" classifies as its intent |
| ChatIntent.RefundsLabel | packages/shared/src/index.ts:15 | "any refunds today" classifies as its intent |
| ChatIntent.FuelLabelLower | packages/shared/src/index.ts:16 | the fuel label has no capitals |
| ChatIntent.FuelLabelLacks | packages/shared/src/index.ts:16 | the fuel label cannot satisfy the earlier rules |
| ChatIntent.FuelLabelLacksGo | packages/shared/src/index.ts:16 | the fuel label has no g and no o |
| ChatIntent.FuelLabelLacksCr | packages/shared/src/index.ts:16 | the fuel label has no c and no r |
| ChatIntent.FuelLabelNeedles | packages/shared/src/index.ts:16 | the fuel label contains "fuel" and "inside" |
| ChatIntent.FuelLabel | packages/shared/src/index.ts:16 | "fuel vs inside sales this week" classifies as its intent |
| ChatIntent.Label | packages/shared/src/index.ts:11-18 | the label of each intent; `LabelsClassify` states that each classifies as its intent |
| ChatIntent.LabelsClassify | packages/shared/src/index.ts:11-18 | every intent's label classifies as that intent |
| ChatIntent.Weekday | backend/api/src/routes/chat.ts:19 | `getDay` is in 0..6 |
| ChatIntent.StartOfWeekIsMonday | backend/api/src/routes/chat.ts:18-25 | the week starts on the Monday on or before the day; a Sunday belongs to the week that began six days before |
| ChatIntent.StartOfWeek | backend/api/src/routes/chat.ts:18-25 | Monday midnight of the week; `StartOfWeekIsMonday` and `BoundariesSpec` state it |
| ChatIntent.EndOfDay | backend/api/src/routes/chat.ts:27-31 | the last millisecond of the day; `BoundariesSpec` states it |
| ChatIntent.BoundariesSpec | backend/api/src/routes/chat.ts:18-31 | `now` lies in the week from its start, which is a Monday midnight; `endOfDay` is the last millisecond of the same day |
| ChatIntent.StartOfWeekShift | backend/api/src/routes/chat.ts:88-90 | the start of the week a week ago is seven days before this week's start |
| ChatIntent.WeeksAdjacent | backend/api/src/routes/chat.ts:88-97 | last week and this week do not overlap and together cover everything since last week's start |
| ChatIntent.YesterdaySpec | backend/api/src/routes/chat.ts:72-78 | yesterday's window holds exactly the instants of the previous day |
| ChatIntent.ThisWeek | backend/api/src/routes/chat.ts:49-52 | from the start of the week on; `WeeksAdjacent` states it |
| ChatIntent.LastWeek | backend/api/src/routes/chat.ts:88-97 | the previous week up to one millisecond before this week's start; `WeeksAdjacent` states it |
| ChatIntent.Yesterday | backend/api/src/routes/chat.ts:72-78 | the whole previous day; `YesterdaySpec` states it |
| ChatIntent.Today | backend/api/src/routes/chat.ts:109-113 | from midnight today on |
| ChatIntent.Select | backend/api/src/routes/chat.ts:50-52 | the query returns only shifts whose start lies in the window |
| ChatIntent.SelectComplete | backend/api/src/routes/chat.ts:50-52 | every shift in the window is returned |
| ChatIntent.IndexOfDay | backend/api/src/routes/chat.ts:56 | `totals.get(day)` finds the day's entry, or none when the day is absent |
| ChatIntent.KeyOf | backend/api/src/routes/chat.ts:55 | "unknown" without a start; the UTC day for the years 0000-9999; year and month outside them, as the first ten characters of the expanded ISO form |
| ChatIntent.FourDigitKeys | backend/api/src/routes/chat.ts:55 | within the years 0000-9999 two shifts share a key iff they start on the same UTC day, and never share one with a shift of an expanded year |
| ChatIntent.CivilEpoch | backend/api/src/routes/chat.ts:55 | the calendar conversion puts day 0 on 1970-01-01, the epoch of the ISO string |
| ChatIntent.CivilFourDigitEdges | backend/api/src/routes/chat.ts:55 | the four-digit years are exactly days -719528 to 2932896, with 31 December of year -1 and 1 January 10000 on either side |
| ChatIntent.CivilLeapDay | backend/api/src/routes/chat.ts:55 | 29 February 2000 exists and is followed by 1 March, the Gregorian 400-year leap rule |
| ChatIntent.ExpandedYearSharesKey | backend/api/src/routes/chat.ts:48-69 | shifts on 1 and 2 January 10000 share the key `+010000-01`, and the best day is that key with their sum |
| ChatIntent.AddToSpec | backend/api/src/routes/chat.ts:56 | `totals.set` adds the amount to that day only, appending a new day at the end |
| ChatIntent.TallyDistinct | backend/api/src/routes/chat.ts:53-57 | each day appears once |
| ChatIntent.Tally | backend/api/src/routes/chat.ts:53-57 | the daily totals map; `TallyDistinct`, `TallyTotals`, `TallyCovers` and `DayTotalAbsent` state it |
| ChatIntent.TallyTotals | backend/api/src/routes/chat.ts:53-57 | each day's total is the sum of its shifts' totals |
| ChatIntent.DayTotalAbsent | backend/api/src/routes/chat.ts:53-57 | a day not in the map has no sales |
| ChatIntent.TallyCovers | backend/api/src/routes/chat.ts:53-57 | every shift's day is in the map |
| ChatIntent.DailyTotals | backend/api/src/routes/chat.ts:53-57 | the `forEach` loop builds exactly `Tally` |
| ChatIntent.BestNoneIff | backend/api/src/routes/chat.ts:58-68 | no best day exactly when no day total is positive |
| ChatIntent.Best | backend/api/src/routes/chat.ts:58-65 | the best-day scan; `BestNoneIff`, `BestPositive` and `BestIsFirstMax` state it |
| ChatIntent.BestPositive | backend/api/src/routes/chat.ts:61 | a best day has a positive total |
| ChatIntent.BestIsFirstMax | backend/api/src/routes/chat.ts:58-65 | the best day has the largest total, and it is the first day with that total |
| ChatIntent.BestDay | backend/api/src/routes/chat.ts:58-65 | the scan loop computes `Best` |
| ChatIntent.SameDayAdds | backend/api/src/routes/chat.ts:56 | two shifts on the same day add up into one entry |
| ChatIntent.Worst | backend/api/src/routes/chat.ts:77-84 | there is a worst shift exactly when there is a shift yesterday |
| ChatIntent.WorstSpec | backend/api/src/routes/chat.ts:77-84 | the worst shift has the smallest total and is the first one with it (a stable ascending sort) |
| ChatIntent.Compare | backend/api/src/routes/chat.ts:99-105 | the answer carries both sums; "up" exactly when this week is at least last week; the amount is the absolute difference |
| ChatIntent.CompareSwap | backend/api/src/routes/chat.ts:103-105 | swapping the weeks keeps the amount and flips the direction, except on a tie |
| ChatIntent.RefundsAnswer | backend/api/src/routes/chat.ts:114-115 | "no refunds" exactly when the sum is not positive; otherwise the total is the sum |
| ChatIntent.FuelInsideSnoc | backend/api/src/routes/chat.ts:118-126 | with no shifts both figures are 0; each further shift adds its fuel and inside sales exactly when it started this week |
| ChatIntent.Respond | backend/api/src/routes/chat.ts:33-138 | a question shorter than two characters is rejected (400); otherwise the answer is that of the classified intent |
| ChatIntent.AnswerFor | backend/api/src/routes/chat.ts:48-126 | the answer of each intent; `HighestDayAnswerSpec`, `WorstSpec`, `Compare`, `RefundsAnswer` and `FuelInsideSnoc` state them |
| ChatIntent.HighestDayAnswerSpec | backend/api/src/routes/chat.ts:48-69 | "no shift data" exactly when no day this week has positive sales; otherwise the named day has the week's largest daily total |

## Left out

- The markup parser (fast-xml-parser) is not part of this model. The model starts from its tree, with attributes, `text` nodes and trimmed string values as that configuration produces them.
- Date parsing (`new Date(value)`) is a parameter, and the chat's local-time `Date` arithmetic is UTC integer arithmetic. Time zones and daylight-saving changes are not captured.
- Floating point is not modelled. Amounts are exact reals, so `toFixed(2)`, rounding error in sums, and `Infinity` for huge digit strings are not captured.
- The rate limiter and multer's size cap are left out, because they act before the handler runs.
- Concurrency is left out: two uploads of the same content racing past the de-duplication check, PQueue's parallel tasks (tasks run one at a time here), and the promise ordering inside `Promise.all`.
- The agent's file I/O (`fs.stat`, `hashFile`, the state file read by `loadState`) is a parameter. The watcher's chokidar events, the logger and the CLI are left out.
- `Agent.saved` models the ledger last written by `saveState`.
- The device-key digest (`hashDeviceKey`) is a parameter, compared for equality as the handler does.
- The chat route's 401/404 checks (user and store ownership) and the persisted `chatQuery` row are left out. The route is modelled from the validated question onwards, on the store's shifts.
- Which markup makes fast-xml-parser throw is not modelled; the parser's answer is a parameter that may say it threw.
- Common.Lower: folds only the ASCII capitals A-Z. JavaScript's `toLowerCase` also maps other characters, such as U+212A KELVIN SIGN to "k", so a non-ASCII question or key can match where the model says it does not.
- ChatIntent.ClassifyIntent: inherits the ASCII-only lower-casing of `Common.Lower`; a question with a non-ASCII letter that lower-cases to an ASCII one (a Kelvin sign in place of the "k" of "week") is classified differently from JavaScript.
- XmlExtractor.KeyMatches: inherits the ASCII-only lower-casing of `Common.Lower` on both the key and the fragment.
- ChatIntent.CivilOf: the calendar conversion is checked at the epoch, at both edges of the four-digit years and across a leap day, not proved against the Gregorian calendar for every day; and instants outside the range of a JavaScript `Date` (beyond 8.64e15 ms either side of the epoch), which the database never returns, still get a key here where `toISOString` would throw.
- ChatIntent.Respond: zod's `min(2)` counts UTF-16 code units, and the model counts characters, so a single character outside the Basic Multilingual Plane is accepted by the route but rejected here.
- Prisma's `Decimal` conversions (`Number(x.toString())`) are taken as exact.

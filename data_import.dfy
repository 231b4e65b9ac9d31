/**
 * The CSV import helpers: how a cell is normalised (`|| null`, `parseDate`, `parseNumber`), the
 * header check of `validateCSVStructure`, and the batch loop of `importViolations`, which sends the
 * rows in batches of 1000 and keeps count of what the backend stored. The backend's upsert is an
 * oracle: given the batch's start index and its rows, it says how the upsert of the records
 * mapped from those rows ended.
 */
module DataImport {
  import opened Wrappers
  import opened JsString

  /** A CSV cell: a string, a number (integers only), or `null`. */
  datatype Cell = Str(s: string) | Num(n: int) | Null

  /** A parsed CSV row: its own keys and their cells. */
  type Row = map<string, Cell>

  /** `row.X`: a key the row lacks reads as `undefined`, which every helper here treats like `null`. */
  function Field(row: Row, key: string): (c: Cell)
    ensures key !in row ==> c == Null
    ensures key in row ==> c == row[key]
  {
    if key in row then row[key] else Null
  }

  /** JavaScript falsiness of a cell: `null`, the empty string and `0`. */
  predicate Falsy(c: Cell) {
    c == Null || c == Str("") || c == Num(0)
  }

  /** `row.X || null`. */
  function OrNull(c: Cell): (r: Cell)
    ensures r == Null <==> Falsy(c)
    ensures !Falsy(c) ==> r == c
  {
    if Falsy(c) then Null else c
  }

  /** `String(cell)` for a cell that is not falsy. */
  function Text(c: Cell): (t: string)
    ensures c.Str? ==> t == c.s
  {
    match c
    case Str(s) => s
    case Num(n) => IntToString(n)
    case Null => "null"
  }

  /** The date string `${year}-${month.padStart(2, '0')}-${day.padStart(2, '0')}` of `split('/')`'s parts. */
  function Rearrange(parts: seq<string>): (r: string)
    requires |parts| >= 2
  {
    var year := if |parts| >= 3 then parts[2] else "undefined";
    year + "-" + PadStart(parts[0], 2, '0') + "-" + PadStart(parts[1], 2, '0')
  }

  /** `parseDate` after `String(dateStr).trim()`. */
  function ParseTrimmed(str: string): (r: Option<string>)
    ensures str == "" ==> r.None?
    ensures '/' in str ==> r == Some(Rearrange(Split(str, '/')))
    ensures '/' !in str ==> r == (if '-' in str then Some(str) else None)
  {
    IncludesChar(str, '/');
    IncludesChar(str, '-');
    if str == "" then None
    else if Includes(str, "/") then Some(Rearrange(Split(str, '/')))
    else if Includes(str, "-") then Some(str)
    else None
  }

  /**
   * `parseDate`: nothing for a falsy or blank cell; `M/D/Y` becomes `Y-MM-DD`, with month and
   * day padded to two characters and `undefined` standing in for a missing year; a string with a
   * dash but no slash is kept as it is, trimmed; anything else is nothing.
   */
  function ParseDate(c: Cell): (r: Option<string>)
    ensures Falsy(c) || Trim(Text(c)) == "" ==> r.None?
    ensures !Falsy(c) ==> r == ParseTrimmed(Trim(Text(c)))
  {
    if Falsy(c) then None else ParseTrimmed(Trim(Text(c)))
  }

  /** A string whose first and last characters are not white space is its own trim. */
  lemma TrimNoSpaceEnds(s: string)
    requires s != [] && !IsSpace(s[0]) && !IsSpace(s[|s| - 1])
    ensures Trim(s) == s
  {
    assert TrimStart(s) == s;
  }

  /** A cell holding a string with a slash and no white space at its ends is rearranged from its parts. */
  lemma SlashCell(s: string)
    requires s != [] && !IsSpace(s[0]) && !IsSpace(s[|s| - 1]) && '/' in s
    ensures ParseDate(Str(s)) == Some(Rearrange(Split(s, '/')))
  {
    TrimNoSpaceEnds(s);
  }

  /** `M/D/Y`, with no slash inside the three parts, becomes `Y-MM-DD`. */
  lemma SlashDate(m: string, d: string, y: string)
    requires '/' !in m && '/' !in d && '/' !in y
    requires m != [] && y != [] && !IsSpace(m[0]) && !IsSpace(y[|y| - 1])
    ensures ParseDate(Str(m + "/" + d + "/" + y)) == Some(y + "-" + PadStart(m, 2, '0') + "-" + PadStart(d, 2, '0'))
    ensures |m| <= 2 && |d| <= 2 ==> |PadStart(m, 2, '0')| == 2 && |PadStart(d, 2, '0')| == 2
  {
    var s := m + "/" + d + "/" + y;
    assert ParseDate(Str(s)) == Some(Rearrange(Split(s, '/'))) by {
      assert s[0] == m[0] && s[|s| - 1] == y[|y| - 1] && s[|m|] == '/';
      SlashCell(s);
    }
    SplitThree(m, d, y);
  }

  lemma SplitThree(m: string, d: string, y: string)
    requires '/' !in m && '/' !in d && '/' !in y
    ensures Split(m + "/" + d + "/" + y, '/') == [m, d, y]
  {
    assert m + "/" + d + "/" + y == m + ['/'] + (d + ['/'] + y);
    SplitConcat(m, d + ['/'] + y, '/');
    SplitConcat(d, y, '/');
    SplitNoSep(y, '/');
  }

  /** `M/D` with no year: the year is rendered as `undefined`. */
  lemma MissingYear(m: string, d: string)
    requires '/' !in m && '/' !in d
    requires m != [] && d != [] && !IsSpace(m[0]) && !IsSpace(d[|d| - 1])
    ensures ParseDate(Str(m + "/" + d)) == Some("undefined" + "-" + PadStart(m, 2, '0') + "-" + PadStart(d, 2, '0'))
  {
    var s := m + "/" + d;
    assert ParseDate(Str(s)) == Some(Rearrange(Split(s, '/'))) by {
      assert s[0] == m[0] && s[|s| - 1] == d[|d| - 1] && s[|m|] == '/';
      SlashCell(s);
    }
    assert Split(s, '/') == [m, d] by {
      assert s == m + ['/'] + d;
      SplitConcat(m, d, '/');
      SplitNoSep(d, '/');
    }
  }

  /** `\d{2}-\d{2}-\d{4}`, the pattern of the `MM-DD-YYYY` branch. */
  predicate DashedDate(s: string) {
    |s| == 10 && s[2] == '-' && s[5] == '-'
    && forall i :: 0 <= i < 10 && i != 2 && i != 5 ==> IsDigit(s[i])
  }

  /** Every string of the `MM-DD-YYYY` pattern contains a dash, so the earlier branch has already returned it. */
  lemma DashedBranchUnreachable(c: Cell)
    requires !Falsy(c) && DashedDate(Trim(Text(c)))
    ensures ParseDate(c) == Some(Trim(Text(c)))
  {
    var str := Trim(Text(c));
    assert '/' !in str by {
      forall i | 0 <= i < |str| ensures str[i] != '/' {
        if i != 2 && i != 5 {
          assert IsDigit(str[i]);
        }
      }
    }
    assert str[2] == '-';
  }

  /** A numeric cell as `Number()` sees it: an integer, or a string whose coercion is not modelled. */
  datatype Number = IntValue(n: int) | Coerced(s: string)

  /** `parseNumber`: nothing for a falsy cell, else the cell's number. */
  function ParseNumber(c: Cell): (r: Option<Number>)
    ensures r.None? <==> Falsy(c)
    ensures c.Num? && c.n != 0 ==> r == Some(IntValue(c.n))
  {
    match c
    case Null => None
    case Num(n) => if n == 0 then None else Some(IntValue(n))
    case Str(s) => if s == "" then None else Some(Coerced(s))
  }

  /** How a column of the output record is computed from its source cell. */
  datatype Kind = TextColumn | DateColumn | NumberColumn

  datatype Column = Column(name: string, source: string, kind: Kind)

  /** The value stored in one column of an output record. */
  datatype Value = TextValue(cell: Cell) | DateValue(date: Option<string>) | NumberValue(number: Option<Number>)

  /** The 38 columns of a `violations_enforcement` record and the CSV field each is read from. */
  const ViolationColumns: seq<Column> := [
    Column("submission_year_quarter", "SUBMISSIONYEARQUARTER", TextColumn),
    Column("pwsid", "PWSID", TextColumn),
    Column("violation_id", "VIOLATION_ID", TextColumn),
    Column("facility_id", "FACILITY_ID", TextColumn),
    Column("compl_per_begin_date", "COMPL_PER_BEGIN_DATE", DateColumn),
    Column("compl_per_end_date", "COMPL_PER_END_DATE", DateColumn),
    Column("non_compl_per_begin_date", "NON_COMPL_PER_BEGIN_DATE", DateColumn),
    Column("non_compl_per_end_date", "NON_COMPL_PER_END_DATE", DateColumn),
    Column("pws_deactivation_date", "PWS_DEACTIVATION_DATE", DateColumn),
    Column("violation_code", "VIOLATION_CODE", TextColumn),
    Column("violation_category_code", "VIOLATION_CATEGORY_CODE", TextColumn),
    Column("is_health_based_ind", "IS_HEALTH_BASED_IND", TextColumn),
    Column("contaminant_code", "CONTAMINANT_CODE", TextColumn),
    Column("viol_measure", "VIOL_MEASURE", NumberColumn),
    Column("unit_of_measure", "UNIT_OF_MEASURE", TextColumn),
    Column("federal_mcl", "FEDERAL_MCL", TextColumn),
    Column("state_mcl", "STATE_MCL", NumberColumn),
    Column("is_major_viol_ind", "IS_MAJOR_VIOL_IND", TextColumn),
    Column("severity_ind_cnt", "SEVERITY_IND_CNT", NumberColumn),
    Column("calculated_rtc_date", "CALCULATED_RTC_DATE", DateColumn),
    Column("violation_status", "VIOLATION_STATUS", TextColumn),
    Column("public_notification_tier", "PUBLIC_NOTIFICATION_TIER", NumberColumn),
    Column("calculated_pub_notif_tier", "CALCULATED_PUB_NOTIF_TIER", NumberColumn),
    Column("viol_originator_code", "VIOL_ORIGINATOR_CODE", TextColumn),
    Column("sample_result_id", "SAMPLE_RESULT_ID", TextColumn),
    Column("corrective_action_id", "CORRECTIVE_ACTION_ID", TextColumn),
    Column("rule_code", "RULE_CODE", TextColumn),
    Column("rule_group_code", "RULE_GROUP_CODE", TextColumn),
    Column("rule_family_code", "RULE_FAMILY_CODE", TextColumn),
    Column("viol_first_reported_date", "VIOL_FIRST_REPORTED_DATE", DateColumn),
    Column("viol_last_reported_date", "VIOL_LAST_REPORTED_DATE", DateColumn),
    Column("enforcement_id", "ENFORCEMENT_ID", TextColumn),
    Column("enforcement_date", "ENFORCEMENT_DATE", DateColumn),
    Column("enforcement_action_type_code", "ENFORCEMENT_ACTION_TYPE_CODE", TextColumn),
    Column("enf_action_category", "ENF_ACTION_CATEGORY", TextColumn),
    Column("enf_originator_code", "ENF_ORIGINATOR_CODE", TextColumn),
    Column("enf_first_reported_date", "ENF_FIRST_REPORTED_DATE", DateColumn),
    Column("enf_last_reported_date", "ENF_LAST_REPORTED_DATE", DateColumn)
  ]

  function Convert(kind: Kind, c: Cell): Value {
    match kind
    case TextColumn => TextValue(OrNull(c))
    case DateColumn => DateValue(ParseDate(c))
    case NumberColumn => NumberValue(ParseNumber(c))
  }

  /** An output record: column names and values, in the order the columns are listed. */
  type Violation = seq<(string, Value)>

  /** The `batch.map(row => ({ ... }))` callback. */
  function MapViolation(row: Row): (r: Violation)
    ensures |r| == |ViolationColumns|
    ensures forall i :: 0 <= i < |r| ==> r[i].0 == ViolationColumns[i].name
  {
    seq(|ViolationColumns|, i requires 0 <= i < |ViolationColumns| =>
      (ViolationColumns[i].name, Convert(ViolationColumns[i].kind, Field(row, ViolationColumns[i].source))))
  }

  /**
   * Every falsy cell of a text column, and every missing field, is stored as `null`; a truthy
   * cell is stored unchanged. Dates and numbers of a falsy cell are missing too.
   */
  lemma MappingSendsFalsyToNull(row: Row, i: int)
    requires 0 <= i < |ViolationColumns|
    ensures var col := ViolationColumns[i];
      var v := MapViolation(row)[i].1;
      && (col.kind == TextColumn ==> (v == TextValue(Null) <==> Falsy(Field(row, col.source))))
      && (col.kind == TextColumn && !Falsy(Field(row, col.source)) ==> v == TextValue(Field(row, col.source)))
      && (col.kind == DateColumn && Falsy(Field(row, col.source)) ==> v == DateValue(None))
      && (col.kind == NumberColumn ==> (v == NumberValue(None) <==> Falsy(Field(row, col.source))))
  {
  }

  /** The result of `validateCSVStructure`. */
  datatype Validation = Validation(valid: bool, errors: seq<string>)

  /** `requiredFields.filter(field => !(field in firstRow))`. */
  function MissingFields(row: Row, required: seq<string>): (m: seq<string>)
    ensures |m| <= |required|
    ensures forall f :: f in m <==> f in required && f !in row
  {
    if required == [] then []
    else
      var rest := MissingFields(row, required[1..]);
      assert required == [required[0]] + required[1..];
      if required[0] !in row then [required[0]] + rest else rest
  }

  /** The missing fields are listed in the order of `requiredFields`. */
  lemma {:induction false} MissingFieldsInOrder(row: Row, a: seq<string>, b: seq<string>)
    ensures MissingFields(row, a + b) == MissingFields(row, a) + MissingFields(row, b)
  {
    if a == [] {
      assert a + b == b;
    } else {
      assert (a + b)[1..] == a[1..] + b;
      MissingFieldsInOrder(row, a[1..], b);
    }
  }

  function ValidateCsvStructure(rows: seq<Row>, required: seq<string>): (v: Validation)
    ensures rows == [] ==> v == Validation(false, ["CSV data is empty"])
    ensures rows != [] ==> (v.valid <==> forall f :: f in required ==> f in rows[0])
    ensures rows != [] && MissingFields(rows[0], required) != [] ==>
      v.errors == ["Missing required fields: " + Join(MissingFields(rows[0], required), ", ")]
    ensures v.valid <==> v.errors == []
    ensures |v.errors| <= 1
  {
    if rows == [] then Validation(false, ["CSV data is empty"])
    else
      var missing := MissingFields(rows[0], required);
      if |missing| > 0 then
        assert missing[0] in missing;
        Validation(false, ["Missing required fields: " + Join(missing, ", ")])
      else
        Validation(true, [])
  }

  /** Only the first row is inspected: the rows after it never change the verdict. */
  lemma OnlyFirstRowChecked(rows: seq<Row>, more: seq<Row>, required: seq<string>)
    requires rows != []
    ensures ValidateCsvStructure(rows + more, required) == ValidateCsvStructure(rows[..1], required)
  {
    assert (rows + more)[0] == rows[..1][0];
  }

  /** The result of an import. */
  datatype ImportResult = ImportResult(
    success: bool, recordsProcessed: nat, recordsInserted: nat, recordsUpdated: nat, errors: seq<string>)

  /** How one upsert ended: stored, answered with an error, or threw. */
  datatype UpsertAnswer = Stored | Rejected(message: string) | Threw(message: string)

  const BatchSize := 1000

  /** The end of the batch starting at `i`: `slice(i, i + batchSize)` stops at the end of the rows. */
  function BatchEnd(n: nat, i: nat): (e: nat)
    ensures e <= n && (i < n ==> i < e && e - i <= BatchSize)
  {
    if i + BatchSize < n then i + BatchSize else n
  }

  function MapBatch(batch: seq<Row>): (r: seq<Violation>)
    ensures |r| == |batch|
  {
    seq(|batch|, k requires 0 <= k < |batch| => MapViolation(batch[k]))
  }

  /** The message recorded for a batch whose upsert answered with an error. */
  function BatchError(i: nat, message: string): string {
    "Batch " + IntToString(i / BatchSize + 1) + " error: " + message
  }

  /** The `k`-th batch, counted from 0, starts at `1000 * k` and is reported as batch `k + 1`. */
  lemma BatchNumber(k: nat, message: string)
    ensures BatchError(BatchSize * k, message) == "Batch " + IntToString(k + 1) + " error: " + message
  {
  }

  /** Where the loop stopped: after the last batch, or at a batch whose upsert threw. */
  datatype Outcome = Finished(inserted: nat, errors: seq<string>) | Aborted(errors: seq<string>)

  /** The batch loop from index `i` on, with the totals so far. */
  function RunBatches(rows: seq<Row>, answer: (nat, seq<Row>) -> UpsertAnswer,
                      i: nat, inserted: nat, errors: seq<string>): Outcome
    decreases |rows| - i
  {
    if i >= |rows| then Finished(inserted, errors)
    else
      var batch := rows[i..BatchEnd(|rows|, i)];
      match answer(i, batch)
      case Stored => RunBatches(rows, answer, i + BatchSize, inserted + |batch|, errors)
      case Rejected(m) => RunBatches(rows, answer, i + BatchSize, inserted, errors + [BatchError(i, m)])
      case Threw(m) => Aborted(errors + ["Import error: " + m])
  }

  /** What `importViolations` returns: the totals after the loop, or only the error when it threw. */
  function ImportViolationsResult(rows: seq<Row>, answer: (nat, seq<Row>) -> UpsertAnswer): ImportResult {
    match RunBatches(rows, answer, 0, 0, [])
    case Finished(inserted, errors) => ImportResult(errors == [], |rows|, inserted, 0, errors)
    case Aborted(errors) => ImportResult(false, 0, 0, 0, errors)
  }

  /** The batches from index `i` on. */
  function Batches(rows: seq<Row>, i: nat): (bs: seq<seq<Row>>)
    ensures forall k :: 0 <= k < |bs| ==> 0 < |bs[k]| <= BatchSize
    decreases |rows| - i
  {
    if i >= |rows| then [] else [rows[i..BatchEnd(|rows|, i)]] + Batches(rows, i + BatchSize)
  }

  function Flatten(bs: seq<seq<Row>>): seq<Row> {
    if bs == [] then [] else bs[0] + Flatten(bs[1..])
  }

  /** The batches are consecutive slices of at most 1000 rows that together are the rows, in order. */
  lemma {:induction false} BatchesPartition(rows: seq<Row>, i: nat)
    requires i <= |rows|
    ensures Flatten(Batches(rows, i)) == rows[i..]
    decreases |rows| - i
  {
    if i < |rows| {
      var e := BatchEnd(|rows|, i);
      BatchesPartition(rows, e);
      if e < |rows| {
        assert e == i + BatchSize;
      } else {
        assert Batches(rows, i + BatchSize) == [];
      }
      assert rows[i..] == rows[i..e] + rows[e..];
    }
  }

  /**
   * `importViolations`: sends the records of each batch of 1000 rows and adds up what was
   * stored. `sent` lists the records of every upsert issued, in order: the mapped rows of the
   * batches, all of them unless an upsert threw.
   */
  method ImportViolations(rows: seq<Row>, answer: (nat, seq<Row>) -> UpsertAnswer)
    returns (result: ImportResult, sent: seq<seq<Violation>>)
    ensures result == ImportViolationsResult(rows, answer)
    ensures |sent| <= |Batches(rows, 0)|
    ensures forall k :: 0 <= k < |sent| ==> sent[k] == MapBatch(Batches(rows, 0)[k])
    ensures RunBatches(rows, answer, 0, 0, []).Finished? ==> |sent| == |Batches(rows, 0)|
  {
    var totalInserted: nat := 0;
    var errors: seq<string> := [];
    var i := 0;
    sent := [];
    ghost var done: seq<seq<Row>> := [];
    while i < |rows|
      invariant Batches(rows, 0) == done + Batches(rows, i)
      invariant |sent| == |done|
      invariant forall k :: 0 <= k < |sent| ==> sent[k] == MapBatch(done[k])
      invariant RunBatches(rows, answer, i, totalInserted, errors) == RunBatches(rows, answer, 0, 0, [])
      decreases |rows| - i
    {
      var batch := rows[i..BatchEnd(|rows|, i)];
      assert Batches(rows, 0) == (done + [batch]) + Batches(rows, i + BatchSize);
      var violations := MapBatch(batch);
      sent, done := sent + [violations], done + [batch];
      match answer(i, batch) {
        case Threw(m) =>
          return ImportResult(false, 0, 0, 0, errors + ["Import error: " + m]), sent;
        case Rejected(m) =>
          errors := errors + [BatchError(i, m)];
        case Stored =>
          totalInserted := totalInserted + |batch|;
      }
      i := i + BatchSize;
    }
    return ImportResult(errors == [], |rows|, totalInserted, 0, errors), sent;
  }

  /** The rows of the batches from `i` on whose upsert stored them. */
  function StoredRows(rows: seq<Row>, answer: (nat, seq<Row>) -> UpsertAnswer, i: nat): (n: nat)
    ensures n <= if i < |rows| then |rows| - i else 0
    decreases |rows| - i
  {
    if i >= |rows| then 0
    else
      var batch := rows[i..BatchEnd(|rows|, i)];
      (if answer(i, batch) == Stored then |batch| else 0) + StoredRows(rows, answer, i + BatchSize)
  }

  /** Every upsert from batch `i` on stored its batch. */
  predicate AllStored(rows: seq<Row>, answer: (nat, seq<Row>) -> UpsertAnswer, i: nat)
    decreases |rows| - i
  {
    i >= |rows|
    || (answer(i, rows[i..BatchEnd(|rows|, i)]) == Stored && AllStored(rows, answer, i + BatchSize))
  }

  /**
   * A loop that runs to the end adds exactly the stored rows to the count, and adds an error
   * for each rejected batch: it keeps the errors it had exactly when every batch was stored.
   * A loop that stops early stopped at a batch that was not stored.
   */
  lemma {:induction false} RunAccounting(rows: seq<Row>, answer: (nat, seq<Row>) -> UpsertAnswer,
                                         i: nat, inserted: nat, errors: seq<string>)
    ensures var o := RunBatches(rows, answer, i, inserted, errors);
      && (o.Finished? ==> o.inserted == inserted + StoredRows(rows, answer, i))
      && (o.Finished? ==> (o.errors == errors <==> AllStored(rows, answer, i)))
      && (o.Finished? ==> |o.errors| >= |errors| && o.errors[..|errors|] == errors)
      && (o.Aborted? ==> !AllStored(rows, answer, i))
    decreases |rows| - i
  {
    if i < |rows| {
      var batch := rows[i..BatchEnd(|rows|, i)];
      match answer(i, batch)
      case Stored =>
        RunAccounting(rows, answer, i + BatchSize, inserted + |batch|, errors);
      case Rejected(m) =>
        var errors' := errors + [BatchError(i, m)];
        RunAccounting(rows, answer, i + BatchSize, inserted, errors');
        var o := RunBatches(rows, answer, i + BatchSize, inserted, errors');
        if o.Finished? {
          assert o.errors[..|errors'|] == errors';
          assert o.errors[..|errors|] == errors' [..|errors|] == errors;
          assert |o.errors| > |errors|;
        }
      case Threw(_) =>
    }
  }

  /** The import succeeds exactly when every batch was stored; then every row counts as inserted. */
  lemma ImportSucceedsIff(rows: seq<Row>, answer: (nat, seq<Row>) -> UpsertAnswer)
    ensures ImportViolationsResult(rows, answer).success <==> AllStored(rows, answer, 0)
    ensures ImportViolationsResult(rows, answer).success ==>
      ImportViolationsResult(rows, answer).recordsInserted == ImportViolationsResult(rows, answer).recordsProcessed == |rows|
  {
    RunAccounting(rows, answer, 0, 0, []);
    if AllStored(rows, answer, 0) {
      AllStoredCountsAll(rows, answer, 0);
    }
  }

  /**
   * When no upsert threw, every row counts as processed and the inserted rows are the rows of
   * the stored batches; in every case no more rows are inserted than processed.
   */
  lemma ImportCounts(rows: seq<Row>, answer: (nat, seq<Row>) -> UpsertAnswer)
    ensures ImportViolationsResult(rows, answer).recordsInserted <= ImportViolationsResult(rows, answer).recordsProcessed
    ensures RunBatches(rows, answer, 0, 0, []).Finished? ==>
      ImportViolationsResult(rows, answer).recordsProcessed == |rows|
      && ImportViolationsResult(rows, answer).recordsInserted == StoredRows(rows, answer, 0)
  {
    RunAccounting(rows, answer, 0, 0, []);
  }

  /** When every batch is stored, the stored rows are all the rows from `i` on. */
  lemma {:induction false} AllStoredCountsAll(rows: seq<Row>, answer: (nat, seq<Row>) -> UpsertAnswer, i: nat)
    requires AllStored(rows, answer, i)
    ensures StoredRows(rows, answer, i) == if i < |rows| then |rows| - i else 0
    decreases |rows| - i
  {
    if i < |rows| {
      AllStoredCountsAll(rows, answer, i + BatchSize);
    }
  }
}

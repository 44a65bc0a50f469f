/** The audit export's CSV writer, `apps/iam-api/src/audit/audit-csv.ts`, and a reader to hold it to. */
module AuditExport {
  import opened Common

  const FORMULA_LEADS: set<char> := {'=', '+', '-', '@', '\t', '\r'}
  const CRLF: string := ['\r', '\n']
  const MUST_QUOTE: set<char> := {'"', ',', '\r', '\n'}

  predicate FormulaLead(value: string) {
    value != "" && value[0] in FORMULA_LEADS
  }

  predicate MustQuote(value: string) {
    exists c :: c in value && c in MUST_QUOTE
  }

  function DoubleQuotes(value: string): string {
    if value == "" then ""
    else (if value[0] == '"' then "\"\"" else [value[0]]) + DoubleQuotes(value[1..])
  }

  /** The cell as a spreadsheet must see it: nothing for null, text for what would be a formula. */
  function Guarded(value: Option<string>): string {
    if value.None? || value.value == "" then ""
    else if FormulaLead(value.value) then "'" + value.value
    else value.value
  }

  function CsvField(value: Option<string>): string {
    if value.None? || value.value == "" then ""
    else
      var guarded := if FormulaLead(value.value) then "'" + value.value else value.value;
      if MustQuote(guarded) then ['"'] + DoubleQuotes(guarded) + ['"'] else guarded
  }

  function CsvRow(values: seq<Option<string>>): string {
    if values == [] then ""
    else if |values| == 1 then CsvField(values[0])
    else CsvField(values[0]) + [','] + CsvRow(values[1..])
  }

  datatype AuditRecord = AuditRecord(
    id: string, createdAt: string, clientId: Option<string>, actorType: string, actorId: Option<string>,
    action: string, targetType: Option<string>, targetId: Option<string>, payloadJson: string)

  const COLUMNS: seq<string> :=
    ["id", "created_at", "client_id", "actor_type", "actor_id", "action", "target_type", "target_id", "payload"]

  /** The cell under a column's name. */
  function Cell(r: AuditRecord, column: string): Option<string> {
    if column == "id" then Some(r.id)
    else if column == "created_at" then Some(r.createdAt)
    else if column == "client_id" then r.clientId
    else if column == "actor_type" then Some(r.actorType)
    else if column == "actor_id" then r.actorId
    else if column == "action" then Some(r.action)
    else if column == "target_type" then r.targetType
    else if column == "target_id" then r.targetId
    else if column == "payload" then Some(r.payloadJson)
    else None
  }

  function CellsOf(r: AuditRecord): seq<Option<string>> {
    seq(|COLUMNS|, i requires 0 <= i < |COLUMNS| => Cell(r, COLUMNS[i]))
  }

  function Cells(columns: seq<string>): seq<Option<string>> {
    seq(|columns|, i requires 0 <= i < |columns| => Some(columns[i]))
  }

  function Lines(rows: seq<seq<Option<string>>>): string {
    if rows == [] then "" else CsvRow(rows[0]) + CRLF + Lines(rows[1..])
  }

  function Records(records: seq<AuditRecord>): seq<seq<Option<string>>> {
    seq(|records|, i requires 0 <= i < |records| => CellsOf(records[i]))
  }

  function Table(records: seq<AuditRecord>): seq<seq<Option<string>>> {
    [Cells(COLUMNS)] + Records(records)
  }

  function AuditCsv(records: seq<AuditRecord>): string {
    Lines(Table(records))
  }

  // ---- a reader of section 2 of RFC 4180 -------------------------------------------------------

  datatype Mode = AtStart | Bare | Quoted | QuoteSeen | CarriageSeen | Broken

  /** Records read, the fields of the record being read, and the field being read. */
  datatype Reading = Reading(rows: seq<seq<string>>, row: seq<string>, field: string, mode: Mode)

  function EndField(r: Reading): Reading {
    r.(row := r.row + [r.field], field := "", mode := AtStart)
  }

  function Step(r: Reading, c: char): Reading {
    match r.mode
    case AtStart =>
      if c == '"' then r.(mode := Quoted)
      else if c == ',' then EndField(r)
      else if c == '\r' then r.(mode := CarriageSeen)
      else if c == '\n' then r.(mode := Broken)
      else r.(field := [c], mode := Bare)
    case Bare =>
      if c == ',' then EndField(r)
      else if c == '\r' then r.(mode := CarriageSeen)
      else if c == '"' || c == '\n' then r.(mode := Broken)
      else r.(field := r.field + [c])
    case Quoted =>
      if c == '"' then r.(mode := QuoteSeen) else r.(field := r.field + [c])
    case QuoteSeen =>
      if c == '"' then r.(field := r.field + [c], mode := Quoted)
      else if c == ',' then EndField(r)
      else if c == '\r' then r.(mode := CarriageSeen)
      else r.(mode := Broken)
    case CarriageSeen =>
      if c == '\n' then Reading(r.rows + [r.row + [r.field]], [], "", AtStart) else r.(mode := Broken)
    case Broken => r
  }

  function Read(r: Reading, s: string): Reading
    decreases |s|
  {
    if s == "" then r else Read(Step(r, s[0]), s[1..])
  }

  /** The records of a document; the line break after the last one is optional. */
  function ReadCsv(s: string): Option<seq<seq<string>>> {
    var r := Read(Reading([], [], "", AtStart), s);
    if r.mode == AtStart && r.row == [] then Some(r.rows)
    else if r.mode == AtStart || r.mode == Bare || r.mode == QuoteSeen then Some(r.rows + [r.row + [r.field]])
    else None
  }

  lemma {:induction false} ReadConcat(r: Reading, a: string, b: string)
    ensures Read(r, a + b) == Read(Read(r, a), b)
    decreases |a|
  {
    if a == "" {
      assert a + b == b;
    } else {
      assert (a + b)[1..] == a[1..] + b;
      ReadConcat(Step(r, a[0]), a[1..], b);
    }
  }

  lemma ReadHead(r: Reading, c: char, s: string)
    ensures Read(r, [c] + s) == Read(Step(r, c), s)
    ensures Read(r, [c]) == Step(r, c)
  {
    assert ([c] + s)[1..] == s && [c][1..] == "";
  }

  lemma {:induction false} ReadBare(r: Reading, s: string)
    requires r.mode == Bare && !MustQuote(s)
    ensures Read(r, s) == r.(field := r.field + s)
    decreases |s|
  {
    if s == "" {
      assert r.field + s == r.field;
    } else {
      assert s[0] in s;
      assert forall c :: c in s[1..] ==> c in s;
      ReadBare(Step(r, s[0]), s[1..]);
      assert r.field + [s[0]] + s[1..] == r.field + s;
    }
  }

  lemma {:induction false} ReadQuoted(r: Reading, s: string)
    requires r.mode == Quoted
    ensures Read(r, DoubleQuotes(s)) == r.(field := r.field + s)
    decreases |s|
  {
    if s == "" {
      assert r.field + s == r.field;
    } else {
      var head := if s[0] == '"' then "\"\"" else [s[0]];
      ReadConcat(r, head, DoubleQuotes(s[1..]));
      assert Read(r, head) == r.(field := r.field + [s[0]]) by {
        if s[0] == '"' {
          assert head[1..] == "\"" && "\""[1..] == "";
          assert Read(Step(r, '"'), "\"") == Read(Step(Step(r, '"'), '"'), "");
        } else {
          assert head[1..] == "";
        }
      }
      ReadQuoted(Read(r, head), s[1..]);
      assert r.field + [s[0]] + s[1..] == r.field + s;
    }
  }

  /** A field that ended: the guarded cell has been read, and a separator is expected. */
  predicate FieldRead(before: Reading, after: Reading, value: Option<string>) {
    && after.rows == before.rows && after.row == before.row && after.field == Guarded(value)
    && after.mode in {AtStart, Bare, QuoteSeen}
  }

  lemma ReadBareField(r: Reading, g: string)
    requires r.mode == AtStart && r.field == "" && g != "" && !MustQuote(g)
    ensures Read(r, g) == r.(field := g, mode := Bare)
  {
    assert g[0] in g && forall c :: c in g[1..] ==> c in g;
    assert [g[0]] + g[1..] == g;
    ReadHead(r, g[0], g[1..]);
    ReadBare(Step(r, g[0]), g[1..]);
  }

  lemma ReadQuotedField(r: Reading, g: string)
    requires r.mode == AtStart && r.field == ""
    ensures Read(r, ['"'] + DoubleQuotes(g) + ['"']) == r.(field := g, mode := QuoteSeen)
  {
    var quoted := r.(mode := Quoted);
    var body := DoubleQuotes(g) + ['"'];
    assert ['"'] + DoubleQuotes(g) + ['"'] == ['"'] + body;
    ReadHead(r, '"', body);
    ReadConcat(quoted, DoubleQuotes(g), ['"']);
    ReadQuoted(quoted, g);
    assert "" + g == g;
    ReadHead(quoted.(field := g), '"', "");
  }

  lemma ReadField(r: Reading, value: Option<string>)
    requires r.mode == AtStart && r.field == ""
    ensures FieldRead(r, Read(r, CsvField(value)), value)
  {
    var g := Guarded(value);
    if g != "" {
      if MustQuote(g) {
        ReadQuotedField(r, g);
      } else {
        ReadBareField(r, g);
      }
    }
  }

  /** After a field, a comma starts the next one and a line break ends the record. */
  lemma ReadSeparator(before: Reading, after: Reading, value: Option<string>, rest: string)
    requires FieldRead(before, after, value)
    ensures Read(after, [','] + rest) == Read(Reading(before.rows, before.row + [Guarded(value)], "", AtStart), rest)
    ensures Read(after, ['\r', '\n']) == Reading(before.rows + [before.row + [Guarded(value)]], [], "", AtStart)
  {
    ReadHead(after, ',', rest);
    assert ['\r', '\n'] == ['\r'] + ['\n'];
    ReadHead(after, '\r', ['\n']);
    ReadHead(after.(mode := CarriageSeen), '\n', "");
  }

  function GuardedRow(values: seq<Option<string>>): seq<string> {
    seq(|values|, i requires 0 <= i < |values| => Guarded(values[i]))
  }

  lemma ReadLastCell(r: Reading, value: Option<string>)
    requires r.mode == AtStart && r.field == ""
    ensures Read(r, CsvField(value) + CRLF) == Reading(r.rows + [r.row + [Guarded(value)]], [], "", AtStart)
  {
    ReadField(r, value);
    ReadConcat(r, CsvField(value), CRLF);
    ReadSeparator(r, Read(r, CsvField(value)), value, "");
  }

  lemma ReadCellThen(r: Reading, value: Option<string>, rest: string)
    requires r.mode == AtStart && r.field == ""
    ensures Read(r, CsvField(value) + ([','] + rest))
        == Read(Reading(r.rows, r.row + [Guarded(value)], "", AtStart), rest)
  {
    ReadField(r, value);
    ReadConcat(r, CsvField(value), [','] + rest);
    ReadSeparator(r, Read(r, CsvField(value)), value, rest);
  }

  lemma GuardedHead(before: seq<string>, values: seq<Option<string>>)
    requires values != []
    ensures before + [Guarded(values[0])] + GuardedRow(values[1..]) == before + GuardedRow(values)
    ensures |values| == 1 ==> GuardedRow(values) == [Guarded(values[0])]
  {
  }

  lemma RowText(values: seq<Option<string>>)
    requires |values| >= 2
    ensures CsvRow(values) + CRLF == CsvField(values[0]) + ([','] + (CsvRow(values[1..]) + CRLF))
  {
    Regroup(CsvField(values[0]), [','], CsvRow(values[1..]), CRLF);
  }

  lemma Regroup(a: string, b: string, c: string, d: string)
    ensures a + b + c + d == a + (b + (c + d))
  {
  }

  /** Reading a row and its line break appends exactly the guarded cells as one record. */
  lemma {:induction false} ReadRow(r: Reading, values: seq<Option<string>>)
    requires r.mode == AtStart && r.field == "" && values != []
    ensures Read(r, CsvRow(values) + CRLF) == Reading(r.rows + [r.row + GuardedRow(values)], [], "", AtStart)
    decreases |values|
  {
    if |values| == 1 {
      ReadLastCell(r, values[0]);
      GuardedHead(r.row, values);
    } else {
      var next := Reading(r.rows, r.row + [Guarded(values[0])], "", AtStart);
      RowText(values);
      ReadCellThen(r, values[0], CsvRow(values[1..]) + CRLF);
      ReadRow(next, values[1..]);
      GuardedHead(r.row, values);
    }
  }

  function GuardedRows(rows: seq<seq<Option<string>>>): seq<seq<string>> {
    seq(|rows|, i requires 0 <= i < |rows| => GuardedRow(rows[i]))
  }

  lemma GuardedRowsHead(before: seq<seq<string>>, rows: seq<seq<Option<string>>>)
    requires rows != []
    ensures before + [GuardedRow(rows[0])] + GuardedRows(rows[1..]) == before + GuardedRows(rows)
  {
  }

  /** One line of a document is one record more. */
  lemma ReadLine(r: Reading, row: seq<Option<string>>, later: string)
    requires r.mode == AtStart && r.field == "" && r.row == [] && row != []
    ensures Read(r, CsvRow(row) + CRLF + later) == Read(r.(rows := r.rows + [GuardedRow(row)]), later)
  {
    ReadConcat(r, CsvRow(row) + CRLF, later);
    ReadRow(r, row);
    assert [] + GuardedRow(row) == GuardedRow(row);
  }

  lemma {:induction false} ReadLines(r: Reading, rows: seq<seq<Option<string>>>)
    requires r.mode == AtStart && r.field == "" && r.row == []
    requires forall k :: 0 <= k < |rows| ==> rows[k] != []
    ensures Read(r, Lines(rows)) == r.(rows := r.rows + GuardedRows(rows))
    decreases |rows|
  {
    if rows == [] {
      assert r.rows + [] == r.rows;
    } else {
      ReadLine(r, rows[0], Lines(rows[1..]));
      ReadLines(r.(rows := r.rows + [GuardedRow(rows[0])]), rows[1..]);
      GuardedRowsHead(r.rows, rows);
    }
  }

  lemma GuardedIsSafe(value: Option<string>)
    ensures !FormulaLead(Guarded(value))
  {
  }

  lemma HeaderIsSafe()
    ensures GuardedRow(Cells(COLUMNS)) == COLUMNS
  {
    forall i | 0 <= i < |COLUMNS| ensures Guarded(Some(COLUMNS[i])) == COLUMNS[i] {
    }
  }

  lemma TableReadsBack(rows: seq<seq<Option<string>>>)
    requires forall k :: 0 <= k < |rows| ==> rows[k] != []
    ensures ReadCsv(Lines(rows)) == Some(GuardedRows(rows))
  {
    ReadLines(Reading([], [], "", AtStart), rows);
    assert [] + GuardedRows(rows) == GuardedRows(rows);
  }

  /** What a spreadsheet is shown for a value: an apostrophe before any of the six leads of a formula. */
  predicate Shows(field: string, value: string) {
    field == if value != "" && value[0] in {'=', '+', '-', '@', '\t', '\r'} then "'" + value else value
  }

  function OrEmpty(value: Option<string>): string {
    if value.None? then "" else value.value
  }

  /** A record read back: its nine values in the order of the header. */
  predicate Reads(row: seq<string>, r: AuditRecord) {
    && |row| == 9
    && Shows(row[0], r.id) && Shows(row[1], r.createdAt) && Shows(row[2], OrEmpty(r.clientId))
    && Shows(row[3], r.actorType) && Shows(row[4], OrEmpty(r.actorId)) && Shows(row[5], r.action)
    && Shows(row[6], OrEmpty(r.targetType)) && Shows(row[7], OrEmpty(r.targetId)) && Shows(row[8], r.payloadJson)
  }

  lemma CellsInOrder(r: AuditRecord)
    ensures var cells := CellsOf(r);
            && |cells| == 9
            && cells[0] == Some(r.id) && cells[1] == Some(r.createdAt) && cells[2] == r.clientId
            && cells[3] == Some(r.actorType) && cells[4] == r.actorId && cells[5] == Some(r.action)
            && cells[6] == r.targetType && cells[7] == r.targetId && cells[8] == Some(r.payloadJson)
  {
  }

  lemma GuardShows(value: Option<string>)
    ensures Shows(Guarded(value), OrEmpty(value))
  {
  }

  lemma RowReads(row: seq<string>, r: AuditRecord)
    requires |row| == 9
    requires row[0] == Guarded(Some(r.id)) && row[1] == Guarded(Some(r.createdAt)) && row[2] == Guarded(r.clientId)
    requires row[3] == Guarded(Some(r.actorType)) && row[4] == Guarded(r.actorId) && row[5] == Guarded(Some(r.action))
    requires row[6] == Guarded(r.targetType) && row[7] == Guarded(r.targetId) && row[8] == Guarded(Some(r.payloadJson))
    ensures Reads(row, r)
  {
    GuardShows(Some(r.id));
    GuardShows(Some(r.createdAt));
    GuardShows(r.clientId);
    GuardShows(Some(r.actorType));
    GuardShows(r.actorId);
    GuardShows(Some(r.action));
    GuardShows(r.targetType);
    GuardShows(r.targetId);
    GuardShows(Some(r.payloadJson));
  }

  lemma CellsRead(cells: seq<Option<string>>, r: AuditRecord)
    requires |cells| == 9
    requires cells[0] == Some(r.id) && cells[1] == Some(r.createdAt) && cells[2] == r.clientId
    requires cells[3] == Some(r.actorType) && cells[4] == r.actorId && cells[5] == Some(r.action)
    requires cells[6] == r.targetType && cells[7] == r.targetId && cells[8] == Some(r.payloadJson)
    ensures Reads(GuardedRow(cells), r)
  {
    RowReads(GuardedRow(cells), r);
  }

  lemma TableRow(records: seq<AuditRecord>, i: nat)
    requires i < |records|
    ensures GuardedRows(Table(records))[i + 1] == GuardedRow(CellsOf(records[i]))
  {
    assert Table(records)[i + 1] == CellsOf(records[i]);
  }

  lemma RecordReads(records: seq<AuditRecord>, i: nat)
    requires i < |records|
    ensures Reads(GuardedRows(Table(records))[i + 1], records[i])
  {
    TableRow(records, i);
    CellsInOrder(records[i]);
    CellsRead(CellsOf(records[i]), records[i]);
  }

  lemma NoFormulas(rows: seq<seq<Option<string>>>)
    ensures forall i, j :: 0 <= i < |rows| && 0 <= j < |rows[i]| ==> !FormulaLead(GuardedRows(rows)[i][j])
  {
    forall i, j | 0 <= i < |rows| && 0 <= j < |rows[i]| ensures !FormulaLead(GuardedRows(rows)[i][j]) {
      GuardedIsSafe(rows[i][j]);
    }
  }

  predicate StartsFormula(field: string) {
    field != "" && field[0] in {'=', '+', '-', '@', '\t', '\r'}
  }

  /**
   * The export reads back as the header and one nine-field record per audit record, each value under its own name
   * and guarded, for any contents; and no field read back can start a formula.
   */
  lemma ExportReadsBack(records: seq<AuditRecord>)
    ensures var read := ReadCsv(AuditCsv(records));
            && read.Some? && |read.value| == 1 + |records|
            && read.value[0] == ["id", "created_at", "client_id", "actor_type", "actor_id",
                                 "action", "target_type", "target_id", "payload"]
            && (forall i :: 0 <= i < |records| ==> Reads(read.value[i + 1], records[i]))
            && (forall i, j :: 0 <= i < |read.value| && 0 <= j < |read.value[i]| ==> !StartsFormula(read.value[i][j]))
  {
    var table := Table(records);
    TableReadsBack(table);
    HeaderIsSafe();
    forall i | 0 <= i < |records| ensures Reads(GuardedRows(table)[i + 1], records[i]) {
      RecordReads(records, i);
    }
    NoFormulas(table);
    forall i, j | 0 <= i < |table| && 0 <= j < |table[i]| ensures !StartsFormula(GuardedRows(table)[i][j]) {
      assert !FormulaLead(GuardedRows(table)[i][j]);
    }
  }

  lemma {:induction false} LinesConcat(a: seq<seq<Option<string>>>, b: seq<seq<Option<string>>>)
    ensures Lines(a + b) == Lines(a) + Lines(b)
  {
    if a == [] {
      assert a + b == b;
    } else {
      assert (a + b)[1..] == a[1..] + b;
      LinesConcat(a[1..], b);
    }
  }

  /** An export is the header and then its records. */
  lemma HeaderThenRecords(records: seq<AuditRecord>)
    ensures AuditCsv(records) == AuditCsv([]) + Lines(Records(records))
  {
    var header := [Cells(COLUMNS)];
    assert Table([]) == header;
    assert Table(records) == header + Records(records);
    LinesConcat(header, Records(records));
  }

  lemma RecordsConcat(a: seq<AuditRecord>, b: seq<AuditRecord>)
    ensures Records(a + b) == Records(a) + Records(b)
  {
  }

  lemma Rearranged(header: string, a: string, b: string)
    ensures (header + b)[..|header|] == header && header + (a + b) == header + a + (header + b)[|header|..]
  {
    assert (header + b)[|header|..] == b;
  }

  /** Pages of an export may simply be appended: the header is there once more, and every line ends itself. */
  lemma ExportsAppend(a: seq<AuditRecord>, b: seq<AuditRecord>)
    ensures var header := AuditCsv([]);
            && |header| <= |AuditCsv(b)| && AuditCsv(b)[..|header|] == header
            && AuditCsv(a + b) == AuditCsv(a) + AuditCsv(b)[|header|..]
  {
    HeaderThenRecords(a);
    HeaderThenRecords(b);
    HeaderThenRecords(a + b);
    RecordsConcat(a, b);
    LinesConcat(Records(a), Records(b));
    Rearranged(AuditCsv([]), Lines(Records(a)), Lines(Records(b)));
  }

  /** What the guard loses: null against the empty cell, and a formula against the text that quotes it. */
  lemma GuardCollisions(a: Option<string>, b: Option<string>)
    ensures Guarded(a) == Guarded(b) <==>
            || a == b
            || (a in {None, Some("")} && b in {None, Some("")})
            || (a.Some? && b.Some? && FormulaLead(a.value) && b.value == "'" + a.value)
            || (a.Some? && b.Some? && FormulaLead(b.value) && a.value == "'" + b.value)
  {
    if a.Some? && b.Some? && FormulaLead(a.value) && FormulaLead(b.value) && Guarded(a) == Guarded(b) {
      assert Guarded(a)[1..] == a.value && Guarded(b)[1..] == b.value;
    }
  }
}

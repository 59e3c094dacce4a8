/**
 * The upload-to-journal-entry extraction pipeline (`FileProcessor`).
 *
 * Pure part: the column table and first-match column mapping, the coercion
 * rules, and the outcome of parsing one pipe-delimited line or one decoded
 * row (`LineOutcome`, `RowOutcome`), lifted to whole inputs
 * (`LinesEntries`, `LinesLogs`, ...).  Imperative part: the `FileProcessor`
 * class, whose methods walk the same steps against a `Database` and are
 * proved to produce exactly what the pure part describes.
 */
module FileProcessors {
  import opened Wrappers
  import opened PyText
  import opened Dates
  import opened Models

  // ---------------------------------------------------------------------
  // Foreign parsers and the processing context

  /**
   * The foreign conversions the pipeline calls: `Decimal(s)` (the amount in
   * cents, as the two-decimal column stores it) and
   * `pd.to_datetime(s).date()`, each with the text of the exception it raises.
   */
  datatype Parsers = Parsers(
    decimal: string -> Result<int>,
    flexibleDate: string -> Result<CalendarDate>)

  /** What one `FileProcessor` knows about its upload. */
  datatype Context = Context(
    upload: UploadId,
    user: Option<UserId>,
    originalFilename: string,
    project: Option<ProjectId>,
    parsers: Parsers)

  /** Result of one line or row: an entry saved, a silent skip, or a caught exception. */
  datatype Outcome = Created(entry: JournalEntry) | Skipped | Rejected(reason: string)

  function Abs(x: int): int
  {
    if x < 0 then -x else x
  }

  /** `'debit' if text.lower().startswith('d') else 'credit'`. */
  function EntryTypeOf(text: string): EntryType
  {
    if StartsWith(Lower(text), "d") then Debit else Credit
  }

  // ---------------------------------------------------------------------
  // Column mapping

  datatype Field = TitleField | AmountField | DateField | AccountField | TypeField | ReferenceField

  /** The canonical fields with their candidate column-name pieces, in declaration order. */
  const ColumnTable: seq<(Field, seq<string>)> := [
    (TitleField, ["title", "description", "memo", "reference"]),
    (AmountField, ["amount", "value", "total", "sum"]),
    (DateField, ["date", "transaction_date", "entry_date"]),
    (AccountField, ["account", "account_name", "account_number"]),
    (TypeField, ["type", "entry_type", "debit_credit", "dr_cr"]),
    (ReferenceField, ["reference", "ref", "ref_number", "transaction_id"])
  ]

  function FieldIndex(f: Field): (i: nat)
    ensures i < |ColumnTable| && ColumnTable[i].0 == f
  {
    match f
    case TitleField => 0
    case AmountField => 1
    case DateField => 2
    case AccountField => 3
    case TypeField => 4
    case ReferenceField => 5
  }

  function Candidates(f: Field): seq<string>
  {
    ColumnTable[FieldIndex(f)].1
  }

  /** `name.lower() in col.lower()`. */
  predicate Matches(candidate: string, column: string)
  {
    Contains(Lower(column), Lower(candidate))
  }

  /** Index of the first column, at `from` or later, whose name contains `candidate`. */
  function FirstColumnFrom(row: Row, candidate: string, from: nat): (r: Option<nat>)
    requires from <= |row|
    ensures r.Some? ==> from <= r.value < |row| && Matches(candidate, row[r.value].column)
    ensures r.Some? ==> forall j :: from <= j < r.value ==> !Matches(candidate, row[j].column)
    ensures r.None? ==> forall j :: from <= j < |row| ==> !Matches(candidate, row[j].column)
    decreases |row| - from
  {
    if from == |row| then None
    else if Matches(candidate, row[from].column) then Some(from)
    else FirstColumnFrom(row, candidate, from + 1)
  }

  function FirstColumn(row: Row, candidate: string): Option<nat>
  {
    FirstColumnFrom(row, candidate, 0)
  }

  /** The value a field with these candidates resolves to: first candidate with a match, first column for it. */
  function Resolve(row: Row, candidates: seq<string>): Option<string>
  {
    if candidates == [] then None
    else match FirstColumn(row, candidates[0])
      case Some(j) => Some(row[j].value)
      case None => Resolve(row, candidates[1..])
  }

  /** The `data` dict after the first `t` fields of the table have been tried. */
  function PartialMapping(row: Row, t: nat): (m: map<Field, string>)
    requires t <= |ColumnTable|
  {
    if t == 0 then map[]
    else
      var m := PartialMapping(row, t - 1);
      var f := ColumnTable[t - 1].0;
      match Resolve(row, ColumnTable[t - 1].1)
      case Some(v) => m[f := v]
      case None => m
  }

  /** The `data` dict built from a row. */
  function ColumnMapping(row: Row): map<Field, string>
  {
    PartialMapping(row, |ColumnTable|)
  }

  predicate NoColumnMatches(row: Row, candidate: string)
  {
    forall j :: 0 <= j < |row| ==> !Matches(candidate, row[j].column)
  }

  /**
   * Column `j` is the one chosen for candidate `k`: no earlier candidate matches
   * any column, and no earlier column matches candidate `k`.
   */
  predicate IsFirstMatch(row: Row, candidates: seq<string>, k: nat, j: nat)
  {
    k < |candidates| && j < |row| && Matches(candidates[k], row[j].column)
    && (forall k' :: 0 <= k' < k ==> NoColumnMatches(row, candidates[k']))
    && (forall j' :: 0 <= j' < j ==> !Matches(candidates[k], row[j'].column))
  }

  // ---------------------------------------------------------------------
  // Outcome of one line and of one row

  const GeneralAccount: string := "General"

  /** `parse_journal_line(line)` as a value: what it saves, skips or reports. */
  function LineOutcome(ctx: Context, line: string): Outcome
  {
    if '|' !in line then Skipped
    else
      var parts := StripAll(Split(line, '|'));
      if |parts| < 4 then Skipped
      else match ctx.parsers.decimal(parts[2])
        case Err(e) => Rejected(e)
        case Ok(amount) =>
          match StrictIsoDate(parts[0])
          case Err(e) => Rejected(e)
          case Ok(date) =>
            var entry := JournalEntry(ctx.project, ctx.user, parts[1], "", EntryTypeOf(parts[3]),
                                      Abs(amount), date, GeneralAccount, "");
            match SaveError(entry)
            case Some(e) => Rejected(e)
            case None => Created(entry)
  }

  function Lookup(data: map<Field, string>, f: Field, default: string): string
  {
    if f in data then data[f] else default
  }

  function DefaultTitle(originalFilename: string): string
  {
    "Entry from " + originalFilename
  }

  /** `create_entry_from_row(row, n)` as a value: what it saves, skips or reports. */
  function RowOutcome(ctx: Context, row: Row): Outcome
  {
    var data := ColumnMapping(row);
    if !(AmountField in data && DateField in data) then Skipped
    else match ctx.parsers.decimal(data[AmountField])
      case Err(e) => Rejected(e)
      case Ok(amount) =>
        match ctx.parsers.flexibleDate(data[DateField])
        case Err(e) => Rejected(e)
        case Ok(date) =>
          var entry := JournalEntry(
            ctx.project, ctx.user,
            Lookup(data, TitleField, DefaultTitle(ctx.originalFilename)), "",
            EntryTypeOf(Lookup(data, TypeField, "")),
            Abs(amount), date,
            Lookup(data, AccountField, GeneralAccount),
            Lookup(data, ReferenceField, ""));
          match SaveError(entry)
          case Some(e) => Rejected(e)
          case None => Created(entry)
  }

  function CreatedBy(o: Outcome): seq<JournalEntry>
  {
    if o.Created? then [o.entry] else []
  }

  function LineWarning(line: string, reason: string): string
  {
    "Error parsing line '" + line + "': " + reason
  }

  function RowWarning(rowNumber: nat, reason: string): string
  {
    "Error processing row " + NatToString(rowNumber) + ": " + reason
  }

  function LineLog(ctx: Context, line: string): seq<LogRecord>
  {
    var o := LineOutcome(ctx, line);
    if o.Rejected? then [LogRecord(ctx.upload, LineWarning(line, o.reason), Warning)] else []
  }

  function RowLog(ctx: Context, row: Row, rowNumber: nat): seq<LogRecord>
  {
    var o := RowOutcome(ctx, row);
    if o.Rejected? then [LogRecord(ctx.upload, RowWarning(rowNumber, o.reason), Warning)] else []
  }

  // ---------------------------------------------------------------------
  // Whole inputs: every line is stripped first; rows are numbered from 1

  function LinesEntries(ctx: Context, lines: seq<string>): seq<JournalEntry>
  {
    if lines == [] then []
    else LinesEntries(ctx, lines[..|lines| - 1]) + CreatedBy(LineOutcome(ctx, Strip(lines[|lines| - 1])))
  }

  function LinesLogs(ctx: Context, lines: seq<string>): seq<LogRecord>
  {
    if lines == [] then []
    else LinesLogs(ctx, lines[..|lines| - 1]) + LineLog(ctx, Strip(lines[|lines| - 1]))
  }

  function RowsEntries(ctx: Context, rows: seq<Row>): seq<JournalEntry>
  {
    if rows == [] then []
    else RowsEntries(ctx, rows[..|rows| - 1]) + CreatedBy(RowOutcome(ctx, rows[|rows| - 1]))
  }

  function RowsLogs(ctx: Context, rows: seq<Row>): seq<LogRecord>
  {
    if rows == [] then []
    else RowsLogs(ctx, rows[..|rows| - 1]) + RowLog(ctx, rows[|rows| - 1], |rows|)
  }

  /** Number of lines that are skipped without a log record. */
  function LinesSkipped(ctx: Context, lines: seq<string>): nat
  {
    if lines == [] then 0
    else LinesSkipped(ctx, lines[..|lines| - 1]) + (if LineOutcome(ctx, Strip(lines[|lines| - 1])).Skipped? then 1 else 0)
  }

  /** Number of rows that are skipped without a log record. */
  function RowsSkipped(ctx: Context, rows: seq<Row>): nat
  {
    if rows == [] then 0
    else RowsSkipped(ctx, rows[..|rows| - 1]) + (if RowOutcome(ctx, rows[|rows| - 1]).Skipped? then 1 else 0)
  }

  // ---------------------------------------------------------------------
  // The processing session

  /** What the dispatcher reads from the stored file, by declared file type. */
  datatype Input = NoInput | PdfText(lines: seq<string>) | TextLines(lines: seq<string>)
                 | CsvTable(rows: seq<Row>) | ExcelTable(rows: seq<Row>)

  /** Reading the file: with rows numbered by position, the exception raised here is the only one that fails the session. */
  function ReadInput(fileType: Option<FileType>, file: StoredFile): Result<Input>
  {
    match fileType
    case Some(Pdf) => (match file.pdfPages case Err(e) => Err(e) case Ok(pages) => Ok(PdfText(Split(Concat(pages), '\n'))))
    case Some(Txt) => (match file.textLines case Err(e) => Err(e) case Ok(lines) => Ok(TextLines(lines)))
    case Some(Csv) => (match file.csvRows case Err(e) => Err(e) case Ok(rows) => Ok(CsvTable(rows)))
    case Some(Excel) => (match file.excelRows case Err(e) => Err(e) case Ok(rows) => Ok(ExcelTable(rows)))
    case None => Ok(NoInput)
  }

  /** The entries one dispatched input yields. */
  function InputEntries(ctx: Context, input: Input): seq<JournalEntry>
  {
    match input
    case NoInput => []
    case PdfText(lines) => LinesEntries(ctx, lines)
    case TextLines(lines) => LinesEntries(ctx, lines)
    case CsvTable(rows) => RowsEntries(ctx, rows)
    case ExcelTable(rows) => RowsEntries(ctx, rows)
  }

  /** The info record each format writes before its loop. */
  function IntroMessage(input: Input): string
  {
    match input
    case NoInput => ""
    case PdfText(lines) => "Extracted " + NatToString(|lines|) + " lines from PDF"
    case TextLines(lines) => "Processing " + NatToString(|lines|) + " lines from text file"
    case CsvTable(rows) => "Processing CSV with " + NatToString(|rows|) + " rows"
    case ExcelTable(rows) => "Processing Excel with " + NatToString(|rows|) + " rows"
  }

  /** The log records one dispatched input yields, before the completion record. */
  function InputLogs(ctx: Context, input: Input): seq<LogRecord>
  {
    match input
    case NoInput => []
    case PdfText(lines) => [LogRecord(ctx.upload, IntroMessage(input), Info)] + LinesLogs(ctx, lines)
    case TextLines(lines) => [LogRecord(ctx.upload, IntroMessage(input), Info)] + LinesLogs(ctx, lines)
    case CsvTable(rows) => [LogRecord(ctx.upload, IntroMessage(input), Info)] + RowsLogs(ctx, rows)
    case ExcelTable(rows) => [LogRecord(ctx.upload, IntroMessage(input), Info)] + RowsLogs(ctx, rows)
  }

  function CompletedMessage(count: nat): string
  {
    "Processing completed. Created " + NatToString(count) + " journal entries."
  }

  function FailedMessage(reason: string): string
  {
    "Processing failed: " + reason
  }

  // ---------------------------------------------------------------------
  // Steps used by the loops of the processor

  lemma FirstColumnIs(row: Row, candidate: string, j: nat)
    requires j < |row| && Matches(candidate, row[j].column)
    requires forall i :: 0 <= i < j ==> !Matches(candidate, row[i].column)
    ensures FirstColumn(row, candidate) == Some(j)
  {
  }

  lemma ResolveStep(row: Row, names: seq<string>, k: nat)
    requires k < |names|
    ensures FirstColumn(row, names[k]).Some? ==>
              Resolve(row, names[k..]) == Some(row[FirstColumn(row, names[k]).value].value)
    ensures FirstColumn(row, names[k]).None? ==> Resolve(row, names[k..]) == Resolve(row, names[k + 1..])
  {
    assert names[k..][0] == names[k];
    assert names[k..][1..] == names[k + 1..];
  }

  /** Only the fields of the first `t` rows of the table can be mapped. */
  lemma {:induction false} PartialMappingDomain(row: Row, t: nat, f: Field)
    requires t <= |ColumnTable|
    requires f in PartialMapping(row, t)
    ensures FieldIndex(f) < t
  {
    if f !in PartialMapping(row, t - 1) {
      assert ColumnTable[t - 1].0 == f;
    } else {
      PartialMappingDomain(row, t - 1, f);
    }
  }

  lemma PartialMappingStep(row: Row, t: nat)
    requires t < |ColumnTable|
    ensures ColumnTable[t].0 !in PartialMapping(row, t)
    ensures Resolve(row, ColumnTable[t].1).None? ==> PartialMapping(row, t + 1) == PartialMapping(row, t)
    ensures Resolve(row, ColumnTable[t].1).Some? ==>
              PartialMapping(row, t + 1) == PartialMapping(row, t)[ColumnTable[t].0 := Resolve(row, ColumnTable[t].1).value]
  {
    assert FieldIndex(ColumnTable[t].0) == t;
    if ColumnTable[t].0 in PartialMapping(row, t) {
      PartialMappingDomain(row, t, ColumnTable[t].0);
    }
  }

  /**
   * One turn of the loop over lines keeps its invariant: from `base`, the
   * stored entries, the logs and the counter have grown by what the first `i`
   * lines yield, and the call on line `i` adds that line's share.
   */
  lemma LinesStep(ctx: Context, lines: seq<string>, i: nat,
                  baseEntries: seq<JournalEntry>, baseLogs: seq<LogRecord>, baseCount: nat,
                  entries0: seq<JournalEntry>, logs0: seq<LogRecord>, count0: nat,
                  entries: seq<JournalEntry>, logs: seq<LogRecord>, count: nat, created: bool)
    requires i < |lines|
    requires entries0 == baseEntries + LinesEntries(ctx, lines[..i])
    requires logs0 == baseLogs + LinesLogs(ctx, lines[..i])
    requires count0 == baseCount + |LinesEntries(ctx, lines[..i])|
    requires created <==> LineOutcome(ctx, Strip(lines[i])).Created?
    requires entries == entries0 + CreatedBy(LineOutcome(ctx, Strip(lines[i])))
    requires logs == logs0 + LineLog(ctx, Strip(lines[i]))
    requires count == if created then count0 + 1 else count0
    ensures entries == baseEntries + LinesEntries(ctx, lines[..i + 1])
    ensures logs == baseLogs + LinesLogs(ctx, lines[..i + 1])
    ensures count == baseCount + |LinesEntries(ctx, lines[..i + 1])|
  {
    LinesEntriesSnoc(ctx, lines, i);
    LinesLogsSnoc(ctx, lines, i);
    var o := LineOutcome(ctx, Strip(lines[i]));
    AppendAssoc(baseEntries, LinesEntries(ctx, lines[..i]), CreatedBy(o));
    AppendAssoc(baseLogs, LinesLogs(ctx, lines[..i]), LineLog(ctx, Strip(lines[i])));
  }

  lemma LinesEntriesSnoc(ctx: Context, lines: seq<string>, i: nat)
    requires i < |lines|
    ensures LinesEntries(ctx, lines[..i + 1])
            == LinesEntries(ctx, lines[..i]) + CreatedBy(LineOutcome(ctx, Strip(lines[i])))
  {
    assert lines[..i + 1][..i] == lines[..i];
  }

  lemma LinesLogsSnoc(ctx: Context, lines: seq<string>, i: nat)
    requires i < |lines|
    ensures LinesLogs(ctx, lines[..i + 1]) == LinesLogs(ctx, lines[..i]) + LineLog(ctx, Strip(lines[i]))
  {
    assert lines[..i + 1][..i] == lines[..i];
  }

  /** One turn of the loop over rows keeps its invariant, as `LinesStep` for lines. */
  lemma RowsStep(ctx: Context, rows: seq<Row>, i: nat,
                 baseEntries: seq<JournalEntry>, baseLogs: seq<LogRecord>, baseCount: nat,
                 entries0: seq<JournalEntry>, logs0: seq<LogRecord>, count0: nat,
                 entries: seq<JournalEntry>, logs: seq<LogRecord>, count: nat, created: bool)
    requires i < |rows|
    requires entries0 == baseEntries + RowsEntries(ctx, rows[..i])
    requires logs0 == baseLogs + RowsLogs(ctx, rows[..i])
    requires count0 == baseCount + |RowsEntries(ctx, rows[..i])|
    requires created <==> RowOutcome(ctx, rows[i]).Created?
    requires entries == entries0 + CreatedBy(RowOutcome(ctx, rows[i]))
    requires logs == logs0 + RowLog(ctx, rows[i], i + 1)
    requires count == if created then count0 + 1 else count0
    ensures entries == baseEntries + RowsEntries(ctx, rows[..i + 1])
    ensures logs == baseLogs + RowsLogs(ctx, rows[..i + 1])
    ensures count == baseCount + |RowsEntries(ctx, rows[..i + 1])|
  {
    RowsEntriesSnoc(ctx, rows, i);
    RowsLogsSnoc(ctx, rows, i);
    var o := RowOutcome(ctx, rows[i]);
    AppendAssoc(baseEntries, RowsEntries(ctx, rows[..i]), CreatedBy(o));
    AppendAssoc(baseLogs, RowsLogs(ctx, rows[..i]), RowLog(ctx, rows[i], i + 1));
  }

  lemma RowsEntriesSnoc(ctx: Context, rows: seq<Row>, i: nat)
    requires i < |rows|
    ensures RowsEntries(ctx, rows[..i + 1]) == RowsEntries(ctx, rows[..i]) + CreatedBy(RowOutcome(ctx, rows[i]))
  {
    assert rows[..i + 1][..i] == rows[..i];
  }

  lemma RowsLogsSnoc(ctx: Context, rows: seq<Row>, i: nat)
    requires i < |rows|
    ensures RowsLogs(ctx, rows[..i + 1]) == RowsLogs(ctx, rows[..i]) + RowLog(ctx, rows[i], i + 1)
  {
    assert rows[..i + 1][..i] == rows[..i];
  }

  // ---------------------------------------------------------------------
  // The processor

  class FileProcessor {
    const upload: UploadedFile
    const project: Option<ProjectId>
    const db: Database
    const parsers: Parsers
    var entriesCreated: nat

    constructor (upload: UploadedFile, db: Database, parsers: Parsers, project: Option<ProjectId>)
      ensures this.upload == upload && this.db == db && this.parsers == parsers && this.project == project
      ensures entriesCreated == 0
    {
      this.upload := upload;
      this.db := db;
      this.parsers := parsers;
      this.project := project;
      entriesCreated := 0;
    }

    function Ctx(): Context
    {
      Context(upload.id, upload.user, upload.originalFilename, project, parsers)
    }

    /** `self.log(message, level)`. */
    method Log(message: string, level: Level)
      modifies db
      ensures db.logs == old(db.logs) + [LogRecord(upload.id, message, level)]
      ensures db.entries == old(db.entries) && db.uploadSaves == old(db.uploadSaves)
    {
      db.CreateLog(LogRecord(upload.id, message, level));
    }

    /**
     * The two inner loops of the column mapping: candidates in order, columns
     * in order, stopping at the first column whose name contains a candidate.
     */
    static method ResolveField(row: Row, names: seq<string>) returns (value: Option<string>)
      ensures value == Resolve(row, names)
    {
      value := None;
      var k := 0;
      while k < |names|
        invariant 0 <= k <= |names|
        invariant value == None
        invariant Resolve(row, names) == Resolve(row, names[k..])
      {
        var j := 0;
        while j < |row|
          invariant 0 <= j <= |row|
          invariant value == None
          invariant forall i :: 0 <= i < j ==> !Matches(names[k], row[i].column)
        {
          if Matches(names[k], row[j].column) {
            value := Some(row[j].value);
            break;
          }
          j := j + 1;
        }
        ResolveStep(row, names, k);
        if value.Some? {
          FirstColumnIs(row, names[k], j);
          break;
        }
        k := k + 1;
      }
    }

    /** The `data` dict: each field of the table, in order, resolved against the row's columns. */
    static method MapColumns(row: Row) returns (data: map<Field, string>)
      ensures data == ColumnMapping(row)
    {
      data := map[];
      var t := 0;
      while t < |ColumnTable|
        invariant 0 <= t <= |ColumnTable|
        invariant data == PartialMapping(row, t)
      {
        var field, names := ColumnTable[t].0, ColumnTable[t].1;
        PartialMappingStep(row, t);
        var value := ResolveField(row, names);
        if value.Some? {
          data := data[field := value.value];
        }
        t := t + 1;
      }
    }

    /** `parse_journal_line(line)`. */
    method ParseJournalLine(line: string) returns (ok: bool)
      modifies db
      ensures ok <==> LineOutcome(Ctx(), line).Created?
      ensures db.entries == old(db.entries) + CreatedBy(LineOutcome(Ctx(), line))
      ensures db.logs == old(db.logs) + LineLog(Ctx(), line)
      ensures db.uploadSaves == old(db.uploadSaves)
    {
      if '|' in line {
        var parts := StripAll(Split(line, '|'));
        if |parts| >= 4 {
          var dateText, title, amountText, typeText := parts[0], parts[1], parts[2], parts[3];
          var amount := parsers.decimal(amountText);
          if amount.Err? {
            Log(LineWarning(line, amount.error), Warning);
            return false;
          }
          var date := StrictIsoDate(dateText);
          if date.Err? {
            Log(LineWarning(line, date.error), Warning);
            return false;
          }
          var entry := JournalEntry(project, upload.user, title, "", EntryTypeOf(typeText),
                                    Abs(amount.value), date.value, GeneralAccount, "");
          var err := db.SaveEntry(entry);
          if err.Some? {
            Log(LineWarning(line, err.value), Warning);
            return false;
          }
          return true;
        }
      }
      return false;
    }

    /** `create_entry_from_row(row, rowNumber)`. */
    method CreateEntryFromRow(row: Row, rowNumber: nat) returns (ok: bool)
      modifies db
      ensures ok <==> RowOutcome(Ctx(), row).Created?
      ensures db.entries == old(db.entries) + CreatedBy(RowOutcome(Ctx(), row))
      ensures db.logs == old(db.logs) + RowLog(Ctx(), row, rowNumber)
      ensures db.uploadSaves == old(db.uploadSaves)
    {
      var data := MapColumns(row);
      if AmountField in data && DateField in data {
        var title := Lookup(data, TitleField, DefaultTitle(upload.originalFilename));
        var amount := parsers.decimal(data[AmountField]);
        if amount.Err? {
          Log(RowWarning(rowNumber, amount.error), Warning);
          return false;
        }
        var date := parsers.flexibleDate(data[DateField]);
        if date.Err? {
          Log(RowWarning(rowNumber, date.error), Warning);
          return false;
        }
        var entry := JournalEntry(project, upload.user, title, "",
                                  EntryTypeOf(Lookup(data, TypeField, "")),
                                  Abs(amount.value), date.value,
                                  Lookup(data, AccountField, GeneralAccount),
                                  Lookup(data, ReferenceField, ""));
        var err := db.SaveEntry(entry);
        if err.Some? {
          Log(RowWarning(rowNumber, err.value), Warning);
          return false;
        }
        return true;
      }
      return false;
    }

    /** `for line in lines: if self.parse_journal_line(line.strip()): self.entries_created += 1`. */
    method ParseLines(lines: seq<string>)
      modifies this, db
      ensures entriesCreated == old(entriesCreated) + |LinesEntries(Ctx(), lines)|
      ensures db.entries == old(db.entries) + LinesEntries(Ctx(), lines)
      ensures db.logs == old(db.logs) + LinesLogs(Ctx(), lines)
      ensures db.uploadSaves == old(db.uploadSaves)
    {
      var i := 0;
      while i < |lines|
        invariant 0 <= i <= |lines|
        invariant entriesCreated == old(entriesCreated) + |LinesEntries(Ctx(), lines[..i])|
        invariant db.entries == old(db.entries) + LinesEntries(Ctx(), lines[..i])
        invariant db.logs == old(db.logs) + LinesLogs(Ctx(), lines[..i])
        invariant db.uploadSaves == old(db.uploadSaves)
      {
        ghost var entries0, logs0, count0 := db.entries, db.logs, entriesCreated;
        var created := ParseJournalLine(Strip(lines[i]));
        if created {
          entriesCreated := entriesCreated + 1;
        }
        LinesStep(Ctx(), lines, i, old(db.entries), old(db.logs), old(entriesCreated),
                  entries0, logs0, count0, db.entries, db.logs, entriesCreated, created);
        i := i + 1;
      }
      assert lines[..i] == lines;
    }

    /** `for index, row in df.iterrows(): if self.create_entry_from_row(row, index + 1): ...`. */
    method ParseRows(rows: seq<Row>)
      modifies this, db
      ensures entriesCreated == old(entriesCreated) + |RowsEntries(Ctx(), rows)|
      ensures db.entries == old(db.entries) + RowsEntries(Ctx(), rows)
      ensures db.logs == old(db.logs) + RowsLogs(Ctx(), rows)
      ensures db.uploadSaves == old(db.uploadSaves)
    {
      var index := 0;
      while index < |rows|
        invariant 0 <= index <= |rows|
        invariant entriesCreated == old(entriesCreated) + |RowsEntries(Ctx(), rows[..index])|
        invariant db.entries == old(db.entries) + RowsEntries(Ctx(), rows[..index])
        invariant db.logs == old(db.logs) + RowsLogs(Ctx(), rows[..index])
        invariant db.uploadSaves == old(db.uploadSaves)
      {
        ParseRowAt(rows, index, old(db.entries), old(db.logs), old(entriesCreated));
        index := index + 1;
      }
      assert rows[..index] == rows;
    }

    /** One turn of the loop of `ParseRows`: row `index` is parsed with number `index + 1`. */
    method ParseRowAt(rows: seq<Row>, index: nat, ghost baseEntries: seq<JournalEntry>,
                      ghost baseLogs: seq<LogRecord>, ghost baseCount: nat)
      requires index < |rows|
      requires entriesCreated == baseCount + |RowsEntries(Ctx(), rows[..index])|
      requires db.entries == baseEntries + RowsEntries(Ctx(), rows[..index])
      requires db.logs == baseLogs + RowsLogs(Ctx(), rows[..index])
      modifies this, db
      ensures entriesCreated == baseCount + |RowsEntries(Ctx(), rows[..index + 1])|
      ensures db.entries == baseEntries + RowsEntries(Ctx(), rows[..index + 1])
      ensures db.logs == baseLogs + RowsLogs(Ctx(), rows[..index + 1])
      ensures db.uploadSaves == old(db.uploadSaves)
    {
      ghost var entries0, logs0, count0 := db.entries, db.logs, entriesCreated;
      var created := CreateEntryFromRow(rows[index], index + 1);
      if created {
        entriesCreated := entriesCreated + 1;
      }
      RowsStep(Ctx(), rows, index, baseEntries, baseLogs, baseCount,
               entries0, logs0, count0, db.entries, db.logs, entriesCreated, created);
    }

    /** `process_pdf` once the pages' text has been extracted. */
    method ProcessPdf(pages: seq<string>)
      modifies this, db
      ensures entriesCreated == old(entriesCreated) + |InputEntries(Ctx(), PdfText(Split(Concat(pages), '\n')))|
      ensures db.entries == old(db.entries) + InputEntries(Ctx(), PdfText(Split(Concat(pages), '\n')))
      ensures db.logs == old(db.logs) + InputLogs(Ctx(), PdfText(Split(Concat(pages), '\n')))
      ensures db.uploadSaves == old(db.uploadSaves)
    {
      var text := "";
      var p := 0;
      while p < |pages|
        invariant 0 <= p <= |pages|
        invariant text == Concat(pages[..p])
      {
        assert pages[..p + 1][..p] == pages[..p];
        text := text + pages[p];
        p := p + 1;
      }
      assert pages[..p] == pages;
      var lines := Split(text, '\n');
      Log(IntroMessage(PdfText(lines)), Info);
      ParseLines(lines);
    }

    /** `process_txt` once the file's lines have been read. */
    method ProcessTxt(lines: seq<string>)
      modifies this, db
      ensures entriesCreated == old(entriesCreated) + |InputEntries(Ctx(), TextLines(lines))|
      ensures db.entries == old(db.entries) + InputEntries(Ctx(), TextLines(lines))
      ensures db.logs == old(db.logs) + InputLogs(Ctx(), TextLines(lines))
      ensures db.uploadSaves == old(db.uploadSaves)
    {
      Log(IntroMessage(TextLines(lines)), Info);
      ParseLines(lines);
    }

    /** `process_csv` once the CSV has been decoded into rows. */
    method ProcessCsv(rows: seq<Row>)
      modifies this, db
      ensures entriesCreated == old(entriesCreated) + |InputEntries(Ctx(), CsvTable(rows))|
      ensures db.entries == old(db.entries) + InputEntries(Ctx(), CsvTable(rows))
      ensures db.logs == old(db.logs) + InputLogs(Ctx(), CsvTable(rows))
      ensures db.uploadSaves == old(db.uploadSaves)
    {
      Log(IntroMessage(CsvTable(rows)), Info);
      ParseRows(rows);
    }

    /** `process_excel` once the spreadsheet has been decoded into rows. */
    method ProcessExcel(rows: seq<Row>)
      modifies this, db
      ensures entriesCreated == old(entriesCreated) + |InputEntries(Ctx(), ExcelTable(rows))|
      ensures db.entries == old(db.entries) + InputEntries(Ctx(), ExcelTable(rows))
      ensures db.logs == old(db.logs) + InputLogs(Ctx(), ExcelTable(rows))
      ensures db.uploadSaves == old(db.uploadSaves)
    {
      Log(IntroMessage(ExcelTable(rows)), Info);
      ParseRows(rows);
    }

    /**
     * `process()`: mark the upload as processing and save it, dispatch on the
     * file type, then complete (count, time, info record) or, when reading the
     * file raised, fail (message, error record); the upload is saved again on
     * either path.
     */
    method Process(now: Timestamp)
      modifies this, upload, db
      ensures ReadInput(upload.fileType, upload.file).Ok? ==>
        var input := ReadInput(upload.fileType, upload.file).value;
        && entriesCreated == old(entriesCreated) + |InputEntries(Ctx(), input)|
        && upload.status == Completed
        && upload.processedEntriesCount == entriesCreated
        && upload.processedAt == Some(now)
        && upload.errorMessage == old(upload.errorMessage)
        && db.entries == old(db.entries) + InputEntries(Ctx(), input)
        && db.logs == old(db.logs) + InputLogs(Ctx(), input)
                      + [LogRecord(upload.id, CompletedMessage(entriesCreated), Info)]
      ensures ReadInput(upload.fileType, upload.file).Err? ==>
        var reason := ReadInput(upload.fileType, upload.file).error;
        && entriesCreated == old(entriesCreated)
        && upload.status == Failed
        && upload.errorMessage == reason
        && upload.processedEntriesCount == old(upload.processedEntriesCount)
        && upload.processedAt == old(upload.processedAt)
        && db.entries == old(db.entries)
        && db.logs == old(db.logs) + [LogRecord(upload.id, FailedMessage(reason), Error)]
      ensures db.uploadSaves == old(db.uploadSaves) + [
        (upload.id, UploadSnapshot(Processing, old(upload.errorMessage), old(upload.processedEntriesCount), old(upload.processedAt))),
        (upload.id, upload.Snapshot())]
    {
      upload.status := Processing;
      db.SaveUpload(upload);
      var failure: Option<string> := None;
      match upload.fileType {
        case Some(Pdf) =>
          match upload.file.pdfPages {
            case Err(e) => failure := Some(e);
            case Ok(pages) => ProcessPdf(pages);
          }
        case Some(Txt) =>
          match upload.file.textLines {
            case Err(e) => failure := Some(e);
            case Ok(lines) => ProcessTxt(lines);
          }
        case Some(Csv) =>
          match upload.file.csvRows {
            case Err(e) => failure := Some(e);
            case Ok(rows) => ProcessCsv(rows);
          }
        case Some(Excel) =>
          match upload.file.excelRows {
            case Err(e) => failure := Some(e);
            case Ok(rows) => ProcessExcel(rows);
          }
        case None =>
      }
      if failure.None? {
        upload.status := Completed;
        upload.processedEntriesCount := entriesCreated;
        upload.processedAt := Some(now);
        Log(CompletedMessage(entriesCreated), Info);
      } else {
        upload.status := Failed;
        upload.errorMessage := failure.value;
        Log(FailedMessage(failure.value), Error);
      }
      db.SaveUpload(upload);
    }
  }
}

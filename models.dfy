/**
 * The records of the journal application and the database that stores them.
 *
 * The ORM is modelled as a `Database` object holding append-only sequences:
 * saved journal entries, processing log records and the successive saved
 * states of uploads.  Identifiers, users and wall-clock times are opaque
 * numbers.  Amounts are whole numbers of cents, the value of a
 * `DecimalField(decimal_places=2)`.
 */
module Models {
  import opened Wrappers
  import opened Dates
  import opened PyText

  type UserId = nat
  type ProjectId = nat
  type UploadId = nat
  type Timestamp = nat

  /** `JournalEntry.ENTRY_TYPES`: the only two values `entry_type` takes. */
  datatype EntryType = Debit | Credit

  /** `UploadedFile.FILE_TYPES`. */
  datatype FileType = Pdf | Txt | Csv | Excel

  /** `UploadedFile.PROCESSING_STATUS`. */
  datatype Status = Pending | Processing | Completed | Failed

  /** The levels a `ProcessingLog` record may carry. */
  datatype Level = Info | Warning | Error

  /**
   * `amount = DecimalField(max_digits=12, decimal_places=2)`.  An amount is
   * held in cents, its value times 10 to the `AmountDecimalPlaces`, so the
   * column holds at most `AmountMaxDigits` digits of cents: at most ten
   * digits before the point.
   */
  const AmountMaxDigits: nat := 12
  const AmountDecimalPlaces: nat := 2
  const AmountBound: int := 1_000_000_000_000

  /** The magnitude of an amount, whose digits the column counts. */
  function Magnitude(cents: int): nat
  {
    if cents < 0 then -cents else cents
  }

  /** An amount, in cents, that the `amount` column can hold. */
  predicate AmountFits(cents: int)
  {
    -AmountBound < cents < AmountBound
  }

  datatype JournalEntry = JournalEntry(
    project: Option<ProjectId>,
    user: Option<UserId>,
    title: string,
    description: string,
    entryType: EntryType,
    amount: int,
    date: CalendarDate,
    accountName: string,
    referenceNumber: string)

  /** One cell of a decoded CSV or spreadsheet row: column label and text. */
  datatype Cell = Cell(column: string, value: string)

  type Row = seq<Cell>

  /**
   * What the foreign readers yield for one stored file: the text of each PDF
   * page, the lines of the text file, the rows of the CSV or spreadsheet
   * reader, or the text of the exception the reader raises.
   */
  datatype StoredFile = StoredFile(
    pdfPages: Result<seq<string>>,
    textLines: Result<seq<string>>,
    csvRows: Result<seq<Row>>,
    excelRows: Result<seq<Row>>)

  /** The fields of an upload that processing changes, as saved at one moment. */
  datatype UploadSnapshot = UploadSnapshot(
    status: Status,
    errorMessage: string,
    processedEntriesCount: nat,
    processedAt: Option<Timestamp>)

  /** A `ProcessingLog` row; its `timestamp` is its position in `Database.logs`. */
  datatype LogRecord = LogRecord(upload: UploadId, message: string, level: Level)

  /** A log record as the status endpoint reports it. */
  datatype LogView = LogView(message: string, level: Level, timestamp: Timestamp)

  class UploadedFile {
    const id: UploadId
    const user: Option<UserId>
    const file: StoredFile
    const originalFilename: string
    const fileType: Option<FileType>
    const fileSize: nat
    var status: Status
    var errorMessage: string
    var processedEntriesCount: nat
    var processedAt: Option<Timestamp>

    /** A new upload: `status` defaults to pending and `processed_entries_count` to 0. */
    constructor (id: UploadId, user: Option<UserId>, file: StoredFile, originalFilename: string,
                 fileType: Option<FileType>, fileSize: nat)
      ensures this.id == id && this.user == user && this.file == file
      ensures this.originalFilename == originalFilename && this.fileType == fileType && this.fileSize == fileSize
      ensures status == Pending && errorMessage == "" && processedEntriesCount == 0 && processedAt == None
    {
      this.id := id;
      this.user := user;
      this.file := file;
      this.originalFilename := originalFilename;
      this.fileType := fileType;
      this.fileSize := fileSize;
      status := Pending;
      errorMessage := "";
      processedEntriesCount := 0;
      processedAt := None;
    }

    function Snapshot(): UploadSnapshot
      reads this
    {
      UploadSnapshot(status, errorMessage, processedEntriesCount, processedAt)
    }
  }

  /** The message of the `decimal.InvalidOperation` raised when an amount overflows its column. */
  const AmountOverflowMessage: string := "[<class 'decimal.InvalidOperation'>]"

  /** An amount fits its column exactly when its cents have at most `AmountMaxDigits` digits. */
  lemma AmountFitsDigits(cents: int)
    ensures AmountFits(cents) <==> |NatToString(Magnitude(cents))| <= AmountMaxDigits
  {
    NatToStringLength(Magnitude(cents), AmountMaxDigits - 1);
    assert Pow10(AmountMaxDigits) == AmountBound;
  }

  /**
   * The exception `entry.save()` raises for `e`, if any: the decimal
   * adaptation raises `InvalidOperation` when the amount needs more digits
   * than the column's `max_digits`.
   */
  function SaveError(e: JournalEntry): (err: Option<string>)
    ensures err.None? <==> |NatToString(Magnitude(e.amount))| <= AmountMaxDigits
    ensures err.Some? ==> err.value == AmountOverflowMessage
  {
    AmountFitsDigits(e.amount);
    if AmountFits(e.amount) then None else Some(AmountOverflowMessage)
  }

  class Database {
    var entries: seq<JournalEntry>
    var logs: seq<LogRecord>
    var uploadSaves: seq<(UploadId, UploadSnapshot)>

    constructor ()
      ensures entries == [] && logs == [] && uploadSaves == []
    {
      entries, logs, uploadSaves := [], [], [];
    }

    /** `entry.save()`: stores `e`, or raises without storing anything. */
    method SaveEntry(e: JournalEntry) returns (err: Option<string>)
      modifies this
      ensures err == SaveError(e)
      ensures entries == if err.None? then old(entries) + [e] else old(entries)
      ensures logs == old(logs) && uploadSaves == old(uploadSaves)
    {
      err := SaveError(e);
      if err.None? {
        entries := entries + [e];
      }
    }

    /** `ProcessingLog.objects.create(...)`. */
    method CreateLog(r: LogRecord)
      modifies this
      ensures logs == old(logs) + [r]
      ensures entries == old(entries) && uploadSaves == old(uploadSaves)
    {
      logs := logs + [r];
    }

    /** `uploaded_file.save()`. */
    method SaveUpload(u: UploadedFile)
      modifies this
      ensures uploadSaves == old(uploadSaves) + [(u.id, u.Snapshot())]
      ensures entries == old(entries) && logs == old(logs)
    {
      uploadSaves := uploadSaves + [(u.id, u.Snapshot())];
    }
  }

  // ---------------------------------------------------------------------
  // Logs of one upload, newest first (`ProcessingLog.Meta.ordering = ['-timestamp']`)

  /** `upload.logs.all()`: the records of upload `id`, newest first, each with its timestamp. */
  function LogsOf(logs: seq<LogRecord>, id: UploadId): (r: seq<LogView>)
    ensures forall i :: 0 <= i < |r| ==> r[i].timestamp < |logs| && logs[r[i].timestamp].upload == id
    ensures forall i :: 0 <= i < |r| ==>
              r[i].message == logs[r[i].timestamp].message && r[i].level == logs[r[i].timestamp].level
    ensures forall i, j :: 0 <= i < j < |r| ==> r[i].timestamp > r[j].timestamp
  {
    if logs == [] then []
    else
      var n := |logs| - 1;
      var older := LogsOf(logs[..n], id);
      if logs[n].upload == id then [LogView(logs[n].message, logs[n].level, n)] + older else older
  }

  /** Every record of the upload is listed. */
  lemma {:induction false} LogsOfComplete(logs: seq<LogRecord>, id: UploadId, k: nat)
    requires k < |logs| && logs[k].upload == id
    ensures exists i :: 0 <= i < |LogsOf(logs, id)| && LogsOf(logs, id)[i].timestamp == k
  {
    var n := |logs| - 1;
    var r := LogsOf(logs, id);
    var older := LogsOf(logs[..n], id);
    if k == n {
      assert r == [LogView(logs[n].message, logs[n].level, n)] + older;
      assert r[0].timestamp == k;
    } else {
      LogsOfComplete(logs[..n], id, k);
      var i :| 0 <= i < |older| && older[i].timestamp == k;
      if logs[n].upload == id {
        var head := [LogView(logs[n].message, logs[n].level, n)];
        assert r == head + older;
        assert r[i + 1] == older[i];
      } else {
        assert r == older;
      }
    }
  }

  // ---------------------------------------------------------------------
  // Project aggregates (`Project.total_entries`, `total_debits`, `total_credits`, `net_amount`)

  /** `project.journal_entries`: the stored entries attributed to project `p`, in storage order. */
  function ProjectEntries(entries: seq<JournalEntry>, p: ProjectId): seq<JournalEntry>
  {
    if entries == [] then []
    else
      var n := |entries| - 1;
      ProjectEntries(entries[..n], p) + (if entries[n].project == Some(p) then [entries[n]] else [])
  }

  /** `Sum('amount')` over the entries of type `t`, with `or 0` for the empty case. */
  function SumOfType(entries: seq<JournalEntry>, t: EntryType): int
  {
    if entries == [] then 0
    else
      var n := |entries| - 1;
      SumOfType(entries[..n], t) + (if entries[n].entryType == t then entries[n].amount else 0)
  }

  function TotalEntries(entries: seq<JournalEntry>, p: ProjectId): nat
  {
    |ProjectEntries(entries, p)|
  }

  function TotalDebits(entries: seq<JournalEntry>, p: ProjectId): int
  {
    SumOfType(ProjectEntries(entries, p), Debit)
  }

  function TotalCredits(entries: seq<JournalEntry>, p: ProjectId): int
  {
    SumOfType(ProjectEntries(entries, p), Credit)
  }

  function NetAmount(entries: seq<JournalEntry>, p: ProjectId): int
  {
    TotalCredits(entries, p) - TotalDebits(entries, p)
  }

  /** An independent reading of the net amount: credits count positively, debits negatively. */
  function SignedTotal(entries: seq<JournalEntry>): int
  {
    if entries == [] then 0
    else
      var e := entries[0];
      (if e.entryType == Credit then e.amount else -e.amount) + SignedTotal(entries[1..])
  }

  /** Sum of all amounts, whatever their type. */
  function AmountTotal(entries: seq<JournalEntry>): int
  {
    if entries == [] then 0 else entries[0].amount + AmountTotal(entries[1..])
  }

  lemma {:induction false} SumOfTypeAppend(a: seq<JournalEntry>, b: seq<JournalEntry>, t: EntryType)
    ensures SumOfType(a + b, t) == SumOfType(a, t) + SumOfType(b, t)
  {
    if b != [] {
      var n := |b| - 1;
      assert (a + b)[..|a + b| - 1] == a + b[..n];
      SumOfTypeAppend(a, b[..n], t);
    } else {
      assert a + b == a;
    }
  }

  lemma {:induction false} ProjectEntriesAppend(a: seq<JournalEntry>, b: seq<JournalEntry>, p: ProjectId)
    ensures ProjectEntries(a + b, p) == ProjectEntries(a, p) + ProjectEntries(b, p)
  {
    if b != [] {
      var n := |b| - 1;
      assert (a + b)[..|a + b| - 1] == a + b[..n];
      ProjectEntriesAppend(a, b[..n], p);
    } else {
      assert a + b == a;
    }
  }

  /** Storing more entries adds their share to every aggregate of a project. */
  lemma TotalsAppend(a: seq<JournalEntry>, b: seq<JournalEntry>, p: ProjectId)
    ensures TotalEntries(a + b, p) == TotalEntries(a, p) + TotalEntries(b, p)
    ensures TotalDebits(a + b, p) == TotalDebits(a, p) + TotalDebits(b, p)
    ensures TotalCredits(a + b, p) == TotalCredits(a, p) + TotalCredits(b, p)
    ensures NetAmount(a + b, p) == NetAmount(a, p) + NetAmount(b, p)
  {
    ProjectEntriesAppend(a, b, p);
    SumOfTypeAppend(ProjectEntries(a, p), ProjectEntries(b, p), Debit);
    SumOfTypeAppend(ProjectEntries(a, p), ProjectEntries(b, p), Credit);
  }

  lemma {:induction false} NoProjectEntries(b: seq<JournalEntry>, p: ProjectId)
    requires forall i :: 0 <= i < |b| ==> b[i].project == None
    ensures ProjectEntries(b, p) == []
  {
    if b != [] {
      NoProjectEntries(b[..|b| - 1], p);
    }
  }

  /** Entries stored without a project change no project's aggregates. */
  lemma UnattributedEntriesLeaveTotals(a: seq<JournalEntry>, b: seq<JournalEntry>, p: ProjectId)
    requires forall i :: 0 <= i < |b| ==> b[i].project == None
    ensures TotalEntries(a + b, p) == TotalEntries(a, p)
    ensures TotalDebits(a + b, p) == TotalDebits(a, p)
    ensures TotalCredits(a + b, p) == TotalCredits(a, p)
    ensures NetAmount(a + b, p) == NetAmount(a, p)
  {
    ProjectEntriesAppend(a, b, p);
    NoProjectEntries(b, p);
    assert ProjectEntries(a, p) + [] == ProjectEntries(a, p);
  }

  lemma {:induction false} SumsByType(entries: seq<JournalEntry>)
    ensures SumOfType(entries, Credit) - SumOfType(entries, Debit) == SignedTotal(entries)
    ensures SumOfType(entries, Credit) + SumOfType(entries, Debit) == AmountTotal(entries)
  {
    if entries != [] {
      var rest := entries[1..];
      SumsByType(rest);
      SumOfTypeAppend([entries[0]], rest, Credit);
      SumOfTypeAppend([entries[0]], rest, Debit);
      assert [entries[0]] + rest == entries;
      assert [entries[0]][..0] == [];
    }
  }

  /**
   * The net amount of a project is its credits minus its debits entry by entry,
   * and debits and credits together account for every amount of the project.
   */
  lemma NetAmountIsSignedTotal(entries: seq<JournalEntry>, p: ProjectId)
    ensures NetAmount(entries, p) == SignedTotal(ProjectEntries(entries, p))
    ensures TotalDebits(entries, p) + TotalCredits(entries, p) == AmountTotal(ProjectEntries(entries, p))
  {
    SumsByType(ProjectEntries(entries, p));
  }

  lemma {:induction false} SumOfTypeBounds(entries: seq<JournalEntry>, t: EntryType)
    requires forall i :: 0 <= i < |entries| ==> entries[i].amount >= 0
    ensures 0 <= SumOfType(entries, t) <= AmountTotal(entries)
  {
    if entries != [] {
      var rest := entries[1..];
      SumOfTypeBounds(rest, t);
      SumOfTypeAppend([entries[0]], rest, t);
      assert [entries[0]] + rest == entries;
      assert [entries[0]][..0] == [];
    }
  }

  lemma {:induction false} ProjectEntriesFrom(entries: seq<JournalEntry>, p: ProjectId)
    ensures forall i :: 0 <= i < |ProjectEntries(entries, p)| ==>
              ProjectEntries(entries, p)[i] in entries && ProjectEntries(entries, p)[i].project == Some(p)
  {
    if entries != [] {
      ProjectEntriesFrom(entries[..|entries| - 1], p);
    }
  }

  /** With non-negative stored amounts (as the upload pipeline writes them) both totals are non-negative. */
  lemma TotalsNonNegative(entries: seq<JournalEntry>, p: ProjectId)
    requires forall i :: 0 <= i < |entries| ==> entries[i].amount >= 0
    ensures 0 <= TotalDebits(entries, p) && 0 <= TotalCredits(entries, p)
    ensures -TotalDebits(entries, p) <= NetAmount(entries, p) <= TotalCredits(entries, p)
  {
    ProjectEntriesFrom(entries, p);
    SumOfTypeBounds(ProjectEntries(entries, p), Debit);
    SumOfTypeBounds(ProjectEntries(entries, p), Credit);
  }

  /** A project with no debit entries has `total_debits == 0`, and likewise for credits. */
  lemma {:induction false} NoEntriesOfTypeSumToZero(entries: seq<JournalEntry>, t: EntryType)
    requires forall i :: 0 <= i < |entries| ==> entries[i].entryType != t
    ensures SumOfType(entries, t) == 0
  {
    if entries != [] {
      NoEntriesOfTypeSumToZero(entries[..|entries| - 1], t);
    }
  }
}

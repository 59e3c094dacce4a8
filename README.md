# Journal entry extraction, modelled in Dafny

This project models the part of the `journal_app` Django application that
turns an uploaded file into journal entries. An upload (PDF, plain text, CSV
or Excel) goes through `FileProcessor.process`. It is marked `processing`,
read according to its declared `file_type`, and cut into lines or rows. Each
line or row that parses becomes a saved `JournalEntry`. The upload then ends
`completed` with the count of entries created, or `failed` with the reader's
exception text. Every step leaves `ProcessingLog` records behind.

The model also covers four smaller decisions:

- the project aggregates (`total_entries`, `total_debits`, `total_credits`, `net_amount`);
- the upload form's validation (presence, 10 MiB limit, MIME allow-list);
- the views' MIME-substring classification into a `file_type`;
- the status endpoint's report with at most ten log records, newest first.

Modules, one per source component:

| file | module | what it holds |
|---|---|---|
| `wrappers.dfy` | `Wrappers` | `Option`, and `Result` whose error is the exception text `str(e)` |
| `pytext.dfy` | `PyText` | the Python string operations the code uses: `strip`, `lower`, `in`, `startswith`, `split`, `endswith`, `f"{n}"` |
| `dates.dfy` | `Dates` | calendar dates and `datetime.strptime(s, '%Y-%m-%d').date()` as the `re` pattern compiled from that format reads ASCII text (see "## Left out") |
| `models.dfy` | `Models` | the record types, the `UploadedFile` class, the database as append-only sequences, the project aggregates |
| `file_processors.dfy` | `FileProcessors` | the column table, the outcome of one line or row as a value, and the `FileProcessor` class with its loops |
| `processor_properties.dfy` | `ProcessorProperties` | what the pipeline guarantees, proved over the pure description |
| `forms.dfy` | `Forms` | `FileUploadForm.clean_file` |
| `views.dfy` | `Views` | file-type classification and `file_status_view` |

The `FileProcessor` methods are proved to append exactly what the pure
functions describe. For a line, that is `LineOutcome`, `LineLog` and
`CreatedBy`. For a row, it is `RowOutcome` and `RowLog`. For whole inputs, it
is `LinesEntries`, `LinesLogs`, `RowsEntries`, `RowsLogs`, `InputEntries` and
`InputLogs`. The lemmas in `ProcessorProperties` state the promised
properties about those functions.

Amounts are whole numbers of cents, the value a
`DecimalField(max_digits=12, decimal_places=2)` stores. `Decimal(text)` and
`pd.to_datetime(text).date()` are foreign parsers. They are parameters of
the model (the `Parsers` datatype), each returning a value or the text of
the exception it raises. `entry.save()` is taken to raise exactly when the
amount needs more than twelve digits. That is the `InvalidOperation` Django's
decimal adaptation raises. A log record's timestamp is its position in the
log table, so "newest first" is descending position.

Behaviours of the code a reader may not expect, all modelled as written:

- A CSV row with columns `Txn Date`, `Amt`, `Desc` produces no entry. Matching
  only looks for a candidate inside the column name, so `Amt` is not an amount
  column. See `ProcessorProperties.AbbreviatedHeadersSkipped`.
- A row without a recognisable amount or date column is skipped without any
  log record. So warnings plus created entries can be fewer than the rows.
  See `ProcessorProperties.RowsAccounting` and `ProcessorProperties.EmptyRowUnreported`.
- A line without `|`, or with fewer than four pieces, is skipped silently. It
  is not logged as a warning. See `ProcessorProperties.LineSkippedIff` and
  `ProcessorProperties.MalformedLineSilent`.
- The "strict" `%Y-%m-%d` date also accepts one-digit months and days, and a
  day padded with a space. See `Dates.StrictIsoDateShortForm`, `Dates.StrictIsoDateLeapDay`
  and `Dates.StrictIsoDateYearZero`.
- The file types are `pdf`, `txt`, `csv` and `excel`. `text/csv` is classified
  as `txt`. See `Views.TextCsvIsTxt`.
- In the model a session fails only while the file is being read, before any
  entry is created. `parse_journal_line` and `create_entry_from_row` each catch
  the exceptions of their own line or row; the loops around them have no `try`
  of their own. With rows numbered by position, nothing else in a loop raises,
  so a failed session has created no entries. In the code, `index + 1` is
  evaluated outside the row's `try` (journal_app/file_processors.py:80, 88):
  a frame whose index is not numeric would fail the session after earlier
  rows were saved. That case is not modelled (see "## Left out").

## Model

| member | source | states |
|---|---|---|
| `FileProcessors.FileProcessor.constructor` | journal_app/file_processors.py:10-13 | a new processor is bound to its upload and project, with `entries_created` 0 |
| `FileProcessors.FileProcessor.Log` | journal_app/file_processors.py:15-20 | `log` appends one record for this upload with the given message and level and changes nothing else |
| `FileProcessors.FileProcessor.Process` | journal_app/file_processors.py:22-47 | if the input reads, status `completed` with the count equal to the entries created, `processed_at` set, error message untouched, the format's records plus "Processing completed. Created N journal entries."; if reading raises, status `failed`, error message the exception text, count and time untouched, no entries, one error record; either way exactly two upload saves, the first with status `processing`; an unknown type dispatches nothing and completes with 0 |
| `FileProcessors.FileProcessor.ProcessPdf` | journal_app/file_processors.py:49-63 | page texts are concatenated, split on newlines, the line count is logged, then each line is parsed |
| `FileProcessors.FileProcessor.ProcessTxt` | journal_app/file_processors.py:65-73 | logs the line count, then parses every line |
| `FileProcessors.FileProcessor.ProcessCsv` | journal_app/file_processors.py:75-81 | logs the row count, then parses every row |
| `FileProcessors.FileProcessor.ProcessExcel` | journal_app/file_processors.py:83-89 | logs the row count, then parses every row |
| `FileProcessors.FileProcessor.ParseLines` | journal_app/file_processors.py:71-73 | each line is stripped and parsed; `entries_created` grows by exactly the number of lines that created an entry, and the stored entries and logs grow by exactly those lines' entries and warnings |
| `FileProcessors.FileProcessor.ParseRows` | journal_app/file_processors.py:79-81 | each row is parsed with number index + 1; `entries_created` grows by exactly the number of rows that created an entry, and entries and logs grow by exactly those rows' entries and warnings |
| `FileProcessors.FileProcessor.ParseJournalLine` | journal_app/file_processors.py:134-157 | returns true exactly when the line creates an entry; stores that entry or nothing; writes a warning only when decimal, date or save raised |
| `FileProcessors.FileProcessor.CreateEntryFromRow` | journal_app/file_processors.py:91-132 | returns true exactly when the row creates an entry; stores it or nothing; writes "Error processing row N: ..." only when decimal, date or save raised |
| `FileProcessors.FileProcessor.MapColumns` | journal_app/file_processors.py:103-112 | the nested loops with `break` build exactly the column mapping: each field, in table order, resolved against the row |
| `FileProcessors.FileProcessor.ResolveField` | journal_app/file_processors.py:106-112 | candidates in order, columns in order, stopping at the first column containing a candidate |
| `FileProcessors.FirstColumnFrom` | journal_app/file_processors.py:107-110 | the chosen column contains the candidate and no earlier column does; no result means no column contains it |
| `FileProcessors.Resolve` | journal_app/file_processors.py:106-112 | the value one field receives: the column of the first candidate that some column contains, taking the first such column, or none; characterised by `ProcessorProperties.ResolveFirstMatch` and `ProcessorProperties.FirstMatchUnique` |
| `FileProcessors.PartialMapping` | journal_app/file_processors.py:104-112 | the `data` dict after the first t fields of the table were tried; `ProcessorProperties.PartialMappingResolves` states that it holds the field of table row k exactly when k < t and the field resolves, with the resolved value |
| `FileProcessors.ColumnMapping` | journal_app/file_processors.py:94-112 | the whole `data` dict of a row; `ProcessorProperties.ColumnMappingResolves` states that it holds a field exactly when the field resolves, with the resolved value |
| `FileProcessors.LineOutcome` | journal_app/file_processors.py:134-157 | what one line yields: skipped silently, an entry, or the reason it was rejected; characterised by `ProcessorProperties.LineSkippedIff`, `ProcessorProperties.LineCreatedEntry`, `ProcessorProperties.ExtraPartsIgnored` and `ProcessorProperties.LineFormatRoundTrip` |
| `FileProcessors.RowOutcome` | journal_app/file_processors.py:91-132 | what one row yields: skipped silently, an entry, or the reason it was rejected; characterised by `ProcessorProperties.RowSkippedIff`, `ProcessorProperties.RowCreatedEntry` and `ProcessorProperties.EntryTypeRule` |
| `FileProcessors.ReadInput` | journal_app/file_processors.py:27-34 | the lines or rows each declared file type reads, or the exception reading raised; `FileProcessors.FileProcessor.Process` states that an exception here fails the session and that otherwise the session stores exactly the entries and records of the input read |
| `ProcessorProperties.ResolveFirstMatch` | journal_app/file_processors.py:94-112 | a field is unresolved iff no candidate is contained in any column name; otherwise its value is the column of the first candidate that matches anything, taking the first such column |
| `ProcessorProperties.FirstMatchUnique` | journal_app/file_processors.py:105-112 | the first-match (candidate, column) pair is unique |
| `ProcessorProperties.ColumnMappingResolves` | journal_app/file_processors.py:94-112 | the `data` dict holds a field exactly when the field resolves, with the resolved value |
| `ProcessorProperties.ContainsTransitive` | journal_app/file_processors.py:108 | being a piece of a text is transitive |
| `ProcessorProperties.MatchesShadowed` | journal_app/file_processors.py:108 | a column matching a candidate also matches every candidate that is a piece of it |
| `ProcessorProperties.DropUnmatched` | journal_app/file_processors.py:105-112 | a candidate no column contains can be struck without changing the resolved value |
| `ProcessorProperties.DropShadowed` | journal_app/file_processors.py:105-112 | a candidate that contains an earlier candidate of its field never decides the field |
| `ProcessorProperties.ShadowedCandidatesNeverDecide` | journal_app/file_processors.py:97-100 | `transaction_date`, `entry_date`, `account_name`, `account_number`, `entry_type` and `ref_number` are dead table entries |
| `ProcessorProperties.NoAmountColumnSkipped` | journal_app/file_processors.py:115 | a row with no column containing an amount candidate is skipped |
| `ProcessorProperties.AbbreviatedHeadersSkipped` | journal_app/file_processors.py:108 | the row `Txn Date`/`Amt`/`Desc` produces nothing, since containment runs candidate-in-column only |
| `ProcessorProperties.RowSkippedIff` | journal_app/file_processors.py:115 | a row is skipped (no entry, no log) iff no column matches an amount candidate or none matches a date candidate |
| `ProcessorProperties.RowCreatedEntry` | journal_app/file_processors.py:115-127 | a created row entry has amount = abs of the parsed amount, the parsed date, the mapped title or "Entry from " + filename, account or "General", reference or "", type from the mapped type text or "" |
| `ProcessorProperties.EntryTypeRule` | journal_app/file_processors.py:123 | the type is debit iff the text starts with `d` or `D`, otherwise credit, empty text included |
| `ProcessorProperties.LineSkippedIff` | journal_app/file_processors.py:138-140 | a line is skipped silently iff it has fewer than three pipes (no pipe at all, or fewer than four pieces) |
| `ProcessorProperties.LineCreatedEntry` | journal_app/file_processors.py:138-153 | a created line entry takes date, title, amount and type from the first four stripped pieces; amount is the absolute value and fits the column; account is "General" |
| `ProcessorProperties.ExtraPartsIgnored` | journal_app/file_processors.py:139-141 | appending a pipe and any further text to a line with four pieces does not change its outcome |
| `ProcessorProperties.LineFormatRoundTrip` | journal_app/file_processors.py:136-153 | a line laid out as date, title, amount and type joined by pipes parses back to an entry holding exactly those values |
| `ProcessorProperties.SalesRevenueLine` | journal_app/file_processors.py:136 | the documented example line gives a 1000.00 credit titled "Sales Revenue" to "General" |
| `ProcessorProperties.RentLine` | journal_app/file_processors.py:147 | the example line with amount `-500.00` and type `Debit` gives a 500.00 debit: the sign is dropped |
| `ProcessorProperties.MalformedLineSilent` | journal_app/file_processors.py:138 | "not a valid line" is skipped and leaves no log record |
| `ProcessorProperties.LinesAccounting` | journal_app/file_processors.py:71-73 | entries + warnings + silent skips = number of lines; every record is a warning of this upload |
| `ProcessorProperties.RowsAccounting` | journal_app/file_processors.py:79-81 | entries + warnings + silent skips = number of rows; every record is a warning of this upload |
| `ProcessorProperties.RejectedRows` | journal_app/file_processors.py:79-80 | the 1-based numbers of the rows whose processing raised: each within the row count, strictly increasing |
| `ProcessorProperties.RejectedRowsExactly` | journal_app/file_processors.py:79-80 | a row number is listed if and only if processing that row raised |
| `ProcessorProperties.RowWarningsNameRows` | journal_app/file_processors.py:130 | there is one row warning per failing row, and the i-th reads "Error processing row N: reason" for the i-th failing row N and the reason it raised |
| `ProcessorProperties.EmptyRowUnreported` | journal_app/file_processors.py:115 | a row with no columns is neither saved nor reported |
| `ProcessorProperties.LinesEntriesSaved` | journal_app/file_processors.py:143-151 | every entry from lines carries the project and user, has a non-negative amount that fits, and account "General" |
| `ProcessorProperties.RowsEntriesSaved` | journal_app/file_processors.py:116-124 | every entry from rows carries the project and user and has a non-negative amount that fits |
| `ProcessorProperties.InputEntriesSaved` | journal_app/file_processors.py:27-34 | whichever format is dispatched, every created entry is attributed and non-negative |
| `ProcessorProperties.UploadWithoutProjectLeavesTotals` | journal_app/views.py:53 | an upload processed without a project, as both views start it, changes no project's aggregates |
| `ProcessorProperties.UploadForProjectAddsEntries` | journal_app/models.py:31-45 | an upload processed for project p adds its entries to p's count and their amounts to the matching totals, which never decrease |
| `Models.UploadedFile.constructor` | journal_app/models.py:94-104 | a new upload is `pending` with `processed_entries_count` 0, empty error message and no `processed_at` |
| `Models.SaveError` | journal_app/models.py:64 | saving raises `InvalidOperation` exactly when the amount, counted in cents (2 decimal places), has more than 12 decimal digits |
| `Models.AmountFitsDigits` | journal_app/models.py:64 | an amount of fewer than 10^12 cents in magnitude is exactly one of at most 12 digits |
| `Models.Database.SaveEntry` | journal_app/models.py:64 | `entry.save()` appends the entry, or raises and stores nothing |
| `Models.Database.CreateLog` | journal_app/file_processors.py:16-20 | `ProcessingLog.objects.create` appends one record |
| `Models.Database.SaveUpload` | journal_app/file_processors.py:47 | `uploaded_file.save()` records a snapshot of the upload's fields |
| `Models.LogsOf` | journal_app/models.py:123-124 | an upload's logs are its records only, newest first, strictly decreasing timestamps |
| `Models.LogsOfComplete` | journal_app/models.py:123-124 | every record of the upload appears in its logs |
| `Models.SumOfTypeAppend` | journal_app/models.py:38 | the filtered sum splits over concatenation |
| `Models.TotalsAppend` | journal_app/models.py:31-49 | storing more entries adds their share to count, debits, credits and net amount |
| `Models.UnattributedEntriesLeaveTotals` | journal_app/models.py:31-49 | entries without a project change no project's aggregates |
| `Models.NetAmountIsSignedTotal` | journal_app/models.py:47-49 | net amount = credits − debits, entry by entry; debits + credits = all amounts of the project |
| `Models.TotalsNonNegative` | journal_app/models.py:35-49 | with non-negative amounts, both totals are non-negative and the net amount lies between −debits and credits |
| `Models.NoEntriesOfTypeSumToZero` | journal_app/models.py:38-39 | with no entries of a type, the total is 0 (the `or 0`) |
| `Models.TotalEntries` | journal_app/models.py:31-33 | the number of entries of the project; `Models.TotalsAppend` and `Models.UnattributedEntriesLeaveTotals` state how it grows |
| `Models.TotalDebits` | journal_app/models.py:35-39 | the sum of the project's debit amounts, 0 when there are none; characterised by `Models.TotalsAppend`, `Models.TotalsNonNegative` and `Models.NoEntriesOfTypeSumToZero` |
| `Models.TotalCredits` | journal_app/models.py:41-45 | the sum of the project's credit amounts, 0 when there are none; characterised by `Models.TotalsAppend`, `Models.TotalsNonNegative` and `Models.NoEntriesOfTypeSumToZero` |
| `Models.NetAmount` | journal_app/models.py:47-49 | credits minus debits; `Models.NetAmountIsSignedTotal` states that it is the signed sum of the project's entries, and `Models.TotalsNonNegative` bounds it |
| `Dates.StrictIsoDate` | journal_app/file_processors.py:148 | an accepted date text has 8 to 10 characters with `-` at position 4 |
| `Dates.StrictIsoDateRoundTrip` | journal_app/file_processors.py:148 | every calendar date reads back from its `YYYY-MM-DD` text |
| `Dates.StrictIsoDateCanonical` | journal_app/file_processors.py:148 | an accepted ten-character text is the canonical text of its date, up to a space-padded day |
| `Dates.StrictIsoDateShortForm` | journal_app/file_processors.py:148 | one-digit month and day accepted: `2023-1-5` is 5 January 2023 |
| `Dates.StrictIsoDateLeapDay` | journal_app/file_processors.py:148 | 29 February is rejected with "day is out of range for month" in 2023 and accepted in 2024 |
| `Dates.StrictIsoDateYearZero` | journal_app/file_processors.py:148 | `0000-01-01` is rejected with "year 0 is out of range" |
| `PyText.StripIsTrimmedSlice` | journal_app/file_processors.py:139 | `strip` removes exactly the whitespace at both ends |
| `PyText.Strip` | journal_app/file_processors.py:62 | `str.strip()`; `PyText.StripIsTrimmedSlice` and `PyText.StripIdempotent` characterise it |
| `PyText.StripIdempotent` | journal_app/file_processors.py:62 | stripping twice is stripping once |
| `PyText.ContainsIff` | journal_app/file_processors.py:108 | `in` on strings is the substring relation |
| `PyText.Contains` | journal_app/file_processors.py:108 | `in` on two strings; `PyText.ContainsIff` states that it holds exactly when the needle occurs at some position |
| `PyText.Lower` | journal_app/file_processors.py:108 | `str.lower()` on ASCII letters, keeping the length; `PyText.LowerStartsWithD` characterises it for the type rule |
| `PyText.JoinSplit` | journal_app/file_processors.py:139 | joining the pieces of a split gives back the line |
| `PyText.SplitPieces` | journal_app/file_processors.py:139 | a split has one more piece than separators, none containing the separator |
| `PyText.SplitAppend` | journal_app/file_processors.py:139 | splitting two texts joined by the separator is splitting each of them |
| `PyText.Split` | journal_app/file_processors.py:139 | `str.split` on one separator, never empty; `PyText.JoinSplit`, `PyText.SplitPieces`, `PyText.SplitSeparates` and `PyText.SplitAppend` characterise it |
| `PyText.SplitSeparates` | journal_app/file_processors.py:138-139 | a line contains the pipe separator exactly when splitting on it gives two pieces or more |
| `PyText.LowerStartsWithD` | journal_app/file_processors.py:123 | `lower().startswith('d')` iff the first character is `d` or `D` |
| `PyText.NatToStringDigits` | journal_app/file_processors.py:130 | the rendered row number is digits that read back as the number |
| `PyText.NatToStringLength` | journal_app/models.py:64 | the decimal text of n has at most k + 1 digits exactly when n < 10^(k+1) |
| `Forms.CleanFile` | journal_app/forms.py:16-36 | accepts iff present, at most 10 MiB and MIME allowed; on success returns the same file |
| `Forms.CheckOrder` | journal_app/forms.py:17-34 | presence, then size, then type; the first failing check decides the message |
| `Forms.SizeLimitBoundary` | journal_app/forms.py:22-23 | exactly 10 MiB passes, one byte more is "File size cannot exceed 10MB." |
| `Forms.SizeCheckedBeforeType` | journal_app/forms.py:22-34 | an oversized file is reported as too large even when its type is also unsupported |
| `Forms.NameIrrelevant` | journal_app/forms.py:18-23 | validation looks at the name only for emptiness |
| `Views.ClassifyUpload` | journal_app/views.py:41-48 | `pdf` wins over every other test; `csv` only without `text`, by content or a `.csv` name |
| `Views.ClassifyApiUpload` | journal_app/views.py:169-176 | `pdf` wins; `csv` only without `text`; no file-name fallback |
| `Views.ClassifyApiUploadCases` | journal_app/views.py:169-176 | each file type iff its condition in the `if/elif` order; unassigned iff nothing matches |
| `Views.FormAndApiAgree` | journal_app/views.py:45 | the two chains differ only through the `.csv` name fallback |
| `Views.TextCsvIsTxt` | journal_app/views.py:43-46 | `text/csv` is classified `txt` on both paths, never `csv` |
| `Views.ApplicationPdfIsPdf` | journal_app/views.py:41-42 | `application/pdf` is classified `pdf` |
| `Views.FileStatus` | journal_app/views.py:68-76 | unknown upload gives no report; otherwise at most ten logs, a prefix of the newest-first list |
| `Views.StatusReportsNewestLogs` | journal_app/views.py:70-75 | the report carries the saved status fields; every record of the upload is reported or older than all reported, and then ten are reported |

## Left out

- Background threads in the upload views (journal_app/views.py:53-55, 181-183). `process` is modelled as one sequential call.
- Django ORM persistence. It is modelled as appends to the sequences of a `Database` object. Database errors other than the amount overflow on `entry.save()`, and failures of `ProcessingLog.objects.create` or `uploaded_file.save()`, are not modelled.
- `CharField` `max_length` limits (title 200, account 100, reference 50). They are not checked on save and not modelled.
- PyPDF2 text extraction, the UTF-8 text reader and pandas `read_csv`/`read_excel`. Their results, or the text of the exception they raise, are inputs (`StoredFile`).
- Row numbers. A row is numbered by its position, as the default `RangeIndex` of `read_csv` and `read_excel` numbers it, and `index + 1` is its 1-based position. When pandas takes the first column as the index instead (a header one field shorter than the data rows), a warning names that column's value plus one when it is a number; when it is text, `index + 1` raises `TypeError` outside the row's `try`, after the earlier rows were saved, and the session fails with entries created. Neither path is modelled.
- `Decimal(...)` and `pd.to_datetime(...)`. These are parameters (`Parsers`) that return cents or a date. Rounding to two decimal places on save, and `NaN`/`Infinity` decimals, are left to the parser parameter.
- pandas `NaN` cells and `str()` of non-string cells. Every cell and column label is a string.
- `python-magic` sniffing. The MIME string is an input. `file.seek(0)` has no effect in the model.
- `datetime.now()` and `auto_now_add`. `processed_at` is a caller-supplied value, and log timestamps are positions in the log table.
- `Dates.StrictIsoDate` reads `\d` as the ASCII digits `0`-`9` only. Python's `\d` in a `str` pattern, and `int()` after it, also accept the other Unicode decimal digits (for example Arabic-Indic digits), so a text such as `٢٠٢٣-01-05` is a date in the code and a `ValueError` in the model.
- `Dates.StrictIsoDate` renders the `%r` in its `ValueError` text as the input between single quotes. `repr` switches to double quotes when the text holds a single quote and no double quote, and escapes backslashes, control and non-printable characters; the model's message differs from the code's in those cases.
- `str.lower()` is modelled on ASCII letters only; other characters are kept as they are. This changes no outcome. The candidates of the column table and `d` are ASCII, and only two non-ASCII characters lower to ASCII letters. U+212A (Kelvin sign) lowers to `k`, which no candidate contains. U+0130 lowers to `i` followed by U+0307, so its `i` can only end a match, and no candidate ends in `i`.
- The upload views' assignments of `user`, `original_filename`, `file_size` and their `save()`, the `recent_uploads` listing, the serializers, admin, URLs, the generic list/detail API classes, the team-member endpoints and the management command are not part of this model.
- Project status, budget and dates and `JournalEntry.Meta.ordering` are not modelled. The aggregates do not depend on them.

/**
 * The decision logic of the upload and status views: the MIME-substring
 * classification of an upload's file type (form view and API endpoint) and
 * the status report of one upload with at most ten log records.
 */
module Views {
  import opened Wrappers
  import opened PyText
  import opened Models

  /**
   * The form view's `if/elif` chain on the sniffed MIME type: `pdf`, then
   * `text`, then `csv` or a `.csv` file name, then `excel`/`spreadsheet`;
   * `None` leaves `file_type` unassigned.
   */
  function ClassifyUpload(mime: string, filename: string): (r: Option<FileType>)
    ensures Contains(mime, "pdf") ==> r == Some(Pdf)
    ensures r == Some(Csv) ==> !Contains(mime, "text") && (Contains(mime, "csv") || EndsWith(filename, ".csv"))
  {
    if Contains(mime, "pdf") then Some(Pdf)
    else if Contains(mime, "text") then Some(Txt)
    else if Contains(mime, "csv") || EndsWith(filename, ".csv") then Some(Csv)
    else if Contains(mime, "excel") || Contains(mime, "spreadsheet") then Some(Excel)
    else None
  }

  /** The API endpoint's chain: the same tests without the file-name fallback. */
  function ClassifyApiUpload(mime: string): (r: Option<FileType>)
    ensures Contains(mime, "pdf") ==> r == Some(Pdf)
    ensures r == Some(Csv) ==> !Contains(mime, "text") && Contains(mime, "csv")
  {
    if Contains(mime, "pdf") then Some(Pdf)
    else if Contains(mime, "text") then Some(Txt)
    else if Contains(mime, "csv") then Some(Csv)
    else if Contains(mime, "excel") || Contains(mime, "spreadsheet") then Some(Excel)
    else None
  }

  /** Each result of the chain, stated as the condition that produces it. */
  lemma ClassifyApiUploadCases(mime: string)
    ensures ClassifyApiUpload(mime) == Some(Pdf) <==> Contains(mime, "pdf")
    ensures ClassifyApiUpload(mime) == Some(Txt) <==> !Contains(mime, "pdf") && Contains(mime, "text")
    ensures ClassifyApiUpload(mime) == Some(Csv) <==>
              !Contains(mime, "pdf") && !Contains(mime, "text") && Contains(mime, "csv")
    ensures ClassifyApiUpload(mime) == Some(Excel) <==>
              !Contains(mime, "pdf") && !Contains(mime, "text") && !Contains(mime, "csv")
              && (Contains(mime, "excel") || Contains(mime, "spreadsheet"))
    ensures ClassifyApiUpload(mime).None? <==>
              !Contains(mime, "pdf") && !Contains(mime, "text") && !Contains(mime, "csv")
              && !Contains(mime, "excel") && !Contains(mime, "spreadsheet")
  {
  }

  /**
   * The two views agree except through the file-name fallback: a `.csv` name
   * turns what the API would leave unassigned or call Excel into CSV.
   */
  lemma FormAndApiAgree(mime: string, filename: string)
    ensures !EndsWith(filename, ".csv") ==> ClassifyUpload(mime, filename) == ClassifyApiUpload(mime)
    ensures EndsWith(filename, ".csv") ==>
              ClassifyUpload(mime, filename)
              == (if ClassifyApiUpload(mime) in {Some(Pdf), Some(Txt)} then ClassifyApiUpload(mime) else Some(Csv))
  {
  }

  /** `text/csv` contains `text`, which is tested first: CSV uploads sniffed as such are typed as text files. */
  lemma TextCsvIsTxt(filename: string)
    ensures ClassifyUpload("text/csv", filename) == Some(Txt)
    ensures ClassifyApiUpload("text/csv") == Some(Txt)
  {
    var mime := "text/csv";
    assert 'p' !in mime by {
      assert forall i :: 0 <= i < |mime| ==> mime[i] != 'p';
    }
    NotContainedWithoutFirst(mime, "pdf");
    assert OccursAt(mime, "text", 0) by {
      assert mime[0..4] == "text";
    }
    OccurrenceContained(mime, "text", 0);
  }

  /** `application/pdf` is a PDF on both paths. */
  lemma ApplicationPdfIsPdf(filename: string)
    ensures ClassifyUpload("application/pdf", filename) == Some(Pdf)
    ensures ClassifyApiUpload("application/pdf") == Some(Pdf)
  {
    var mime := "application/pdf";
    assert OccursAt(mime, "pdf", 12) by {
      assert mime[12..15] == "pdf";
    }
    OccurrenceContained(mime, "pdf", 12);
  }

  // ---------------------------------------------------------------------
  // Status endpoint

  /** The JSON body of `file_status_view`. */
  datatype StatusReport = StatusReport(
    status: Status,
    processedEntries: nat,
    errorMessage: string,
    logs: seq<LogView>)

  const StatusLogLimit: nat := 10

  function Min(a: nat, b: nat): nat
  {
    if a <= b then a else b
  }

  /**
   * `file_status_view(id)`: `None` is the 404 for an unknown upload;
   * otherwise the upload's saved fields and its newest log records, at most ten.
   */
  function FileStatus(uploads: map<UploadId, UploadSnapshot>, logs: seq<LogRecord>, id: UploadId): (r: Option<StatusReport>)
    ensures r.Some? <==> id in uploads
    ensures r.Some? ==> |r.value.logs| == Min(StatusLogLimit, |LogsOf(logs, id)|)
    ensures r.Some? ==> r.value.logs == LogsOf(logs, id)[..|r.value.logs|]
  {
    if id !in uploads then None
    else
      var u := uploads[id];
      var all := LogsOf(logs, id);
      Some(StatusReport(u.status, u.processedEntriesCount, u.errorMessage, all[..Min(StatusLogLimit, |all|)]))
  }

  /**
   * The report carries the saved status fields, and its records are the
   * newest ones: every record of the upload is either reported or older than
   * every record reported, and then ten records are reported.
   */
  lemma StatusReportsNewestLogs(uploads: map<UploadId, UploadSnapshot>, logs: seq<LogRecord>, id: UploadId)
    requires id in uploads
    ensures var r := FileStatus(uploads, logs, id).value;
            r.status == uploads[id].status && r.processedEntries == uploads[id].processedEntriesCount
            && r.errorMessage == uploads[id].errorMessage
    ensures var r := FileStatus(uploads, logs, id).value;
            forall k :: 0 <= k < |logs| && logs[k].upload == id ==>
              (exists i :: 0 <= i < |r.logs| && r.logs[i].timestamp == k)
              || (|r.logs| == StatusLogLimit && forall i :: 0 <= i < |r.logs| ==> r.logs[i].timestamp > k)
  {
    var r := FileStatus(uploads, logs, id).value;
    var all := LogsOf(logs, id);
    forall k | 0 <= k < |logs| && logs[k].upload == id
      ensures (exists i :: 0 <= i < |r.logs| && r.logs[i].timestamp == k)
              || (|r.logs| == StatusLogLimit && forall i :: 0 <= i < |r.logs| ==> r.logs[i].timestamp > k)
    {
      LogsOfComplete(logs, id, k);
      var j :| 0 <= j < |all| && all[j].timestamp == k;
      if j < |r.logs| {
        assert r.logs[j].timestamp == k;
      }
    }
  }
}

/**
 * Validation of an uploaded file (`FileUploadForm.clean_file`): presence,
 * the 10 MiB size limit and the sniffed-MIME allow-list, checked in that
 * order with the first failing check deciding the error.
 */
module Forms {
  import opened Wrappers

  /** The submitted file as the form sees it: its name and its size in bytes. */
  datatype FormFile = FormFile(name: string, size: nat)

  const MaxUploadSize: nat := 10 * 1024 * 1024

  const AllowedMimeTypes: seq<string> := [
    "application/pdf",
    "text/plain",
    "text/csv",
    "application/vnd.openxmlformats-officedocument.spreadsheetml.sheet",
    "application/vnd.ms-excel"
  ]

  const NoFileMessage: string := "No file selected."
  const TooLargeMessage: string := "File size cannot exceed 10MB."
  const UnsupportedMessage: string := "Unsupported file type. Please upload PDF, TXT, CSV, or Excel files."

  /** Truth value of the cleaned field: absent, or a file object whose name is empty, is false. */
  predicate Present(file: Option<FormFile>)
  {
    file.Some? && file.value.name != ""
  }

  /**
   * `clean_file`, with the MIME type sniffed from the first kilobyte given as
   * `sniffedMime`: the file itself on success, otherwise the validation message.
   */
  function CleanFile(file: Option<FormFile>, sniffedMime: string): (r: Result<FormFile>)
    ensures r.Ok? <==> Present(file) && file.value.size <= MaxUploadSize && sniffedMime in AllowedMimeTypes
    ensures r.Ok? ==> r.value == file.value
  {
    if !Present(file) then Err(NoFileMessage)
    else if file.value.size > MaxUploadSize then Err(TooLargeMessage)
    else if sniffedMime !in AllowedMimeTypes then Err(UnsupportedMessage)
    else Ok(file.value)
  }

  /** The first failing check decides the message: presence, then size, then type. */
  lemma CheckOrder(file: Option<FormFile>, sniffedMime: string)
    ensures !Present(file) ==> CleanFile(file, sniffedMime) == Err(NoFileMessage)
    ensures Present(file) && file.value.size > MaxUploadSize ==> CleanFile(file, sniffedMime) == Err(TooLargeMessage)
    ensures Present(file) && file.value.size <= MaxUploadSize && sniffedMime !in AllowedMimeTypes
            ==> CleanFile(file, sniffedMime) == Err(UnsupportedMessage)
    ensures CleanFile(file, sniffedMime).Err? ==>
              CleanFile(file, sniffedMime).error in [NoFileMessage, TooLargeMessage, UnsupportedMessage]
  {
  }

  /** The limit is inclusive: exactly 10 MiB passes the size check, one byte more does not. */
  lemma SizeLimitBoundary(name: string, mime: string)
    requires name != "" && mime in AllowedMimeTypes
    ensures CleanFile(Some(FormFile(name, MaxUploadSize)), mime) == Ok(FormFile(name, MaxUploadSize))
    ensures CleanFile(Some(FormFile(name, MaxUploadSize + 1)), mime) == Err(TooLargeMessage)
  {
  }

  /** An oversized file is reported as too large whatever its type, even when the type is also unsupported. */
  lemma SizeCheckedBeforeType(file: FormFile, sniffedMime: string)
    requires file.name != "" && file.size > MaxUploadSize
    ensures CleanFile(Some(file), sniffedMime) == Err(TooLargeMessage)
  {
  }

  /** Validation depends on the file only through its presence and size, never on its name beyond emptiness. */
  lemma NameIrrelevant(a: FormFile, b: FormFile, sniffedMime: string)
    requires a.name != "" && b.name != "" && a.size == b.size
    ensures CleanFile(Some(a), sniffedMime).Ok? <==> CleanFile(Some(b), sniffedMime).Ok?
    ensures CleanFile(Some(a), sniffedMime).Err? ==> CleanFile(Some(a), sniffedMime) == CleanFile(Some(b), sniffedMime)
  {
  }
}

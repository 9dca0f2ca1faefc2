/**
 * The state the front end keeps about processed reports: the URL typed in,
 * the busy flag, the list of processed files and the error banner, with the
 * handlers that change them, the file name taken from a pasted URL and the
 * text handed to the share target.
 */
module App {
  import opened Wrappers
  import Strings
  import Api

  const DefaultFileName: string := "document.pdf"
  const SharePrefix: string := "Processed Healthcare Report: "
  const FetchFailedMessage: string := "Could not fetch PDF from the provided link."

  /** One entry of the processed list; `driveLink` is `undefined` until an upload sets it. */
  datatype ProcessedFile = ProcessedFile(filename: string, url: string, id: string, driveLink: Option<string>)

  // ---------------------------------------------------------------------
  // The file name of a pasted URL
  // ---------------------------------------------------------------------

  /**
   * `url[k..n]` is the part of `url` after its last `/`, cut before the first
   * `?` that follows.
   */
  predicate NameSpan(url: string, k: int, n: int)
  {
    Strings.AfterLast(url, '/', k) && k <= n <= |url| && '?' !in url[k..n] && (n == |url| || url[n] == '?')
  }

  /** `url.split('/').pop().split('?')[0] || 'document.pdf'`. */
  function FileName(url: string): (name: string)
    ensures name != "" && '/' !in name && '?' !in name
  {
    var slashParts := Strings.Split(url, "/");
    var last := slashParts[|slashParts| - 1];
    Strings.SplitPieces(url, "/", |slashParts| - 1);
    Strings.NoOccurrenceChar(last, '/');
    Strings.SplitFirstChar(last, '?');
    var base := Strings.Split(last, "?")[0];
    if base == "" then DefaultFileName else base
  }

  /** Every URL has a name span. */
  lemma NameSpanExists(url: string) returns (k: int, n: int)
    ensures NameSpan(url, k, n)
  {
    k := Strings.LastIndexOf(url, '/') + 1;
    var rest := url[k..];
    var p := Strings.Split(rest, "?")[0];
    Strings.SplitFirstChar(rest, '?');
    n := k + |p|;
    assert url[k..n] == p;
  }

  /**
   * The file name of a URL is its name span, or `document.pdf` when the span
   * is empty.
   */
  lemma FileNameSpec(url: string, k: int, n: int)
    requires NameSpan(url, k, n)
    ensures FileName(url) == if k == n then DefaultFileName else url[k..n]
  {
    Strings.LastPieceCut(url, '/', '?', k, n);
  }

  // ---------------------------------------------------------------------
  // The processed list
  // ---------------------------------------------------------------------

  /** `files.map(f => f.id === id ? { ...f, driveLink: link } : f)`. */
  function WithDriveLink(files: seq<ProcessedFile>, id: string, link: Option<string>)
    : (r: seq<ProcessedFile>)
    ensures |r| == |files|
    ensures forall i :: 0 <= i < |files| ==>
      r[i] == if files[i].id == id then files[i].(driveLink := link) else files[i]
  {
    if files == [] then []
    else
      var head := if files[0].id == id then files[0].(driveLink := link) else files[0];
      [head] + WithDriveLink(files[1..], id, link)
  }

  /** Setting a link keeps every entry's name, object URL and id, in the same order. */
  lemma WithDriveLinkKeepsEntries(files: seq<ProcessedFile>, id: string, link: Option<string>)
    ensures var r := WithDriveLink(files, id, link);
      forall i :: 0 <= i < |files| ==>
        r[i].filename == files[i].filename && r[i].url == files[i].url && r[i].id == files[i].id
  {
  }

  /** Setting the same link twice is setting it once. */
  lemma WithDriveLinkIdempotent(files: seq<ProcessedFile>, id: string, link: Option<string>)
    ensures WithDriveLink(WithDriveLink(files, id, link), id, link) == WithDriveLink(files, id, link)
  {
  }

  /** With no entry of that id the list is unchanged. */
  lemma WithDriveLinkNoMatch(files: seq<ProcessedFile>, id: string, link: Option<string>)
    requires forall i :: 0 <= i < |files| ==> files[i].id != id
    ensures WithDriveLink(files, id, link) == files
  {
  }

  /** The share message for a processed file. */
  function ShareText(file: ProcessedFile): (text: string)
    ensures |text| == |SharePrefix| + |file.filename|
    ensures text[..|SharePrefix|] == SharePrefix && text[|SharePrefix|..] == file.filename
  {
    SharePrefix + file.filename
  }

  /** What the Drive upload handler gets back from the server. */
  datatype UploadOutcome =
    | UploadFailed                       // the request or `res.json()` threw
    | Uploaded(webViewLink: Option<string>)  // `data.drive?.webViewLink`

  /**
   * The outcome of posting to the mock Drive endpoint: a stored file yields
   * its link, a JSON error yields no link, and the server's 500 page is not
   * JSON, so `res.json()` throws.
   */
  function UploadOutcomeOf(reply: Api.UploadReply): (outcome: UploadOutcome)
    ensures reply.MockStored? ==> outcome == Uploaded(Some(reply.webViewLink))
    ensures reply.UploadRejected? ==> outcome == Uploaded(None)
    ensures reply.UploadThrew? ==> outcome == UploadFailed
  {
    match reply
    case MockStored(_, link, _) => Uploaded(Some(link))
    case UploadRejected(_, _) => Uploaded(None)
    case UploadThrew(_) => UploadFailed
  }

  /**
   * Uploading a file that the mock Drive stores links every entry with that
   * id to `https://drive.google.com/mock/` followed by the file's name.
   */
  lemma MockUploadLinksEntry(files: seq<ProcessedFile>, file: ProcessedFile,
                             protocol: string, host: string)
    ensures var outcome := UploadOutcomeOf(Api.UploadPdf(Some(file.filename), true, true, protocol, host));
      && outcome.Uploaded?
      && var r := WithDriveLink(files, file.id, outcome.webViewLink);
      forall i :: 0 <= i < |files| && files[i].id == file.id ==>
        r[i].driveLink == Some(Api.MockLinkPrefix + file.filename)
  {
    var reply := Api.UploadPdf(Some(file.filename), true, true, protocol, host);
    assert reply.webViewLink == Api.MockLinkPrefix + reply.webViewLink[|Api.MockLinkPrefix|..];
  }

  // ---------------------------------------------------------------------
  // The component state and its handlers
  // ---------------------------------------------------------------------

  /** How fetching a pasted URL through the proxy ended. */
  datatype FetchOutcome = Fetched | NotOk | FetchThrew(message: string)

  class AppState {
    var pdfUrl: string
    var isProcessing: bool
    var processedFiles: seq<ProcessedFile>
    var error: Option<string>

    constructor ()
      ensures pdfUrl == "" && !isProcessing && processedFiles == [] && error == None
    {
      pdfUrl := "";
      isProcessing := false;
      processedFiles := [];
      error := None;
    }

    /** The URL input's `onChange`. */
    method EditUrl(value: string)
      modifies this
      ensures pdfUrl == value
      ensures isProcessing == old(isProcessing) && processedFiles == old(processedFiles) && error == old(error)
    {
      pdfUrl := value;
    }

    /**
     * `processAndAdd`: `processed` is the object URL of the stamped file, or
     * the message of the error stamping threw. Success prepends exactly one
     * entry; failure only sets the error banner.
     */
    method ProcessAndAdd(fileName: string, processed: Result<string, string>, id: string)
      modifies this
      ensures pdfUrl == old(pdfUrl) && !isProcessing
      ensures processed.Success? ==>
        && processedFiles == [ProcessedFile(fileName, processed.value, id, None)] + old(processedFiles)
        && error == None
      ensures processed.Failure? ==>
        && processedFiles == old(processedFiles)
        && error == Some("Failed to process " + fileName + ": " + processed.error)
    {
      isProcessing := true;
      error := None;
      match processed {
        case Success(objectUrl) =>
          var newFile := ProcessedFile(fileName, objectUrl, id, None);
          processedFiles := [newFile] + processedFiles;
        case Failure(message) =>
          error := Some("Failed to process " + fileName + ": " + message);
      }
      isProcessing := false;
    }

    /**
     * `handleImportUrl`: a blank URL changes nothing. Otherwise the fetched
     * document is processed under the URL's file name and the input is
     * cleared; a failed fetch only sets the error banner.
     */
    method ImportUrl(fetched: FetchOutcome, processed: Result<string, string>, id: string)
      modifies this
      ensures Strings.Trim(old(pdfUrl)) == "" ==>
        && pdfUrl == old(pdfUrl) && isProcessing == old(isProcessing)
        && processedFiles == old(processedFiles) && error == old(error)
      ensures Strings.Trim(old(pdfUrl)) != "" ==> !isProcessing
      ensures Strings.Trim(old(pdfUrl)) != "" && !fetched.Fetched? ==>
        && pdfUrl == old(pdfUrl) && processedFiles == old(processedFiles)
        && error == Some(if fetched.NotOk? then FetchFailedMessage else fetched.message)
      ensures Strings.Trim(old(pdfUrl)) != "" && fetched.Fetched? ==>
        && pdfUrl == ""
        && (processed.Success? ==>
              && processedFiles ==
                   [ProcessedFile(FileName(old(pdfUrl)), processed.value, id, None)] + old(processedFiles)
              && error == None)
        && (processed.Failure? ==>
              && processedFiles == old(processedFiles)
              && error == Some("Failed to process " + FileName(old(pdfUrl)) + ": " + processed.error))
    {
      if Strings.Trim(pdfUrl) == "" {
        return;
      }
      isProcessing := true;
      error := None;
      match fetched {
        case NotOk =>
          error := Some(FetchFailedMessage);
        case FetchThrew(message) =>
          error := Some(message);
        case Fetched =>
          var fileName := FileName(pdfUrl);
          ProcessAndAdd(fileName, processed, id);
          pdfUrl := "";
      }
      isProcessing := false;
    }

    /**
     * `handleUploadToDrive`: when the upload answers, every entry whose id
     * matches gets the returned link and nothing else changes; when it
     * throws, nothing changes.
     */
    method UploadToDrive(fileId: string, outcome: UploadOutcome)
      modifies this
      ensures pdfUrl == old(pdfUrl) && isProcessing == old(isProcessing) && error == old(error)
      ensures outcome.UploadFailed? ==> processedFiles == old(processedFiles)
      ensures outcome.Uploaded? ==>
        processedFiles == WithDriveLink(old(processedFiles), fileId, outcome.webViewLink)
    {
      match outcome {
        case UploadFailed =>
        case Uploaded(link) =>
          processedFiles := WithDriveLink(processedFiles, fileId, link);
      }
    }

    /** "Flush Queue": the processed list becomes empty. */
    method Flush()
      modifies this
      ensures processedFiles == []
      ensures pdfUrl == old(pdfUrl) && isProcessing == old(isProcessing) && error == old(error)
    {
      processedFiles := [];
    }
  }
}

/**
 * The string-building parts of the Express handlers: the Google Drive link
 * rewrite of the PDF proxy, the stored name of an uploaded branding asset,
 * and the replies of the two upload endpoints.
 */
module Api {
  import opened Wrappers
  import Strings

  // ---------------------------------------------------------------------
  // GET /api/proxy-pdf
  // ---------------------------------------------------------------------

  const DriveFileMarker: string := "drive.google.com/file/d/"
  const ViewMarker: string := "/view"
  const IdMarker: string := "/d/"
  const DownloadPrefix: string := "https://drive.google.com/uc?export=download&id="

  /** A Drive sharing link: it contains both `drive.google.com/file/d/` and `/view`. */
  predicate IsDriveViewLink(url: string)
  {
    Strings.Contains(url, DriveFileMarker) && Strings.Contains(url, ViewMarker)
  }

  /**
   * `id` is the text of `url` after its first `/d/`, up to the next `/` or
   * the end of `url`.
   */
  predicate IsFileIdOf(url: string, id: string)
  {
    var start := Strings.IndexOf(url, IdMarker) + |IdMarker|;
    && start >= |IdMarker|
    && start + |id| <= |url|
    && url[start..start + |id|] == id
    && '/' !in id
    && (start + |id| == |url| || url[start + |id|] == '/')
  }

  /** At most one text is the file id of a link. */
  lemma FileIdUnique(url: string, a: string, b: string)
    requires IsFileIdOf(url, a) && IsFileIdOf(url, b)
    ensures a == b
  {
  }

  /** A link containing `drive.google.com/file/d/` contains `/d/`. */
  lemma DriveLinkHasIdMarker(url: string)
    requires Strings.Contains(url, DriveFileMarker)
    ensures Strings.Contains(url, IdMarker)
  {
    var i := Strings.IndexOf(url, DriveFileMarker);
    assert url[i + 21..i + 24] == url[i..i + 24][21..24];
    Strings.ContainsAt(url, IdMarker, i + 21);
  }

  /** A prefix of the text after the first `/d/` that stops at a `/` or the end is the file id. */
  lemma FileIdAfterMarker(url: string, t: string, id: string)
    requires Strings.IndexOf(url, IdMarker) >= 0
    requires t == url[Strings.IndexOf(url, IdMarker) + |IdMarker|..]
    requires Strings.UpToFirst(id, t, '/')
    ensures IsFileIdOf(url, id)
  {
    var start := Strings.IndexOf(url, IdMarker) + |IdMarker|;
    assert url[start..start + |id|] == t[..|id|];
  }

  /** The two splits of the file id pick the text after the first `/d/` up to the next `/`. */
  lemma FileIdSplits(url: string)
    requires Strings.Contains(url, IdMarker)
    ensures |Strings.Split(url, IdMarker)| >= 2
    ensures IsFileIdOf(url, Strings.Split(Strings.Split(url, IdMarker)[1], "/")[0])
  {
    Strings.CutSecond(url, IdMarker, '/');
    var t := url[Strings.IndexOf(url, IdMarker) + |IdMarker|..];
    FileIdAfterMarker(url, t, Strings.Split(Strings.Split(url, IdMarker)[1], "/")[0]);
  }

  /** `url.split("/d/")[1].split("/")[0]`. */
  function FileId(url: string): (id: string)
    requires Strings.Contains(url, IdMarker)
    ensures IsFileIdOf(url, id)
  {
    FileIdSplits(url);
    Strings.Split(Strings.Split(url, IdMarker)[1], "/")[0]
  }

  /**
   * The URL the proxy fetches: a Drive sharing link becomes the direct
   * download URL for its file id; every other URL is fetched as given.
   */
  function ProxyTarget(url: string): (finalUrl: string)
    ensures !IsDriveViewLink(url) ==> finalUrl == url
    ensures IsDriveViewLink(url) ==>
      && |DownloadPrefix| <= |finalUrl|
      && finalUrl[..|DownloadPrefix|] == DownloadPrefix
      && IsFileIdOf(url, finalUrl[|DownloadPrefix|..])
  {
    if IsDriveViewLink(url) then
      DriveLinkHasIdMarker(url);
      var finalUrl := DownloadPrefix + FileId(url);
      assert finalUrl[|DownloadPrefix|..] == FileId(url);
      finalUrl
    else url
  }

  /** What the proxy handler does before any network traffic. */
  datatype ProxyAction = ProxyRejected(status: int, message: string) | ProxyFetch(url: string)

  /** A missing or empty `url` query is answered with 400 and nothing is fetched. */
  function ProxyPdf(url: Option<string>): (a: ProxyAction)
    ensures a.ProxyRejected? <==> url.None? || url.value == ""
    ensures a.ProxyRejected? ==> a == ProxyRejected(400, "URL is required")
    ensures a.ProxyFetch? ==> a.url == ProxyTarget(url.value)
  {
    match url
    case Some(u) => if u == "" then ProxyRejected(400, "URL is required") else ProxyFetch(ProxyTarget(u))
    case None => ProxyRejected(400, "URL is required")
  }

  // ---------------------------------------------------------------------
  // POST /api/upload-assets
  // ---------------------------------------------------------------------

  /** The extension found from the last `/` and the last `.` after it is a suffix of the path. */
  lemma ExtNameSuffix(path: string, slash: int, base: string, dot: int)
    requires slash >= -1 && Strings.AfterLast(path, '/', slash + 1)
    requires base == path[slash + 1..]
    requires dot > 0 && Strings.AfterLast(base, '.', dot + 1)
    ensures var ext := base[dot..];
      |ext| <= |path| && ext == path[|path| - |ext|..] && ext[0] == '.' && '.' !in ext[1..] && '/' !in ext
  {
    var ext := base[dot..];
    assert ext == path[slash + 1 + dot..];
    forall j | 0 <= j < |ext| ensures ext[j] == path[slash + 1 + dot + j] && ext[j] == base[dot + j] {
    }
  }

  /**
   * `path.extname` on a POSIX path: the last part from its last `.` on, or
   * empty when that part has no `.` after its first character.
   */
  function ExtName(path: string): (ext: string)
    ensures |ext| <= |path| && ext == path[|path| - |ext|..]
    ensures ext != "" ==> ext[0] == '.' && '.' !in ext[1..] && '/' !in ext
    ensures var base := path[Strings.LastIndexOf(path, '/') + 1..];
      ext != "" <==> exists i :: 0 < i < |base| && base[i] == '.'
  {
    var slash := Strings.LastIndexOf(path, '/');
    var base := path[slash + 1..];
    var dot := Strings.LastIndexOf(base, '.');
    if dot <= 0 then ""
    else
      ExtNameSuffix(path, slash, base, dot);
      base[dot..]
  }

  /** The `type` field of the form, `"logo"` when it is missing or empty. */
  function AssetType(type_: Option<string>): (t: string)
    ensures t != ""
    ensures type_.Some? && type_.value != "" ==> t == type_.value
    ensures type_.None? || type_.value == "" ==> t == "logo"
  {
    match type_
    case Some(t) => if t == "" then "logo" else t
    case None => "logo"
  }

  /** The name Multer stores an uploaded asset under: the asset type plus the upload's extension. */
  function AssetFilename(type_: Option<string>, originalname: string): (name: string)
    ensures var t := if type_.Some? && type_.value != "" then type_.value else "logo";
      |name| == |t| + |ExtName(originalname)| && name[..|t|] == t
      && name[|t|..] == ExtName(originalname)
  {
    AssetType(type_) + ExtName(originalname)
  }

  /**
   * A name without `/` or `.` followed by an extension (empty, or a `.` and
   * no further `.` or `/`) has that extension.
   */
  lemma ExtNameOfPlainStem(t: string, ext: string)
    requires t != "" && '/' !in t && '.' !in t
    requires ext == "" || (ext[0] == '.' && '.' !in ext[1..] && '/' !in ext)
    ensures ExtName(t + ext) == ext
  {
    var name := t + ext;
    assert '/' !in name;
    Strings.LastIndexOfAbsent(name, '/');
    assert name[0..] == name;
    if ext == "" {
      assert name == t;
      Strings.LastIndexOfAbsent(name, '.');
    } else {
      Strings.LastIndexOfJoin(t, ext, '.');
      assert name[|t|..] == ext;
    }
  }

  /** For a type without `/` or `.`, the stored name has the upload's extension. */
  lemma AssetFilenameKeepsExtension(type_: Option<string>, originalname: string)
    requires '/' !in AssetType(type_) && '.' !in AssetType(type_)
    ensures ExtName(AssetFilename(type_, originalname)) == ExtName(originalname)
  {
    ExtNameOfPlainStem(AssetType(type_), ExtName(originalname));
  }

  /** The JSON reply of the asset upload endpoint. */
  datatype AssetReply =
    | AssetRejected(status: int, error: string)
    | AssetStored(success: bool, path: string, filename: string)

  /** Without a file the reply is 400; otherwise the stored name and its public path. */
  function UploadAssets(type_: Option<string>, originalname: Option<string>): (r: AssetReply)
    ensures originalname.None? <==> r == AssetRejected(400, "No file provided")
    ensures originalname.Some? ==>
      && r.AssetStored?
      && r == AssetStored(true, "/assets/" + r.filename, r.filename)
      && r.filename == AssetFilename(type_, originalname.value)
  {
    match originalname
    case None => AssetRejected(400, "No file provided")
    case Some(name) =>
      var filename := AssetFilename(type_, name);
      AssetStored(true, "/assets/" + filename, filename)
  }

  // ---------------------------------------------------------------------
  // POST /api/upload-pdf (mock Drive)
  // ---------------------------------------------------------------------

  const MockIdPrefix: string := "mock_drive_id_"
  const MockLinkPrefix: string := "https://drive.google.com/mock/"

  /** The reply of the mock Drive upload. */
  datatype UploadReply =
    | UploadRejected(status: int, error: string)
    | UploadThrew(status: int)
    | MockStored(id: string, webViewLink: string, verificationUrl: string)

  /**
   * The mock Drive upload. `written` is whether writing the file to disk
   * succeeded; a missing `filename` field makes `path.join` throw, and an
   * exception in the handler is answered with 500.
   */
  function UploadPdf(filename: Option<string>, hasFile: bool, written: bool,
                     protocol: string, host: string): (r: UploadReply)
    ensures !hasFile <==> r == UploadRejected(400, "No file provided")
    ensures hasFile && (filename.None? || !written) ==> r == UploadThrew(500)
    ensures r.MockStored? <==> hasFile && filename.Some? && written
    ensures r.MockStored? ==>
      && |r.id| >= |MockIdPrefix| && |r.webViewLink| >= |MockLinkPrefix|
      && r.id[..|MockIdPrefix|] == MockIdPrefix && r.id[|MockIdPrefix|..] == filename.value
      && r.webViewLink[..|MockLinkPrefix|] == MockLinkPrefix
      && r.webViewLink[|MockLinkPrefix|..] == filename.value
      && r.verificationUrl == protocol + "://" + host + "/verify/mock_" + filename.value
  {
    if !hasFile then UploadRejected(400, "No file provided")
    else
      match filename
      case None => UploadThrew(500)
      case Some(name) =>
        if !written then UploadThrew(500)
        else
          var id, link := MockIdPrefix + name, MockLinkPrefix + name;
          assert id[|MockIdPrefix|..] == name && link[|MockLinkPrefix|..] == name;
          MockStored(id, link, protocol + "://" + host + "/verify/mock_" + name)
  }

  /** Different file names get different mock ids and links. */
  lemma MockIdsDistinct(a: string, b: string, protocol: string, host: string)
    requires a != b
    ensures var ra := UploadPdf(Some(a), true, true, protocol, host);
      var rb := UploadPdf(Some(b), true, true, protocol, host);
      ra.id != rb.id && ra.webViewLink != rb.webViewLink
  {
    var ra := UploadPdf(Some(a), true, true, protocol, host);
    var rb := UploadPdf(Some(b), true, true, protocol, host);
    assert ra.id[|MockIdPrefix|..] == a && rb.id[|MockIdPrefix|..] == b;
  }
}

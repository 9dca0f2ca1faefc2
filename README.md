# Vita Healthcare report stamper — a verified Dafny model

The system takes a PDF report, stamps a logo into the header band and a
footer image (or a footer text) at the bottom of every page in the browser,
and offers the result for download, for a mock Google Drive upload and for
sharing. This project models the three pieces of real logic in it and proves
their properties:

- **Page stamping** (`processPdf`, module `PdfProcessor`). The branding images
  are decoded PNG first, JPEG only if PNG fails; a buffer neither accepts
  fails the whole call before any page is touched. Every page then gets the
  same overlays: the logo, scaled uniformly into a 300 x 280 box,
  right-aligned one point from the edge and centred in the 150-point header
  band five points up; then a footer image scaled to 850 points high,
  centred horizontally at y = 20, or otherwise the footer text at y = 30,
  size 10, 30% grey, its start three points per character left of the page
  centre.
  Coordinates are in PDF default user space, origin at the lower-left
  (ISO 32000-1, section 8.3.2.3). Pages are objects (`Page`) whose overlay
  lists the loop appends to in place; the placement is given by closed-form
  functions (`LogoDraw`, `FooterImageDraw`, `FooterTextDraw`,
  `PageOverlays`) whose contracts state fit, aspect ratio, tightness,
  alignment and centring, and `ProcessPdf` is proved to append exactly
  `PageOverlays` to every page and to leave the page list alone.
- **Server string helpers** (module `Api`): the rewrite of a Drive sharing
  link into a direct-download URL by the PDF proxy, the name an uploaded
  branding asset is stored under, and the replies of the two upload
  endpoints.
- **Front-end state** (module `App`): the class `AppState` holds the URL
  input, the busy flag, the processed-file list and the error banner; its
  methods are the handlers that update them (prepend a processed file,
  import from a URL, set the Drive link of one entry, flush the list). The
  file name taken from a pasted URL and the share message are functions.

`Strings` models the JavaScript string operations these rely on
(`indexOf`, `includes`, `split` with a non-empty separator, `pop` on the
pieces, `lastIndexOf`, `trim`), with `split` proved to be undone by `join`.
`Wrappers` holds `Option` (`undefined`) and `Result` (a thrown error).

A design consequence made explicit: the logo box is 280 points high but the
header band only 150, so a logo whose scaled height exceeds 140 points
reaches above the top edge of the page (`LogoTopEdge`). The footer image is
always 850 points high at y = 20, taller than a Letter or A4 page. Both are
the fixed layout as written, reproduced unchanged.

Two behaviours follow from JavaScript semantics at the cited lines. The
footer text is drawn only when it is a non-empty string, because
`else if (footerText)` treats an empty string as absent
(frontend/src/utils/pdf-processor.js:79). The mock upload answers 500 when
the `filename` field is missing, because `path.join(DRIVE_DIR, filename)`
throws on `undefined` and Express answers a handler that throws with its
default 500 error page (api/index.js:59).

Stamping appends: `ProcessPdf` on an already stamped document appends a
second set of overlays after the first, as its postcondition says.

## Model

| member | source | states |
|---|---|---|
| `Strings.IndexOf` | api/index.js:78-79 | the result is -1 or an index at which the pattern occurs |
| `Strings.IndexOfIsFirst` | api/index.js:78-79 | no occurrence of the pattern starts before the index `indexOf` returns, and there is none at all when it returns -1 |
| `Strings.Contains` | api/index.js:78 | `includes` holds exactly when `indexOf` finds the pattern (its meaning is given by `ContainsAt` and `IndexOfIsFirst`) |
| `Strings.ContainsAt` | api/index.js:78 | any occurrence of the pattern makes `includes` hold, with `indexOf` at or before it |
| `Strings.NoOccurrenceChar` | frontend/src/App.jsx:89 | a string that does not include the one-character string of `c` has no `c` |
| `Strings.BeforeFirst` | api/index.js:79 | the text before the first occurrence of a non-empty pattern does not include it |
| `Strings.Split` | api/index.js:79 | `split` always yields at least one piece |
| `Strings.SplitOnePiece` | api/index.js:79 | `split` yields a single piece exactly when the separator does not occur |
| `Strings.SplitPieces` | api/index.js:79 | no piece of a split includes the separator |
| `Strings.JoinSplit` | api/index.js:79 | joining the pieces of a split with the same separator gives back the original string |
| `Strings.SplitFirst` | api/index.js:79 | the first piece of a split is the text before the first separator, or the whole string |
| `Strings.SplitSecond` | api/index.js:79 | with the separator present there are at least two pieces and the second is the first piece of the text after the first separator |
| `Strings.SplitLast` | frontend/src/App.jsx:89 | the last piece of a split on one character (`pop()`) is the text after the last occurrence of that character |
| `Strings.SplitFirstChar` | frontend/src/App.jsx:89 | the first piece of a split on one character is a prefix free of it, followed by it or by the end |
| `Strings.CutTwice` | api/index.js:79 | cutting at the first separator and then at the first `c`, where the separator begins with `c`, leaves the text before the first `c` |
| `Strings.CutSecond` | api/index.js:79 | with the separator present, the first `c`-piece of the second piece is the text after the first separator up to the next `c` or the end |
| `Strings.LastPieceCut` | frontend/src/App.jsx:89 | the first `d`-piece of the last `c`-piece is the text after the last `c` up to the first `d` after it |
| `Strings.LastIndexOf` | api/index.js:35 | the last index holding the character, no such character after it, -1 when there is none |
| `Strings.LastIndexOfIs` | api/index.js:35 | an index holding the character with none after it is the last index |
| `Strings.LastIndexOfAbsent` | api/index.js:35 | a string without the character gives -1 |
| `Strings.LastIndexOfJoin` | api/index.js:35 | in `a + b`, where `a` lacks the character and `b` holds it only at its start, the last index is the length of `a` |
| `Strings.TrimStart` | frontend/src/App.jsx:79 | the result is a suffix of the input |
| `Strings.TrimStartSpec` | frontend/src/App.jsx:79 | everything `TrimStart` cuts off is white space and what it keeps does not start with white space |
| `Strings.TrimEnd` | frontend/src/App.jsx:79 | the result is a prefix of the input |
| `Strings.TrimEndSpec` | frontend/src/App.jsx:79 | everything `TrimEnd` cuts off is white space and what it keeps does not end with white space |
| `Strings.Trim` | frontend/src/App.jsx:79 | `trim()` is a prefix of the input with its leading white space removed, so a contiguous slice of the input |
| `Strings.TrimSpec` | frontend/src/App.jsx:79 | `trim()` is empty exactly when every character is white space; otherwise neither end is white space |
| `PdfProcessor.Min` | frontend/src/utils/pdf-processor.js:48-51 | `Math.min` is at most both arguments and equal to one of them |
| `PdfProcessor.LogoDraw` | frontend/src/utils/pdf-processor.js:40-62 | the logo keeps its image and aspect ratio, fits 300 x 280 with one side on the bound, ends one point before the right edge and has its centre 70 points below the page top |
| `PdfProcessor.LogoFits` | frontend/src/utils/pdf-processor.js:48-54 | the uniform scale keeps both scaled sides positive and inside their bounds, one of them on it, with the aspect ratio preserved |
| `PdfProcessor.LogoScaleIsLargest` | frontend/src/utils/pdf-processor.js:48-54 | every uniform scale that fits the box yields a logo no larger than the drawn one |
| `PdfProcessor.LogoTopEdge` | frontend/src/utils/pdf-processor.js:55-59 | the logo's top edge is on the page exactly when its scaled height is at most 140 points |
| `PdfProcessor.FooterImageDraw` | frontend/src/utils/pdf-processor.js:65-78 | the footer is 850 high at y = 20, keeps the image's aspect ratio and is centred on the page width, whatever the page height |
| `PdfProcessor.FooterTextDraw` | frontend/src/utils/pdf-processor.js:79-87 | the footer text is drawn at y = 30, size 10, 30% grey, its start three points per character left of the page centre |
| `PdfProcessor.HasText` | frontend/src/utils/pdf-processor.js:79 | the truthiness of the optional footer text: present and not the empty string |
| `PdfProcessor.PageOverlays` | frontend/src/utils/pdf-processor.js:40-87 | a page gets the logo first if present, then the footer image, else the text if non-empty; a text overlay appears exactly when there is no footer image and the text is non-empty; no assets means no overlays |
| `PdfProcessor.Embed` | frontend/src/utils/pdf-processor.js:17-23 | decoding succeeds exactly when one decoder accepts the buffer; the PNG result is used when PNG accepts it, the JPEG result otherwise |
| `PdfProcessor.DecodeAsset` | frontend/src/utils/pdf-processor.js:16-32 | no buffer gives no image; a buffer fails exactly when both decoders reject it; otherwise it gives the decoded image |
| `PdfProcessor.Page.constructor` | frontend/src/utils/pdf-processor.js:37 | a page has a fixed size and no overlays yet |
| `PdfProcessor.Page.DrawImage` | frontend/src/utils/pdf-processor.js:57-62 | drawing an image appends exactly one image overlay and keeps the earlier ones |
| `PdfProcessor.Page.DrawText` | frontend/src/utils/pdf-processor.js:81-86 | drawing text appends exactly one text overlay and keeps the earlier ones |
| `PdfProcessor.Document.constructor` | frontend/src/utils/pdf-processor.js:34 | a document holds its distinct pages in order |
| `PdfProcessor.StampPage` | frontend/src/utils/pdf-processor.js:37-87 | one pass of the page loop appends exactly the page's overlays to what it already had |
| `PdfProcessor.ProcessPdf` | frontend/src/utils/pdf-processor.js:16-88 | a decode failure leaves every page untouched and fails the call; otherwise every page gets the same overlays appended, computed from its own size; the page list is unchanged |
| `PdfProcessor.LogoExample` | frontend/src/utils/pdf-processor.js:48-61 | a 600 x 400 logo is drawn 300 x 200 at x = W - 301 |
| `PdfProcessor.FooterImageExample` | frontend/src/utils/pdf-processor.js:69-78 | a 500 x 400 footer is drawn 1062.5 wide at x = (W - 1062.5) / 2, y = 20 |
| `PdfProcessor.FooterTextExample` | frontend/src/utils/pdf-processor.js:81-86 | "Page 1 of 3" on a 612-point page is drawn at x = 273, y = 30, size 10 |
| `Api.FileIdUnique` | api/index.js:79 | the characterisation of a file id admits at most one text |
| `Api.DriveLinkHasIdMarker` | api/index.js:78-79 | a link containing `drive.google.com/file/d/` contains `/d/`, so the split in the rewrite has a second piece |
| `Api.FileIdAfterMarker` | api/index.js:79 | the text after the first `/d/` up to the next `/` or the end is the file id |
| `Api.FileIdSplits` | api/index.js:79 | the two splits select the text after the first `/d/` up to the next `/` or the end |
| `Api.FileId` | api/index.js:79 | the file id is the text after the first `/d/` up to the next `/` or the end, and contains no `/` |
| `Api.IsDriveViewLink` | api/index.js:78 | the rewrite applies exactly when the URL includes both `drive.google.com/file/d/` and `/view` |
| `Api.ProxyTarget` | api/index.js:77-81 | a URL without both Drive markers is fetched unchanged; a Drive sharing link becomes the download prefix followed by its file id |
| `Api.ProxyPdf` | api/index.js:73-81 | a missing or empty `url` is answered 400 "URL is required" and nothing is fetched; otherwise the rewritten URL is fetched |
| `Api.ExtNameSuffix` | api/index.js:35 | the text from the last `.` of the last path part is a suffix of the path starting with its only `.` |
| `Api.ExtName` | api/index.js:35 | the extension is a suffix of the path; it is non-empty exactly when the last path part has a `.` after its first character, and then it starts with that part's last `.` and holds no other `.` and no `/` |
| `Api.AssetType` | api/index.js:34 | the asset type is the form's `type` when that is a non-empty string, and `"logo"` when it is missing or empty |
| `Api.AssetFilename` | api/index.js:32-37 | the stored name is the form's non-empty `type`, or `"logo"`, followed by the upload's extension |
| `Api.ExtNameOfPlainStem` | api/index.js:35 | a stem without `/` or `.` followed by an extension has exactly that extension |
| `Api.AssetFilenameKeepsExtension` | api/index.js:34-36 | for a type with no `/` and no `.`, the stored name has the same extension as the upload |
| `Api.UploadAssets` | api/index.js:42-50 | no file gives 400 "No file provided"; otherwise success with the stored name and `/assets/` followed by it |
| `Api.UploadPdf` | api/index.js:53-69 | no file gives 400; a missing name or failed write gives 500; a stored file gets `mock_drive_id_` and `https://drive.google.com/mock/` followed by its name, and the verification URL |
| `Api.MockIdsDistinct` | api/index.js:62-66 | different file names get different mock ids and different links |
| `App.FileName` | frontend/src/App.jsx:89 | the derived file name is never empty and contains neither `/` nor `?` |
| `App.NameSpanExists` | frontend/src/App.jsx:89 | every URL has a name span: after its last `/`, up to the first `?` after it |
| `App.FileNameSpec` | frontend/src/App.jsx:89 | the derived file name is the name span of the URL, or `document.pdf` when the span is empty |
| `App.WithDriveLink` | frontend/src/App.jsx:112-116 | the list keeps its length and order; entries whose id matches get the new link, every other entry is unchanged |
| `App.WithDriveLinkKeepsEntries` | frontend/src/App.jsx:112-116 | names, object URLs and ids of all entries are kept |
| `App.WithDriveLinkIdempotent` | frontend/src/App.jsx:112-116 | setting the same link twice is the same as once |
| `App.WithDriveLinkNoMatch` | frontend/src/App.jsx:112-116 | when no entry has the id the list is unchanged |
| `App.UploadOutcomeOf` | frontend/src/App.jsx:109-116 | a stored file yields its link; a 400 JSON reply yields no link (`data.drive?.webViewLink` is undefined); the 500 reply makes `res.json()` throw |
| `App.ShareText` | frontend/src/App.jsx:123 | the share message is `Processed Healthcare Report: ` followed by exactly the file name |
| `App.MockUploadLinksEntry` | frontend/src/App.jsx:109-116 | after the mock Drive stores a file, every entry with its id links to `https://drive.google.com/mock/` followed by the file name |
| `App.AppState.constructor` | frontend/src/App.jsx:8-12 | the state starts with an empty URL, not busy, no processed files and no error |
| `App.AppState.EditUrl` | frontend/src/App.jsx:192 | typing sets the URL and nothing else |
| `App.AppState.ProcessAndAdd` | frontend/src/App.jsx:46-67 | success prepends exactly one new entry and clears the error; failure keeps the list and sets the error message; the busy flag ends cleared |
| `App.AppState.ImportUrl` | frontend/src/App.jsx:78-99 | a blank URL changes nothing; a failed fetch only sets the error; a fetched document is processed under the URL's file name and the input is cleared |
| `App.AppState.UploadToDrive` | frontend/src/App.jsx:101-120 | an answered upload sets the link of the matching entries only; a thrown upload changes nothing |
| `App.AppState.Flush` | frontend/src/App.jsx:258 | the processed list becomes empty and nothing else changes |

## Left out

- Loading and saving the PDF (`PDFDocument.load`, `pdfDoc.save`) and the pixel decoding inside `embedPng`/`embedJpg`: foreign library calls; the document is given already loaded, and the decoders are abstract functions that yield an image with positive dimensions or fail.
- Floating point: all layout arithmetic is over exact reals, so IEEE-754 rounding is not modelled; zero or negative image dimensions cannot arise, because the decoded image type excludes them.
- PdfProcessor.ProcessPdf: requires `doc.Valid()`, that the document lists each page object once; the source does not check this and relies on `getPages()` (frontend/src/utils/pdf-processor.js:34); a page object listed twice would be stamped twice, which the model does not capture.
- PdfProcessor.ProcessPdf: the error thrown by `embedJpg` is abstracted to one `ImageDecodeError`, and which asset failed is not recorded.
- PdfProcessor.FooterTextDraw: the text length is counted in Unicode code points, whereas JavaScript's `length` counts UTF-16 code units; they differ for characters outside the Basic Multilingual Plane.
- Network and file I/O: the proxy's `axios` fetch and its 500 on failure, `fs.writeFileSync` (its outcome is the `written` parameter of `Api.UploadPdf`), directory creation, Multer's disk storage and destination, Express routing, static serving and the choice of directories on Vercel (api/index.js:13-25).
- Api.ExtName: models `path.extname` as the text from the last `.` of the text after the last `/`, empty when that `.` is its first character; trailing separators and the `..` base name are not treated as Node does.
- Non-string values of `req.body.type`, `req.body.filename` and `req.query.url` (arrays, objects), and the order of multipart fields that decides whether `type` is already parsed when Multer names the file.
- `req.protocol` and `req.get('host')` are parameters of `Api.UploadPdf`.
- Rendering and browser APIs: all JSX, the `useEffect` that loads the branding assets (frontend/src/App.jsx:18-44), `URL.createObjectURL` (its result is a parameter of `ProcessAndAdd`), `window.open` and `encodeURIComponent` around the share text.
- The `Math.random` id of a processed file is a parameter.
- Concurrency: `onDrop` starts several `processAndAdd` calls that share `isProcessing` and `error`; the model applies each handler's state updates in sequence, as one uninterrupted run, and does not model interleavings or React's update batching.
- App.AppState.ImportUrl: a failure of `response.blob()` is folded into the thrown-fetch case; the object-URL fetch and form building inside `handleUploadToDrive` are folded into its upload outcome.
- The share URL built from the share text (`https://wa.me/?text=` plus the encoded text) is not modelled, since `encodeURIComponent` is not.

/**
 * The page-stamping pass of `processPdf`: decode the branding images (PNG
 * first, JPEG as the fallback), then append to every page a logo overlay in
 * the header band and a footer image or, failing that, a footer text.
 *
 * Coordinates are in PDF default user space: the origin is the lower-left
 * corner of the page and y grows upwards (ISO 32000-1, section 8.3.2.3).
 */
module PdfProcessor {
  import opened Wrappers

  newtype byte = x: int | 0 <= x < 256

  /** The raw bytes of an image asset. */
  type Bytes = seq<byte>

  /** The intrinsic size of a raster image. */
  datatype ImageSize = ImageSize(width: real, height: real)

  /** A decoded, embedded image: its dimensions are always positive. */
  type Image = i: ImageSize | i.width > 0.0 && i.height > 0.0 witness ImageSize(1.0, 1.0)

  /** `embedPng` or `embedJpg`: the decoded image, or `None` when the call throws. */
  type Decoder = Bytes -> Option<Image>

  datatype Rgb = Rgb(red: real, green: real, blue: real)

  /** One overlay appended to a page by `drawImage` or `drawText`. */
  datatype Overlay =
    | ImageDraw(image: Image, x: real, y: real, width: real, height: real)
    | TextDraw(text: string, x: real, y: real, size: real, color: Rgb)

  /** The only error the stamping pass itself raises. */
  datatype StampError = ImageDecodeError

  const HeaderHeight: real := 150.0
  const LogoMargin: real := 1.0
  const HeaderTopPadding: real := 5.0
  const MaxLogoWidth: real := 300.0
  const MaxLogoHeight: real := 280.0
  const BottomMargin: real := 20.0
  const FooterHeight: real := 850.0
  const FooterTextMargin: real := 30.0
  const FooterTextSize: real := 10.0
  const FooterTextColor: Rgb := Rgb(0.3, 0.3, 0.3)
  /** Half the width assumed per character when centring the footer text. */
  const PointsPerChar: real := 3.0

  /** `Math.min`. */
  function Min(a: real, b: real): (m: real)
    ensures m <= a && m <= b && (m == a || m == b)
  {
    if a <= b then a else b
  }

  // ---------------------------------------------------------------------
  // Placement of the overlays on one page
  // ---------------------------------------------------------------------

  /**
   * The logo, scaled uniformly to fit a 300 x 280 box, right-aligned one
   * point from the page edge and centred in the 150-point header band,
   * shifted five points up.
   */
  function LogoDraw(pageWidth: real, pageHeight: real, logo: Image): (d: Overlay)
    ensures d.ImageDraw? && d.image == logo
    ensures 0.0 < d.width <= MaxLogoWidth && 0.0 < d.height <= MaxLogoHeight
    ensures d.width * logo.height == d.height * logo.width
    ensures d.width == MaxLogoWidth || d.height == MaxLogoHeight
    ensures d.x + d.width == pageWidth - LogoMargin
    ensures d.y + d.height / 2.0 == pageHeight - HeaderHeight / 2.0 + HeaderTopPadding
  {
    var scale := Min(MaxLogoWidth / logo.width, MaxLogoHeight / logo.height);
    var logoWidth := logo.width * scale;
    var logoHeight := logo.height * scale;
    var headerTopY := pageHeight - HeaderHeight;
    LogoFits(logo);
    ImageDraw(logo, pageWidth - logoWidth - LogoMargin,
              headerTopY + (HeaderHeight - logoHeight) / 2.0 + HeaderTopPadding,
              logoWidth, logoHeight)
  }

  /** The uniform logo scale leaves both scaled sides inside their bounds, one of them on it. */
  lemma LogoFits(logo: Image)
    ensures var scale := Min(MaxLogoWidth / logo.width, MaxLogoHeight / logo.height);
      && 0.0 < logo.width * scale <= MaxLogoWidth
      && 0.0 < logo.height * scale <= MaxLogoHeight
      && (logo.width * scale == MaxLogoWidth || logo.height * scale == MaxLogoHeight)
      && (logo.width * scale) * logo.height == (logo.height * scale) * logo.width
  {
    var w, h := logo.width, logo.height;
    var sw, sh := MaxLogoWidth / w, MaxLogoHeight / h;
    assert w * sw == MaxLogoWidth && h * sh == MaxLogoHeight;
    if sw <= sh {
      assert h * sw <= h * sh;
    } else {
      assert w * sh <= w * sw;
    }
    var scale := Min(sw, sh);
    assert (w * scale) * h == (h * scale) * w;
  }

  /** No larger uniform scale keeps the logo inside the 300 x 280 box. */
  lemma LogoScaleIsLargest(pageWidth: real, pageHeight: real, logo: Image, s: real)
    requires s > 0.0
    requires logo.width * s <= MaxLogoWidth && logo.height * s <= MaxLogoHeight
    ensures var d := LogoDraw(pageWidth, pageHeight, logo);
      logo.width * s <= d.width && logo.height * s <= d.height
  {
    var d := LogoDraw(pageWidth, pageHeight, logo);
    var w, h := logo.width, logo.height;
    if d.width == MaxLogoWidth {
      // d.height * w == 300 * h and w * s <= 300, so h * s * w <= d.height * w
      assert (h * s) * w == (w * s) * h;
      assert (w * s) * h <= MaxLogoWidth * h;
      assert (h * s) * w <= d.height * w;
    } else {
      assert d.height == MaxLogoHeight;
      assert (w * s) * h == (h * s) * w;
      assert (h * s) * w <= MaxLogoHeight * w;
      assert (w * s) * h <= d.width * h;
    }
  }

  /**
   * The logo's top edge stays on the page only while its scaled height is at
   * most 140 points; the 280-point bound lets taller logos reach above it.
   */
  lemma LogoTopEdge(pageWidth: real, pageHeight: real, logo: Image)
    ensures var d := LogoDraw(pageWidth, pageHeight, logo);
      d.y + d.height <= pageHeight <==> d.height <= 140.0
  {
  }

  /**
   * The footer image, scaled uniformly to a height of 850 points, centred
   * horizontally and 20 points above the bottom edge whatever the page height.
   */
  function FooterImageDraw(pageWidth: real, footer: Image): (d: Overlay)
    ensures d.ImageDraw? && d.image == footer
    ensures d.height == FooterHeight && d.y == BottomMargin
    ensures d.width * footer.height == FooterHeight * footer.width
    ensures d.x + d.width / 2.0 == pageWidth / 2.0
  {
    var scale := FooterHeight / footer.height;
    var footerWidth := footer.width * scale;
    assert footerWidth * footer.height == FooterHeight * footer.width;
    ImageDraw(footer, (pageWidth - footerWidth) / 2.0, BottomMargin, footerWidth, FooterHeight)
  }

  /**
   * The footer text at size 10 in 30% grey, 30 points above the bottom edge,
   * centred on the estimate that each character is six points wide.
   */
  function FooterTextDraw(pageWidth: real, text: string): (d: Overlay)
    ensures d.TextDraw? && d.text == text
    ensures d.y == FooterTextMargin && d.size == FooterTextSize && d.color == FooterTextColor
    ensures d.x + PointsPerChar * (|text| as real) == pageWidth / 2.0
  {
    TextDraw(text, pageWidth / 2.0 - (|text| as real) * PointsPerChar,
             FooterTextMargin, FooterTextSize, FooterTextColor)
  }

  /** JavaScript truthiness of the optional footer text: present and not empty. */
  predicate HasText(text: Option<string>)
  {
    text.Some? && text.value != ""
  }

  /**
   * The overlays appended to one page: the logo first when there is one, then
   * the footer image, or the footer text when there is no footer image.
   */
  function PageOverlays(pageWidth: real, pageHeight: real, logo: Option<Image>,
                        footer: Option<Image>, text: Option<string>): (ops: seq<Overlay>)
    ensures |ops| == (if logo.Some? then 1 else 0) + (if footer.Some? || HasText(text) then 1 else 0)
    ensures logo.Some? ==> ops[0] == LogoDraw(pageWidth, pageHeight, logo.value)
    ensures footer.Some? ==> ops[|ops| - 1] == FooterImageDraw(pageWidth, footer.value)
    ensures footer.None? && HasText(text) ==> ops[|ops| - 1] == FooterTextDraw(pageWidth, text.value)
    ensures (exists k :: 0 <= k < |ops| && ops[k].TextDraw?) <==> footer.None? && HasText(text)
  {
    var header := if logo.Some? then [LogoDraw(pageWidth, pageHeight, logo.value)] else [];
    var bottom :=
      if footer.Some? then [FooterImageDraw(pageWidth, footer.value)]
      else if HasText(text) then [FooterTextDraw(pageWidth, text.value)]
      else [];
    var ops := header + bottom;
    assert forall k :: 0 <= k < |header| ==> ops[k] == header[k];
    assert forall k :: |header| <= k < |ops| ==> ops[k] == bottom[k - |header|];
    ops
  }

  // ---------------------------------------------------------------------
  // Decoding the branding images
  // ---------------------------------------------------------------------

  /** `embedPng`, and `embedJpg` only when `embedPng` throws. */
  function Embed(buffer: Bytes, embedPng: Decoder, embedJpg: Decoder): (img: Option<Image>)
    ensures img.Some? <==> embedPng(buffer).Some? || embedJpg(buffer).Some?
    ensures embedPng(buffer).Some? ==> img == embedPng(buffer)
    ensures embedPng(buffer).None? ==> img == embedJpg(buffer)
  {
    match embedPng(buffer)
    case Some(img) => Some(img)
    case None => embedJpg(buffer)
  }

  /**
   * The image an optional asset buffer yields: none without a buffer, an
   * `ImageDecodeError` when neither decoder accepts it.
   */
  function DecodeAsset(buffer: Option<Bytes>, embedPng: Decoder, embedJpg: Decoder)
    : (r: Result<Option<Image>, StampError>)
    ensures buffer.None? ==> r == Success(None)
    ensures buffer.Some? ==>
      (r.Failure? <==> embedPng(buffer.value).None? && embedJpg(buffer.value).None?)
    ensures buffer.Some? && r.Success? ==> r.value == Embed(buffer.value, embedPng, embedJpg)
  {
    match buffer
    case None => Success(None)
    case Some(bytes) =>
      match Embed(bytes, embedPng, embedJpg)
      case None => Failure(ImageDecodeError)
      case Some(img) => Success(Some(img))
  }

  // ---------------------------------------------------------------------
  // The document and its pages
  // ---------------------------------------------------------------------

  /** A page of a loaded document: a fixed size and the overlays drawn on it. */
  class Page {
    const width: real
    const height: real
    var overlays: seq<Overlay>

    constructor (width: real, height: real)
      ensures this.width == width && this.height == height && overlays == []
    {
      this.width := width;
      this.height := height;
      overlays := [];
    }

    /** `page.drawImage`: appends one image overlay; the page content is kept. */
    method DrawImage(image: Image, x: real, y: real, drawWidth: real, drawHeight: real)
      modifies this
      ensures overlays == old(overlays) + [ImageDraw(image, x, y, drawWidth, drawHeight)]
    {
      overlays := overlays + [ImageDraw(image, x, y, drawWidth, drawHeight)];
    }

    /** `page.drawText`: appends one text overlay; the page content is kept. */
    method DrawText(text: string, x: real, y: real, size: real, color: Rgb)
      modifies this
      ensures overlays == old(overlays) + [TextDraw(text, x, y, size, color)]
    {
      overlays := overlays + [TextDraw(text, x, y, size, color)];
    }
  }

  /** A loaded document: its pages, each a distinct object. */
  class Document {
    var pages: seq<Page>

    ghost predicate Valid()
      reads this
    {
      forall i, j :: 0 <= i < j < |pages| ==> pages[i] != pages[j]
    }

    constructor (pages: seq<Page>)
      requires forall i, j :: 0 <= i < j < |pages| ==> pages[i] != pages[j]
      ensures this.pages == pages && Valid()
    {
      this.pages := pages;
    }
  }

  /**
   * The body of the page loop of `processPdf`: reads the page size and draws
   * the logo, then the footer image or the footer text.
   */
  method StampPage(page: Page, logoImage: Option<Image>, footerImage: Option<Image>,
                   footerText: Option<string>)
    modifies page
    ensures page.overlays == old(page.overlays) +
      PageOverlays(page.width, page.height, logoImage, footerImage, footerText)
  {
    var width, height := page.width, page.height;
    ghost var header: seq<Overlay> := [];
    ghost var bottom: seq<Overlay> := [];

    if logoImage.Some? {
      var imgW, imgH := logoImage.value.width, logoImage.value.height;
      var scale := Min(MaxLogoWidth / imgW, MaxLogoHeight / imgH);
      var logoWidth := imgW * scale;
      var logoHeight := imgH * scale;
      var headerTopY := height - HeaderHeight;
      page.DrawImage(logoImage.value, width - logoWidth - LogoMargin,
                     headerTopY + (HeaderHeight - logoHeight) / 2.0 + HeaderTopPadding,
                     logoWidth, logoHeight);
      assert LogoDraw(width, height, logoImage.value) ==
        ImageDraw(logoImage.value, width - logoWidth - LogoMargin,
                  headerTopY + (HeaderHeight - logoHeight) / 2.0 + HeaderTopPadding,
                  logoWidth, logoHeight);
      header := [LogoDraw(width, height, logoImage.value)];
    }

    if footerImage.Some? {
      var fW, fH := footerImage.value.width, footerImage.value.height;
      var scale := FooterHeight / fH;
      var footerWidth := fW * scale;
      page.DrawImage(footerImage.value, (width - footerWidth) / 2.0, BottomMargin,
                     footerWidth, FooterHeight);
      assert FooterImageDraw(width, footerImage.value) ==
        ImageDraw(footerImage.value, (width - footerWidth) / 2.0, BottomMargin,
                  footerWidth, FooterHeight);
      bottom := [FooterImageDraw(width, footerImage.value)];
    } else if footerText.Some? && footerText.value != "" {
      page.DrawText(footerText.value, width / 2.0 - (|footerText.value| as real) * PointsPerChar,
                    FooterTextMargin, FooterTextSize, FooterTextColor);
      bottom := [FooterTextDraw(width, footerText.value)];
    }
    assert page.overlays == old(page.overlays) + header + bottom;
    assert PageOverlays(width, height, logoImage, footerImage, footerText) == header + bottom;
  }

  /**
   * `processPdf` on a loaded document: decodes the logo, then the footer, and
   * then appends the same overlays to every page. A buffer neither decoder
   * accepts fails the whole call before any page is touched. Serialising the
   * document afterwards is not part of this model.
   */
  method ProcessPdf(doc: Document, logoBuffer: Option<Bytes>, footerBuffer: Option<Bytes>,
                    footerText: Option<string>, embedPng: Decoder, embedJpg: Decoder)
    returns (outcome: Result<(), StampError>)
    requires doc.Valid()
    modifies doc.pages
    ensures doc.pages == old(doc.pages)
    ensures var logo := DecodeAsset(logoBuffer, embedPng, embedJpg);
      var footer := DecodeAsset(footerBuffer, embedPng, embedJpg);
      if logo.Failure? || footer.Failure? then
        && outcome == Failure(ImageDecodeError)
        && forall k :: 0 <= k < |doc.pages| ==> doc.pages[k].overlays == old(doc.pages[k].overlays)
      else
        && outcome == Success(())
        && forall k :: 0 <= k < |doc.pages| ==>
             doc.pages[k].overlays == old(doc.pages[k].overlays) +
               PageOverlays(doc.pages[k].width, doc.pages[k].height, logo.value, footer.value, footerText)
  {
    var logoImage: Option<Image> := None;
    if logoBuffer.Some? {
      var png := embedPng(logoBuffer.value);
      if png.Some? {
        logoImage := png;
      } else {
        var jpg := embedJpg(logoBuffer.value);
        if jpg.None? {
          return Failure(ImageDecodeError);
        }
        logoImage := jpg;
      }
    }

    var footerImage: Option<Image> := None;
    if footerBuffer.Some? {
      var png := embedPng(footerBuffer.value);
      if png.Some? {
        footerImage := png;
      } else {
        var jpg := embedJpg(footerBuffer.value);
        if jpg.None? {
          return Failure(ImageDecodeError);
        }
        footerImage := jpg;
      }
    }
    assert DecodeAsset(logoBuffer, embedPng, embedJpg) == Success(logoImage);
    assert DecodeAsset(footerBuffer, embedPng, embedJpg) == Success(footerImage);

    var pages := doc.pages;
    for i := 0 to |pages|
      invariant forall k :: 0 <= k < i ==>
        pages[k].overlays == old(pages[k].overlays) +
          PageOverlays(pages[k].width, pages[k].height, logoImage, footerImage, footerText)
      invariant forall k :: i <= k < |pages| ==> pages[k].overlays == old(pages[k].overlays)
    {
      StampPage(pages[i], logoImage, footerImage, footerText);
    }
    outcome := Success(());
  }

  // ---------------------------------------------------------------------
  // Worked examples
  // ---------------------------------------------------------------------

  /** A 600 x 400 logo is scaled by 0.5 to 300 x 200 and drawn at x = W - 301. */
  lemma LogoExample(pageWidth: real, pageHeight: real)
    ensures var d := LogoDraw(pageWidth, pageHeight, ImageSize(600.0, 400.0));
      d.width == 300.0 && d.height == 200.0 && d.x == pageWidth - 301.0
  {
  }

  /** A 500 x 400 footer is scaled by 2.125 to 1062.5 x 850 at y = 20. */
  lemma FooterImageExample(pageWidth: real)
    ensures var d := FooterImageDraw(pageWidth, ImageSize(500.0, 400.0));
      d.width == 1062.5 && d.x == (pageWidth - 1062.5) / 2.0 && d.y == 20.0
  {
  }

  /** "Page 1 of 3" on a 612-point-wide page starts at x = 273. */
  lemma FooterTextExample()
    ensures var d := FooterTextDraw(612.0, "Page 1 of 3");
      d.x == 273.0 && d.y == 30.0 && d.size == 10.0
  {
  }
}

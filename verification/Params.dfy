/**
 The request parameters shared by the URL grammar and the cache key, and what is assumed of the floating
 point and base64 libraries. `F` stands for 32-bit floats and `D` for 64-bit ones, up to the payload of a
 NaN, which no operation here can tell apart.
 */
module Params {
  import opened Common
  import opened Text

  // ---------------------------------------------------------------------------------------------
  // Library functions
  // ---------------------------------------------------------------------------------------------

  /** How a 64-bit number counts as a crop dimension; `Whole` carries the value rounded to 32 bits. */
  datatype Extent = Refused | Zero | Fraction | Whole(rounded: nat)

  /**
   The library functions the grammar calls: reading and showing floats of both widths, the comparisons it
   makes, and URL-safe base64 together with the UTF-8 check.
   */
  datatype Library<!F, !D> = Library(
    readF: string -> Option<F>,
    showF: F -> string,
    positive: F -> bool,
    negative: F -> bool,
    zeroF: F,
    oneF: F,
    readD: string -> Option<D>,
    showD: D -> string,
    extent: D -> Extent,
    inUnit: D -> bool,
    encode: string -> string,
    decode: string -> Option<string>)

  /** Text that can stand between separators, and that the key's `None` cannot be mistaken for. */
  predicate PlainText(s: string) {
    && s != "" && s != "None"
    && forall c <- s :: c != ':' && c != '/' && c != 'x' && c < 128 as char
  }

  /** Showing a float and reading it back gives it; the text is plain. */
  ghost predicate FloatLaws<F(!new), D(!new)>(lib: Library<F, D>) {
    && (forall f :: lib.readF(lib.showF(f)) == Some(f) && PlainText(lib.showF(f)))
    && (forall d :: lib.readD(lib.showD(d)) == Some(d) && PlainText(lib.showD(d)))
    && lib.positive(lib.oneF)
  }

  /** A decimal integer reads as the float that counts as it. */
  ghost predicate IntegerLaws<F, D(!new)>(lib: Library<F, D>) {
    && (forall n: nat :: 1 <= n < TWO_32 ==>
          lib.readD(Decimal(n)).Some? && lib.extent(lib.readD(Decimal(n)).value) == Whole(n))
    && lib.readD("0").Some? && lib.extent(lib.readD("0").value) == Zero
    && (forall d :: lib.extent(d).Whole? ==> 1 <= lib.extent(d).rounded < TWO_32)
  }

  ghost predicate Base64Laws<F, D>(lib: Library<F, D>) {
    forall s :: lib.decode(lib.encode(s)) == Some(s)
             && forall c <- lib.encode(s) :: c != ':' && c != '/' && c != '.'
  }

  ghost predicate Lawful<F(!new), D(!new)>(lib: Library<F, D>) {
    FloatLaws(lib) && IntegerLaws(lib) && Base64Laws(lib)
  }

  // ---------------------------------------------------------------------------------------------
  // Enumerations and their text
  // ---------------------------------------------------------------------------------------------

  datatype ImageFormat = Jpg | Png | Webp | Avif | Gif | AutoFormat

  function ShowFormat(f: ImageFormat): string {
    match f
    case Jpg => "jpg"
    case Png => "png"
    case Webp => "webp"
    case Avif => "avif"
    case Gif => "gif"
    case AutoFormat => "auto"
  }

  function ReadFormat(s: string): Option<ImageFormat> {
    match s
    case "jpg" => Some(Jpg)
    case "jpeg" => Some(Jpg)
    case "png" => Some(Png)
    case "webp" => Some(Webp)
    case "avif" => Some(Avif)
    case "gif" => Some(Gif)
    case "auto" => Some(AutoFormat)
    case _ => None
  }

  datatype ResizeType = Fit | Fill | Force | Auto

  function ShowResizeType(t: ResizeType): string {
    match t
    case Fit => "fit"
    case Fill => "fill"
    case Force => "force"
    case Auto => "auto"
  }

  /** An empty slot is the default. */
  function ReadResizeType(s: string): Option<ResizeType> {
    match s
    case "" => Some(Fit)
    case "fit" => Some(Fit)
    case "fill" => Some(Fill)
    case "force" => Some(Force)
    case "auto" => Some(Auto)
    case _ => None
  }

  /** The nine anchors that gravity and watermark position share. */
  datatype Anchor = Center | North | South | East | West | NorthEast | NorthWest | SouthEast | SouthWest

  function ShowAnchor(a: Anchor): string {
    match a
    case Center => "ce"
    case North => "no"
    case South => "so"
    case East => "ea"
    case West => "we"
    case NorthEast => "noea"
    case NorthWest => "nowe"
    case SouthEast => "soea"
    case SouthWest => "sowe"
  }

  function ReadAnchor(s: string): Option<Anchor> {
    match s
    case "ce" => Some(Center)
    case "no" => Some(North)
    case "so" => Some(South)
    case "ea" => Some(East)
    case "we" => Some(West)
    case "noea" => Some(NorthEast)
    case "nowe" => Some(NorthWest)
    case "soea" => Some(SouthEast)
    case "sowe" => Some(SouthWest)
    case _ => None
  }

  datatype Gravity<D> = Anchored(anchor: Anchor) | FocusPoint(x: D, y: D)

  datatype CropDimension<D> = Full | Absolute(pixels: nat) | Relative(fraction: D)

  datatype Crop<D> = Crop(width: CropDimension<D>, height: CropDimension<D>, gravity: Gravity<D>)

  datatype Rgb = Rgb(r: nat, g: nat, b: nat)

  datatype Padding = Padding(top: nat, right: nat, bottom: nat, left: nat)

  datatype Trim<F> = Trim(threshold: F, color: Option<Rgb>, equalHor: bool, equalVer: bool)

  /** Every enumeration's text reads back as the value. */
  lemma EnumerationsReadBack(f: ImageFormat, t: ResizeType, a: Anchor)
    ensures ReadFormat(ShowFormat(f)) == Some(f)
    ensures ReadResizeType(ShowResizeType(t)) == Some(t)
    ensures ReadAnchor(ShowAnchor(a)) == Some(a)
  {
  }

  /** Exactly which texts name a format, a resize type and an anchor: `jpeg` and the empty type are the extra ones. */
  lemma EnumerationTexts(s: string)
    ensures ReadFormat(s) == Some(Jpg) <==> s == "jpg" || s == "jpeg"
    ensures ReadFormat(s) == Some(Png) <==> s == "png"
    ensures ReadFormat(s) == Some(Webp) <==> s == "webp"
    ensures ReadFormat(s) == Some(Avif) <==> s == "avif"
    ensures ReadFormat(s) == Some(Gif) <==> s == "gif"
    ensures ReadFormat(s) == Some(AutoFormat) <==> s == "auto"
    ensures ReadResizeType(s) == Some(Fit) <==> s == "" || s == "fit"
    ensures ReadResizeType(s) == Some(Fill) <==> s == "fill"
    ensures ReadResizeType(s) == Some(Force) <==> s == "force"
    ensures ReadResizeType(s) == Some(Auto) <==> s == "auto"
    ensures ShowFormat(Jpg) == "jpg" && ShowResizeType(Fit) == "fit"
  {
  }

  lemma AnchorTexts(s: string)
    ensures ReadAnchor(s) == Some(Center) <==> s == "ce"
    ensures ReadAnchor(s) == Some(North) <==> s == "no"
    ensures ReadAnchor(s) == Some(South) <==> s == "so"
    ensures ReadAnchor(s) == Some(East) <==> s == "ea"
    ensures ReadAnchor(s) == Some(West) <==> s == "we"
    ensures ReadAnchor(s) == Some(NorthEast) <==> s == "noea"
    ensures ReadAnchor(s) == Some(NorthWest) <==> s == "nowe"
    ensures ReadAnchor(s) == Some(SouthEast) <==> s == "soea"
    ensures ReadAnchor(s) == Some(SouthWest) <==> s == "sowe"
  {
  }

  // ---------------------------------------------------------------------------------------------
  // The resize query
  // ---------------------------------------------------------------------------------------------

  datatype Watermark<F> = Watermark(
    opacity: F,
    position: Anchor,
    xOffset: F,
    yOffset: F,
    scale: F,
    url: Option<string>,
    size: Option<(nat, nat)>,
    rotate: F,
    shadow: Option<F>)

  datatype Query<F, D> = Query(
    url: string,
    width: Option<nat>,
    height: Option<nat>,
    resizeType: ResizeType,
    format: ImageFormat,
    blurSigma: Option<F>,
    grayscale: Option<bool>,
    enlarge: bool,
    quality: Option<nat>,
    jpegQuality: Option<nat>,
    webpQuality: Option<nat>,
    webpLossless: Option<bool>,
    jpegProgressive: Option<bool>,
    jpegNoSubsampling: Option<bool>,
    maxBytes: Option<nat>,
    background: Option<Rgb>,
    autorotate: bool,
    stripMetadata: bool,
    crop: Option<Crop<D>>,
    gravity: Gravity<D>,
    rotate: int,
    flipHorizontal: bool,
    flipVertical: bool,
    trim: Option<Trim<F>>,
    extend: bool,
    padding: Option<Padding>,
    zoomX: F,
    zoomY: F,
    dpr: F,
    minWidth: Option<nat>,
    minHeight: Option<nat>,
    watermark: Option<Watermark<F>>)
}

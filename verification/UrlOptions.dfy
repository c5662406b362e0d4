/**
 The processing-option grammar of the signed URL: what each `code:arg:..` segment means, and the fold of the
 segments into the options.
 */
module UrlOptions {
  import opened Common
  import opened Text
  import opened Params

  /** The options of a request; see `DefaultOptions` for what an empty segment list gives. */
  datatype Options<F, D> = Options(
    width: Option<nat>,
    height: Option<nat>,
    resizeType: ResizeType,
    blurSigma: Option<F>,
    grayscale: Option<bool>,
    enlarge: Option<bool>,
    quality: Option<nat>,
    jpegQuality: Option<nat>,
    webpQuality: Option<nat>,
    webpLossless: Option<bool>,
    jpegProgressive: Option<bool>,
    jpegNoSubsampling: Option<bool>,
    maxBytes: Option<nat>,
    background: Option<Rgb>,
    autorotate: Option<bool>,
    stripMetadata: Option<bool>,
    crop: Option<Crop<D>>,
    gravity: Gravity<D>,
    rotate: int,
    flipHorizontal: bool,
    flipVertical: bool,
    trim: Option<Trim<F>>,
    extend: Option<bool>,
    padding: Option<Padding>,
    zoomX: F,
    zoomY: F,
    dpr: F,
    minWidth: Option<nat>,
    minHeight: Option<nat>,
    watermarkOpacity: Option<F>,
    watermarkPosition: Anchor,
    watermarkX: F,
    watermarkY: F,
    watermarkScale: F,
    watermarkUrl: Option<string>,
    watermarkSize: Option<(nat, nat)>,
    watermarkRotate: F,
    watermarkShadow: Option<F>)

  function DefaultOptions<F, D>(lib: Library<F, D>): Options<F, D> {
    Options(None, None, Fit, None, None, None, None, None, None, None, None, None, None, None, None, None,
            None, Anchored(Center), 0, false, false, None, None, None, lib.oneF, lib.oneF, lib.oneF, None, None,
            None, Center, lib.zeroF, lib.zeroF, lib.zeroF, None, None, lib.zeroF, None)
  }

  datatype ParseError = UnknownOption(code: string) | InvalidOptionValue(option: string)

  /** The 28 option codes. */
  datatype Code =
    | RS | Q | FQ | WEBPO | JPGO | MB | BL | G | EL | BG | AR | SM | C | GR | ROT | FL | T | EX | PD | Z
    | DPR | MW | MH | WM | WMU | WMS | WMR | WMSH

  function CodeText(c: Code): string {
    match c
    case RS => "rs"
    case Q => "q"
    case FQ => "fq"
    case WEBPO => "webpo"
    case JPGO => "jpgo"
    case MB => "mb"
    case BL => "bl"
    case G => "g"
    case EL => "el"
    case BG => "bg"
    case AR => "ar"
    case SM => "sm"
    case C => "c"
    case GR => "gr"
    case ROT => "rot"
    case FL => "fl"
    case T => "t"
    case EX => "ex"
    case PD => "pd"
    case Z => "z"
    case DPR => "dpr"
    case MW => "mw"
    case MH => "mh"
    case WM => "wm"
    case WMU => "wmu"
    case WMS => "wms"
    case WMR => "wmr"
    case WMSH => "wmsh"
  }

  function ReadCode(s: string): Option<Code> {
    match s
    case "rs" => Some(RS)
    case "q" => Some(Q)
    case "fq" => Some(FQ)
    case "webpo" => Some(WEBPO)
    case "jpgo" => Some(JPGO)
    case "mb" => Some(MB)
    case "bl" => Some(BL)
    case "g" => Some(G)
    case "el" => Some(EL)
    case "bg" => Some(BG)
    case "ar" => Some(AR)
    case "sm" => Some(SM)
    case "c" => Some(C)
    case "gr" => Some(GR)
    case "rot" => Some(ROT)
    case "fl" => Some(FL)
    case "t" => Some(T)
    case "ex" => Some(EX)
    case "pd" => Some(PD)
    case "z" => Some(Z)
    case "dpr" => Some(DPR)
    case "mw" => Some(MW)
    case "mh" => Some(MH)
    case "wm" => Some(WM)
    case "wmu" => Some(WMU)
    case "wms" => Some(WMS)
    case "wmr" => Some(WMR)
    case "wmsh" => Some(WMSH)
    case _ => None
  }

  /** A crop as the segment gives it: its gravity may be left to the `gr` option. */
  datatype RawCrop<D> = RawCrop(width: CropDimension<D>, height: CropDimension<D>, gravity: Option<Gravity<D>>)

  /** What one well-formed segment assigns. An absent optional slot leaves its field as it is. */
  datatype Update<F, D> =
    | SetResize(kind: ResizeType, width: Option<nat>, height: Option<nat>)
    | SetQuality(quality: nat)
    | SetFormatQuality(jpeg: Option<nat>, webp: Option<nat>)
    | SetWebpLossless(lossless: bool)
    | SetJpeg(progressive: Option<bool>, noSubsampling: Option<bool>)
    | SetMaxBytes(bytes: Option<nat>)
    | SetBlur(sigma: F)
    | SetGrayscale(on: bool)
    | SetEnlarge(on: bool)
    | SetBackground(color: Rgb)
    | SetAutorotate(on: bool)
    | SetStripMetadata(on: bool)
    | SetCrop(raw: RawCrop<D>)
    | SetGravity(gravity: Gravity<D>)
    | SetRotate(angle: int)
    | SetFlip(horizontal: Option<bool>, vertical: Option<bool>)
    | SetTrim(trim: Trim<F>)
    | SetExtend(on: bool)
    | SetPadding(padding: Padding)
    | SetZoom(x: F, y: F)
    | SetDpr(dpr: F)
    | SetMinWidth(width: Option<nat>)
    | SetMinHeight(height: Option<nat>)
    | SetWatermark(opacity: F, position: Option<Anchor>, xOffset: Option<F>, yOffset: Option<F>, scale: Option<F>)
    | SetWatermarkUrl(url: string)
    | SetWatermarkSize(size: (nat, nat))
    | SetWatermarkRotate(degrees: F)
    | SetWatermarkShadow(sigma: F)
  {
    function Code(): Code {
      match this
      case SetResize(_, _, _) => RS
      case SetQuality(_) => Q
      case SetFormatQuality(_, _) => FQ
      case SetWebpLossless(_) => WEBPO
      case SetJpeg(_, _) => JPGO
      case SetMaxBytes(_) => MB
      case SetBlur(_) => BL
      case SetGrayscale(_) => G
      case SetEnlarge(_) => EL
      case SetBackground(_) => BG
      case SetAutorotate(_) => AR
      case SetStripMetadata(_) => SM
      case SetCrop(_) => C
      case SetGravity(_) => GR
      case SetRotate(_) => ROT
      case SetFlip(_, _) => FL
      case SetTrim(_) => T
      case SetExtend(_) => EX
      case SetPadding(_) => PD
      case SetZoom(_, _) => Z
      case SetDpr(_) => DPR
      case SetMinWidth(_) => MW
      case SetMinHeight(_) => MH
      case SetWatermark(_, _, _, _, _) => WM
      case SetWatermarkUrl(_) => WMU
      case SetWatermarkSize(_) => WMS
      case SetWatermarkRotate(_) => WMR
      case SetWatermarkShadow(_) => WMSH
    }
  }

  /** The options so far, with the crop whose gravity is resolved after the last segment. */
  datatype Progress<F, D> = Progress(opts: Options<F, D>, cropRaw: Option<RawCrop<D>>)

  // ---------------------------------------------------------------------------------------------
  // The helper parsers
  // ---------------------------------------------------------------------------------------------

  function ParseU8(s: string): Option<nat> {
    ParseUnsigned(s, 10, 256)
  }

  function ParseU32(s: string): Option<nat> {
    ParseUnsigned(s, 10, TWO_32)
  }

  /** 0 means "not set". */
  function ParseDimension(s: string): Option<Option<nat>> {
    var n :- ParseU32(s);
    Some(if n == 0 then None else Some(n))
  }

  function ParseBounded(s: string, max: nat): Option<nat> {
    var n :- ParseU8(s);
    if n > max then None else Some(n)
  }

  function ParseBool(s: string): Option<bool> {
    match s
    case "true" => Some(true)
    case "1" => Some(true)
    case "false" => Some(false)
    case "0" => Some(false)
    case _ => None
  }

  /** `parse::<i32>`. */
  function ParseI32(s: string): Option<int> {
    if |s| > 0 && s[0] == '-' then
      var digits := s[1..];
      if digits == "" then None
      else
        var n: int :- Value(digits, 10);
        if n <= 0x8000_0000 then Some(-n) else None
    else ParseUnsigned(s, 10, 0x8000_0000)
  }

  function ParseRotateAngle(s: string): Option<int> {
    var angle :- ParseI32(s);
    if angle % 90 != 0 then None else Some(angle % 360)
  }

  /** A blank or missing positional slot is absent. */
  function Slot(args: seq<string>, i: nat): Option<string> {
    if i < |args| && args[i] != "" then Some(args[i]) else None
  }

  /** The value of an optional slot, with a refusal when it is there and does not parse. */
  function Optional<X>(slot: Option<string>, parse: string -> Option<X>): Option<Option<X>> {
    if slot.None? then Some(None)
    else
      var x :- parse(slot.value);
      Some(Some(x))
  }

  function ParseHexColor(hex: string): Option<Rgb> {
    if exists c <- hex :: DigitValue(c, 16).None? then None
    else if |hex| == 3 then
      var r :- DigitValue(hex[0], 16);
      var g :- DigitValue(hex[1], 16);
      var b :- DigitValue(hex[2], 16);
      Some(Rgb(r * 16 + r, g * 16 + g, b * 16 + b))
    else if |hex| == 6 then
      var r :- ParseUnsigned(hex[0..2], 16, 256);
      var g :- ParseUnsigned(hex[2..4], 16, 256);
      var b :- ParseUnsigned(hex[4..6], 16, 256);
      Some(Rgb(r, g, b))
    else None
  }

  function ParseBackground(args: seq<string>): Option<Rgb> {
    if |args| == 3 then
      var r :- ParseBounded(args[0], 255);
      var g :- ParseBounded(args[1], 255);
      var b :- ParseBounded(args[2], 255);
      Some(Rgb(r, g, b))
    else if |args| == 1 then ParseHexColor(args[0])
    else None
  }

  function ParseCropDimension<F, D>(lib: Library<F, D>, s: string): Option<CropDimension<D>> {
    var value :- lib.readD(s);
    match lib.extent(value)
    case Refused => None
    case Zero => Some(Full)
    case Fraction => Some(Relative(value))
    case Whole(rounded) => Some(Absolute(rounded))
  }

  function ParseGravity<F, D>(lib: Library<F, D>, tokens: seq<string>): Option<Gravity<D>> {
    if |tokens| == 1 then
      var anchor :- ReadAnchor(tokens[0]);
      Some(Anchored(anchor))
    else if |tokens| == 3 && tokens[0] == "fp" then
      var x :- lib.readD(tokens[1]);
      var y :- lib.readD(tokens[2]);
      if !lib.inUnit(x) || !lib.inUnit(y) then None else Some(FocusPoint(x, y))
    else None
  }

  function ParsePositive<F, D>(lib: Library<F, D>, s: string): Option<F> {
    var f :- lib.readF(s);
    if lib.positive(f) then Some(f) else None
  }

  function ParseZoom<F, D>(lib: Library<F, D>, args: seq<string>): Option<(F, F)> {
    if |args| == 1 then
      var z :- ParsePositive(lib, args[0]);
      Some((z, z))
    else if |args| == 2 then
      var x :- ParsePositive(lib, args[0]);
      var y :- ParsePositive(lib, args[1]);
      Some((x, y))
    else None
  }

  /** The cascade: right and bottom fall back to top, left to the resolved right. */
  function ParsePadding(args: seq<string>): Option<Padding> {
    if args == [] || |args| > 4 then None
    else
      var top :- Optional(Slot(args, 0), ParseU32);
      if top.None? then None
      else
        var right :- Optional(Slot(args, 1), ParseU32);
        var bottom :- Optional(Slot(args, 2), ParseU32);
        var left :- Optional(Slot(args, 3), ParseU32);
        var r := UnwrapOr(right, top.value);
        Some(Padding(top.value, r, UnwrapOr(bottom, top.value), UnwrapOr(left, r)))
  }

  function ParseTrim<F, D>(lib: Library<F, D>, args: seq<string>): Option<Trim<F>> {
    if args == [] || |args| > 4 || args[0] == "" then None
    else
      var threshold :- lib.readF(args[0]);
      if lib.negative(threshold) then None
      else
        var color :- Optional(Slot(args, 1), ParseHexColor);
        var hor :- Optional(Slot(args, 2), ParseBool);
        var ver :- Optional(Slot(args, 3), ParseBool);
        Some(Trim(threshold, color, UnwrapOr(hor, false), UnwrapOr(ver, false)))
  }

  /** `fq` pairs in order, a later pair for the same format replacing an earlier one. */
  function ParseFormatQuality<F, D>(args: seq<string>): Option<Update<F, D>>
    ensures var u := ParseFormatQuality<F, D>(args); u.Some? ==> u.value.SetFormatQuality?
    decreases |args|
  {
    if |args| < 2 then (if args == [] then Some(SetFormatQuality(None, None)) else None)
    else
      var n := |args|;
      var before :- ParseFormatQuality(args[..n - 2]);
      var quality :- ParseBounded(args[n - 1], 100);
      if args[n - 2] == "jpg" || args[n - 2] == "jpeg" then Some(before.(jpeg := Some(quality)))
      else if args[n - 2] == "webp" then Some(before.(webp := Some(quality)))
      else None
  }

  function ParseWatermark<F, D>(lib: Library<F, D>, args: seq<string>): Option<Update<F, D>> {
    if args == [] || |args| > 5 then None
    else
      var opacity :- lib.readF(args[0]);
      var position :- Optional(Slot(args, 1), ReadAnchor);
      var x :- Optional(Slot(args, 2), lib.readF);
      var y :- Optional(Slot(args, 3), lib.readF);
      var scale :- Optional(Slot(args, 4), lib.readF);
      Some(SetWatermark(opacity, position, x, y, scale))
  }

  function ParseCrop<F, D>(lib: Library<F, D>, args: seq<string>): Option<Update<F, D>> {
    if |args| < 2 then None
    else
      var width :- ParseCropDimension(lib, args[0]);
      var height :- ParseCropDimension(lib, args[1]);
      if |args| == 2 then Some(SetCrop(RawCrop(width, height, None)))
      else
        var gravity :- ParseGravity(lib, args[2..]);
        Some(SetCrop(RawCrop(width, height, Some(gravity))))
  }

  function ParseResize<F, D>(args: seq<string>): Option<Update<F, D>> {
    if |args| != 3 then None
    else
      var kind :- ReadResizeType(args[0]);
      var width :- ParseDimension(args[1]);
      var height :- ParseDimension(args[2]);
      Some(SetResize(kind, width, height))
  }

  function ParseWebp(s: string): Option<bool> {
    match s
    case "lossy" => Some(false)
    case "lossless" => Some(true)
    case _ => None
  }

  function ParseMaxBytes(s: string): Option<Option<nat>> {
    var n :- ParseUnsigned(s, 10, TWO_64);
    Some(if n == 0 then None else Some(n))
  }

  function DecodeJpeg<F, D>(args: seq<string>): Option<Update<F, D>> {
    if args == [] || |args| > 2 then None
    else
      var progressive :- Optional(Slot(args, 0), ParseBool);
      var noSubsampling :- Optional(Slot(args, 1), ParseBool);
      Some(SetJpeg(progressive, noSubsampling))
  }

  function DecodeFlip<F, D>(args: seq<string>): Option<Update<F, D>> {
    if |args| > 2 then None
    else
      var horizontal :- Optional(Slot(args, 0), ParseBool);
      var vertical :- Optional(Slot(args, 1), ParseBool);
      Some(SetFlip(horizontal, vertical))
  }

  function DecodeSize<F, D>(args: seq<string>): Option<Update<F, D>> {
    if |args| != 2 then None
    else
      var width :- ParseU32(args[0]);
      var height :- ParseU32(args[1]);
      Some(SetWatermarkSize((width, height)))
  }

  /** A parsed value as the update it makes. */
  function Then<X, F, D>(parsed: Option<X>, update: X -> Update<F, D>): Option<Update<F, D>> {
    if parsed.None? then None else Some(update(parsed.value))
  }

  /** The codes that take exactly one argument. */
  function DecodeSingle<F, D>(lib: Library<F, D>, code: Code, arg: string): Option<Update<F, D>> {
    match code
    case Q => Then(ParseBounded(arg, 100), n => SetQuality(n))
    case WEBPO => Then(ParseWebp(arg), b => SetWebpLossless(b))
    case MB => Then(ParseMaxBytes(arg), n => SetMaxBytes(n))
    case BL => Then(lib.readF(arg), f => SetBlur(f))
    case G => Then(ParseBool(arg), b => SetGrayscale(b))
    case EL => Then(ParseBool(arg), b => SetEnlarge(b))
    case AR => Then(ParseBool(arg), b => SetAutorotate(b))
    case SM => Then(ParseBool(arg), b => SetStripMetadata(b))
    case ROT => Then(ParseRotateAngle(arg), a => SetRotate(a))
    case EX => Then(ParseBool(arg), b => SetExtend(b))
    case DPR => Then(ParsePositive(lib, arg), f => SetDpr(f))
    case MW => Then(ParseDimension(arg), n => SetMinWidth(n))
    case MH => Then(ParseDimension(arg), n => SetMinHeight(n))
    case WMU => Then(lib.decode(arg), url => SetWatermarkUrl(url))
    case WMR => Then(lib.readF(arg), f => SetWatermarkRotate(f))
    case WMSH => Then(lib.readF(arg), f => SetWatermarkShadow(f))
    case _ => None
  }

  /** What the argument list of a recognised code means. */
  function DecodeArgs<F, D>(lib: Library<F, D>, code: Code, args: seq<string>): Option<Update<F, D>> {
    match code
    case RS => ParseResize(args)
    case FQ => if args == [] || |args| % 2 != 0 then None else ParseFormatQuality(args)
    case JPGO => DecodeJpeg(args)
    case BG => Then(ParseBackground(args), c => SetBackground(c))
    case C => ParseCrop(lib, args)
    case GR => Then(ParseGravity(lib, args), g => SetGravity(g))
    case FL => DecodeFlip(args)
    case T => Then(ParseTrim(lib, args), t => SetTrim(t))
    case PD => Then(ParsePadding(args), p => SetPadding(p))
    case Z => Then(ParseZoom(lib, args), (z: (F, F)) => SetZoom(z.0, z.1))
    case WM => ParseWatermark(lib, args)
    case WMS => DecodeSize(args)
    case _ => if |args| != 1 then None else DecodeSingle(lib, code, args[0])
  }

  /** The code of a segment: its text before the first colon. */
  function CodeOf(segment: string): string {
    Split(segment, ':')[0]
  }

  function Decode<F, D>(lib: Library<F, D>, segment: string): Result<Update<F, D>, ParseError> {
    match ReadCode(CodeOf(segment))
    case None => Err(UnknownOption(CodeOf(segment)))
    case Some(code) =>
      match DecodeArgs(lib, code, Split(segment, ':')[1..])
      case None => Err(InvalidOptionValue(segment))
      case Some(u) => Ok(u)
  }

  // ---------------------------------------------------------------------------------------------
  // The fold
  // ---------------------------------------------------------------------------------------------

  function Assign<F, D>(u: Update<F, D>, p: Progress<F, D>): Progress<F, D> {
    Progress(AssignOptions(u, p.opts), if u.SetCrop? then Some(u.raw) else p.cropRaw)
  }

  function AssignOptions<F, D>(u: Update<F, D>, o: Options<F, D>): Options<F, D> {
    match u
    case SetResize(kind, width, height) => o.(resizeType := kind, width := width, height := height)
    case SetQuality(quality) => o.(quality := Some(quality))
    case SetFormatQuality(jpeg, webp) =>
      o.(jpegQuality := if jpeg.Some? then jpeg else o.jpegQuality,
         webpQuality := if webp.Some? then webp else o.webpQuality)
    case SetWebpLossless(lossless) => o.(webpLossless := Some(lossless))
    case SetJpeg(progressive, noSubsampling) =>
      o.(jpegProgressive := if progressive.Some? then progressive else o.jpegProgressive,
         jpegNoSubsampling := if noSubsampling.Some? then noSubsampling else o.jpegNoSubsampling)
    case SetMaxBytes(bytes) => o.(maxBytes := bytes)
    case SetBlur(sigma) => o.(blurSigma := Some(sigma))
    case SetGrayscale(on) => o.(grayscale := Some(on))
    case SetEnlarge(on) => o.(enlarge := Some(on))
    case SetBackground(color) => o.(background := Some(color))
    case SetAutorotate(on) => o.(autorotate := Some(on))
    case SetStripMetadata(on) => o.(stripMetadata := Some(on))
    case SetCrop(_) => o
    case SetGravity(gravity) => o.(gravity := gravity)
    case SetRotate(angle) => o.(rotate := angle)
    case SetFlip(horizontal, vertical) =>
      o.(flipHorizontal := UnwrapOr(horizontal, o.flipHorizontal),
         flipVertical := UnwrapOr(vertical, o.flipVertical))
    case SetTrim(trim) => o.(trim := Some(trim))
    case SetExtend(on) => o.(extend := Some(on))
    case SetPadding(padding) => o.(padding := Some(padding))
    case SetZoom(x, y) => o.(zoomX := x, zoomY := y)
    case SetDpr(dpr) => o.(dpr := dpr)
    case SetMinWidth(width) => o.(minWidth := width)
    case SetMinHeight(height) => o.(minHeight := height)
    case SetWatermark(opacity, position, x, y, scale) =>
      o.(watermarkOpacity := Some(opacity),
         watermarkPosition := UnwrapOr(position, o.watermarkPosition),
         watermarkX := UnwrapOr(x, o.watermarkX),
         watermarkY := UnwrapOr(y, o.watermarkY),
         watermarkScale := UnwrapOr(scale, o.watermarkScale))
    case SetWatermarkUrl(url) => o.(watermarkUrl := Some(url))
    case SetWatermarkSize(size) => o.(watermarkSize := Some(size))
    case SetWatermarkRotate(degrees) => o.(watermarkRotate := degrees)
    case SetWatermarkShadow(sigma) => o.(watermarkShadow := Some(sigma))
  }

  function AssignAll<F, D>(us: seq<Update<F, D>>, p: Progress<F, D>): Progress<F, D>
    decreases |us|
  {
    if us == [] then p else AssignAll(us[1..], Assign(us[0], p))
  }

  /** All segments decoded, or the error of the first that does not decode. */
  function DecodeAll<F, D>(lib: Library<F, D>, segments: seq<string>): Result<seq<Update<F, D>>, ParseError>
    decreases |segments|
  {
    if segments == [] then Ok([])
    else
      var u :- Decode(lib, segments[0]);
      var others :- DecodeAll(lib, segments[1..]);
      Ok([u] + others)
  }

  /** The crop's own gravity if it named one, the final `gr` gravity otherwise. */
  function ResolveCrop<F, D>(p: Progress<F, D>): Options<F, D> {
    p.opts.(crop :=
      match p.cropRaw
      case None => None
      case Some(raw) => Some(Crop(raw.width, raw.height, UnwrapOr(raw.gravity, p.opts.gravity))))
  }

  function Start<F, D>(lib: Library<F, D>): Progress<F, D> {
    Progress(DefaultOptions(lib), None)
  }

  function ParseOptions<F, D>(lib: Library<F, D>, segments: seq<string>): Result<Options<F, D>, ParseError> {
    var us :- DecodeAll(lib, segments);
    Ok(ResolveCrop(AssignAll(us, Start(lib))))
  }

  /** `ProcessingOptions::parse`: the loop over the segments, then the resolution of the crop. */
  method Parse<F, D>(lib: Library<F, D>, segments: seq<string>) returns (r: Result<Options<F, D>, ParseError>)
    ensures r == ParseOptions(lib, segments)
  {
    hide Decode, Assign;
    var opts := DefaultOptions(lib);
    var cropRaw: Option<RawCrop<D>> := None;
    ghost var decoded: seq<Update<F, D>> := [];
    PrefixedNothing(DecodeAll(lib, segments));
    assert segments[0..] == segments;
    for i := 0 to |segments|
      invariant DecodeAll(lib, segments) == Prefixed(decoded, DecodeAll(lib, segments[i..]))
      invariant Progress(opts, cropRaw) == AssignAll(decoded, Start(lib))
    {
      var update := Decode(lib, segments[i]);
      assert segments[i..][1..] == segments[i + 1..];
      if update.Err? {
        return Err(update.error);
      }
      var next := Assign(update.value, Progress(opts, cropRaw));
      opts, cropRaw := next.opts, next.cropRaw;
      AssignSnoc(decoded, update.value, Start(lib));
      PrefixedSnoc(decoded, update.value, DecodeAll(lib, segments[i + 1..]));
      decoded := decoded + [update.value];
    }
    assert segments[|segments|..] == [] && decoded + [] == decoded;
    r := Ok(ResolveCrop(Progress(opts, cropRaw)));
  }

  function Prefixed<X, E>(prefix: seq<X>, r: Result<seq<X>, E>): Result<seq<X>, E> {
    if r.Err? then r else Ok(prefix + r.value)
  }

  lemma PrefixedSnoc<X, E>(prefix: seq<X>, x: X, r: Result<seq<X>, E>)
    ensures Prefixed(prefix, Prefixed([x], r)) == Prefixed(prefix + [x], r)
  {
    if r.Ok? {
      ConcatAssociative(prefix, [x], r.value);
    }
  }

  lemma PrefixedNothing<X, E>(r: Result<seq<X>, E>)
    ensures Prefixed([], r) == r
  {
    if r.Ok? {
      assert [] + r.value == r.value;
    }
  }

  lemma {:induction false} AssignSnoc<F, D>(us: seq<Update<F, D>>, u: Update<F, D>, p: Progress<F, D>)
    ensures AssignAll(us + [u], p) == Assign(u, AssignAll(us, p))
    decreases |us|
  {
    hide Assign;
    var all := us + [u];
    if us == [] {
      assert all[1..] == [] && all[0] == u;
    } else {
      assert all[1..] == us[1..] + [u] && all[0] == us[0];
      AssignSnoc(us[1..], u, Assign(us[0], p));
    }
  }
}

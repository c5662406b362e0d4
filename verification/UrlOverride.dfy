/**
 Which segment decides a field. Every field of the parsed options holds what the last segment that sets the
 field gave, and its default if none does. A segment of `fq`, `jpgo`, `fl` or `wm` sets only the fields whose
 slots it fills, so it leaves the others to earlier segments.
 */
module UrlOverride {
  import opened Common
  import opened Text
  import opened Params
  import opened UrlOptions
  import opened UrlOrder

  /** The fields that segments set. */
  datatype Field =
    | Kind | Width | Height | Quality | JpegQuality | WebpQuality | WebpLossless | Progressive | NoSubsampling
    | MaxBytes
    | Blur | Grayscale | Enlarge | Background | Autorotate | StripMetadata | CropField | GravityField | RotateField
    | FlipHorizontal | FlipVertical | TrimField | ExtendField | PaddingField | ZoomX | ZoomY | DprField | MinWidth
    | MinHeight | Opacity | Position | OffsetX | OffsetY | Scale | MarkUrl | MarkSize | MarkRotate | MarkShadow

  /** A value of any of them. */
  datatype Value<F, D> =
    | OfKind(kind: ResizeType)
    | OfNumber(n: Option<nat>)
    | OfSwitch(on: Option<bool>)
    | OfFlag(flag: bool)
    | OfFloat(f: F)
    | OfOptionalFloat(o: Option<F>)
    | OfColor(color: Option<Rgb>)
    | OfCrop(raw: Option<RawCrop<D>>)
    | OfGravity(gravity: Gravity<D>)
    | OfAngle(angle: int)
    | OfTrim(trim: Option<Trim<F>>)
    | OfPadding(padding: Option<Padding>)
    | OfAnchor(anchor: Anchor)
    | OfUrl(url: Option<string>)
    | OfSize(size: Option<(nat, nat)>)

  /** What the options hold in a field. */
  function Get<F, D>(p: Progress<F, D>, field: Field): Value<F, D> {
    var o := p.opts;
    match field
    case Kind => OfKind(o.resizeType)
    case Width => OfNumber(o.width)
    case Height => OfNumber(o.height)
    case Quality => OfNumber(o.quality)
    case JpegQuality => OfNumber(o.jpegQuality)
    case WebpQuality => OfNumber(o.webpQuality)
    case WebpLossless => OfSwitch(o.webpLossless)
    case Progressive => OfSwitch(o.jpegProgressive)
    case NoSubsampling => OfSwitch(o.jpegNoSubsampling)
    case MaxBytes => OfNumber(o.maxBytes)
    case Blur => OfOptionalFloat(o.blurSigma)
    case Grayscale => OfSwitch(o.grayscale)
    case Enlarge => OfSwitch(o.enlarge)
    case Background => OfColor(o.background)
    case Autorotate => OfSwitch(o.autorotate)
    case StripMetadata => OfSwitch(o.stripMetadata)
    case CropField => OfCrop(p.cropRaw)
    case GravityField => OfGravity(o.gravity)
    case RotateField => OfAngle(o.rotate)
    case FlipHorizontal => OfFlag(o.flipHorizontal)
    case FlipVertical => OfFlag(o.flipVertical)
    case TrimField => OfTrim(o.trim)
    case ExtendField => OfSwitch(o.extend)
    case PaddingField => OfPadding(o.padding)
    case ZoomX => OfFloat(o.zoomX)
    case ZoomY => OfFloat(o.zoomY)
    case DprField => OfFloat(o.dpr)
    case MinWidth => OfNumber(o.minWidth)
    case MinHeight => OfNumber(o.minHeight)
    case Opacity => OfOptionalFloat(o.watermarkOpacity)
    case Position => OfAnchor(o.watermarkPosition)
    case OffsetX => OfFloat(o.watermarkX)
    case OffsetY => OfFloat(o.watermarkY)
    case Scale => OfFloat(o.watermarkScale)
    case MarkUrl => OfUrl(o.watermarkUrl)
    case MarkSize => OfSize(o.watermarkSize)
    case MarkRotate => OfFloat(o.watermarkRotate)
    case MarkShadow => OfOptionalFloat(o.watermarkShadow)
  }

  /** The value of a field that nothing sets. */
  function Default<F, D>(lib: Library<F, D>, field: Field): Value<F, D> {
    match field
    case Kind => OfKind(Fit)
    case Width | Height | Quality | JpegQuality | WebpQuality | MaxBytes | MinWidth | MinHeight => OfNumber(None)
    case WebpLossless | Progressive | NoSubsampling | Grayscale | Enlarge | Autorotate | StripMetadata | ExtendField =>
      OfSwitch(None)
    case Blur | Opacity | MarkShadow => OfOptionalFloat(None)
    case Background => OfColor(None)
    case CropField => OfCrop(None)
    case GravityField => OfGravity(Anchored(Center))
    case RotateField => OfAngle(0)
    case FlipHorizontal | FlipVertical => OfFlag(false)
    case TrimField => OfTrim(None)
    case PaddingField => OfPadding(None)
    case ZoomX | ZoomY | DprField => OfFloat(lib.oneF)
    case Position => OfAnchor(Center)
    case OffsetX | OffsetY | Scale | MarkRotate => OfFloat(lib.zeroF)
    case MarkUrl => OfUrl(None)
    case MarkSize => OfSize(None)
  }

  /** What one decoded segment sets a field to, if it sets it. */
  function Sets<F, D>(u: Update<F, D>, field: Field): Option<Value<F, D>> {
    match field
    case Kind => if u.SetResize? then Some(OfKind(u.kind)) else None
    case Width => if u.SetResize? then Some(OfNumber(u.width)) else None
    case Height => if u.SetResize? then Some(OfNumber(u.height)) else None
    case Quality => if u.SetQuality? then Some(OfNumber(Some(u.quality))) else None
    case JpegQuality => if u.SetFormatQuality? && u.jpeg.Some? then Some(OfNumber(u.jpeg)) else None
    case WebpQuality => if u.SetFormatQuality? && u.webp.Some? then Some(OfNumber(u.webp)) else None
    case WebpLossless => if u.SetWebpLossless? then Some(OfSwitch(Some(u.lossless))) else None
    case Progressive => if u.SetJpeg? && u.progressive.Some? then Some(OfSwitch(u.progressive)) else None
    case NoSubsampling => if u.SetJpeg? && u.noSubsampling.Some? then Some(OfSwitch(u.noSubsampling)) else None
    case MaxBytes => if u.SetMaxBytes? then Some(OfNumber(u.bytes)) else None
    case Blur => if u.SetBlur? then Some(OfOptionalFloat(Some(u.sigma))) else None
    case Grayscale => if u.SetGrayscale? then Some(OfSwitch(Some(u.on))) else None
    case Enlarge => if u.SetEnlarge? then Some(OfSwitch(Some(u.on))) else None
    case Background => if u.SetBackground? then Some(OfColor(Some(u.color))) else None
    case Autorotate => if u.SetAutorotate? then Some(OfSwitch(Some(u.on))) else None
    case StripMetadata => if u.SetStripMetadata? then Some(OfSwitch(Some(u.on))) else None
    case CropField => if u.SetCrop? then Some(OfCrop(Some(u.raw))) else None
    case GravityField => if u.SetGravity? then Some(OfGravity(u.gravity)) else None
    case RotateField => if u.SetRotate? then Some(OfAngle(u.angle)) else None
    case FlipHorizontal => if u.SetFlip? && u.horizontal.Some? then Some(OfFlag(u.horizontal.value)) else None
    case FlipVertical => if u.SetFlip? && u.vertical.Some? then Some(OfFlag(u.vertical.value)) else None
    case TrimField => if u.SetTrim? then Some(OfTrim(Some(u.trim))) else None
    case ExtendField => if u.SetExtend? then Some(OfSwitch(Some(u.on))) else None
    case PaddingField => if u.SetPadding? then Some(OfPadding(Some(u.padding))) else None
    case ZoomX => if u.SetZoom? then Some(OfFloat(u.x)) else None
    case ZoomY => if u.SetZoom? then Some(OfFloat(u.y)) else None
    case DprField => if u.SetDpr? then Some(OfFloat(u.dpr)) else None
    case MinWidth => if u.SetMinWidth? then Some(OfNumber(u.width)) else None
    case MinHeight => if u.SetMinHeight? then Some(OfNumber(u.height)) else None
    case Opacity => if u.SetWatermark? then Some(OfOptionalFloat(Some(u.opacity))) else None
    case Position => if u.SetWatermark? && u.position.Some? then Some(OfAnchor(u.position.value)) else None
    case OffsetX => if u.SetWatermark? && u.xOffset.Some? then Some(OfFloat(u.xOffset.value)) else None
    case OffsetY => if u.SetWatermark? && u.yOffset.Some? then Some(OfFloat(u.yOffset.value)) else None
    case Scale => if u.SetWatermark? && u.scale.Some? then Some(OfFloat(u.scale.value)) else None
    case MarkUrl => if u.SetWatermarkUrl? then Some(OfUrl(Some(u.url))) else None
    case MarkSize => if u.SetWatermarkSize? then Some(OfSize(Some(u.size))) else None
    case MarkRotate => if u.SetWatermarkRotate? then Some(OfFloat(u.degrees)) else None
    case MarkShadow => if u.SetWatermarkShadow? then Some(OfOptionalFloat(Some(u.sigma))) else None
  }

  /** What the last of the segments that set the field gave. */
  function LastSet<F, D>(us: seq<Update<F, D>>, field: Field): Option<Value<F, D>> {
    if us == [] then None
    else
      var last := Sets(us[|us| - 1], field);
      if last.Some? then last else LastSet(us[..|us| - 1], field)
  }

  /** The code whose segments set a field. */
  function Owner(field: Field): Code {
    match field
    case Kind | Width | Height => RS
    case Quality => Q
    case JpegQuality | WebpQuality => FQ
    case WebpLossless => WEBPO
    case Progressive | NoSubsampling => JPGO
    case MaxBytes => MB
    case Blur => BL
    case Grayscale => G
    case Enlarge => EL
    case Background => BG
    case Autorotate => AR
    case StripMetadata => SM
    case CropField => C
    case GravityField => GR
    case RotateField => ROT
    case FlipHorizontal | FlipVertical => FL
    case TrimField => T
    case ExtendField => EX
    case PaddingField => PD
    case ZoomX | ZoomY => Z
    case DprField => DPR
    case MinWidth => MW
    case MinHeight => MH
    case Opacity | Position | OffsetX | OffsetY | Scale => WM
    case MarkUrl => WMU
    case MarkSize => WMS
    case MarkRotate => WMR
    case MarkShadow => WMSH
  }

  lemma GetIsOwned0<F, D>(p: Progress<F, D>, q: Progress<F, D>, field: Field)
    requires Quarter(Owner(field)) == 0 && OwnedBy(Owner(field), p) == OwnedBy(Owner(field), q)
    ensures Get(p, field) == Get(q, field)
  {
  }

  lemma GetIsOwned1<F, D>(p: Progress<F, D>, q: Progress<F, D>, field: Field)
    requires Quarter(Owner(field)) == 1 && OwnedBy(Owner(field), p) == OwnedBy(Owner(field), q)
    ensures Get(p, field) == Get(q, field)
  {
  }

  lemma GetIsOwned2<F, D>(p: Progress<F, D>, q: Progress<F, D>, field: Field)
    requires Quarter(Owner(field)) == 2 && OwnedBy(Owner(field), p) == OwnedBy(Owner(field), q)
    ensures Get(p, field) == Get(q, field)
  {
  }

  lemma GetIsOwned3<F, D>(p: Progress<F, D>, q: Progress<F, D>, field: Field)
    requires Quarter(Owner(field)) == 3 && OwnedBy(Owner(field), p) == OwnedBy(Owner(field), q)
    ensures Get(p, field) == Get(q, field)
  {
  }

  lemma GetIsOwned<F, D>(p: Progress<F, D>, q: Progress<F, D>, field: Field)
    requires OwnedBy(Owner(field), p) == OwnedBy(Owner(field), q)
    ensures Get(p, field) == Get(q, field)
  {
    hide OwnedBy, Owner, Get;
    match Quarter(Owner(field))
    case 0 => GetIsOwned0(p, q, field);
    case 1 => GetIsOwned1(p, q, field);
    case 2 => GetIsOwned2(p, q, field);
    case _ => GetIsOwned3(p, q, field);
  }

  /** Segments of other codes set nothing. */
  lemma SetsNothing<F, D>(u: Update<F, D>, field: Field)
    requires u.Code() != Owner(field)
    ensures Sets(u, field) == None
  {
  }

  lemma OwnSetsSizes<F, D>(u: Update<F, D>, p: Progress<F, D>, field: Field)
    requires u.Code() == Owner(field) && (u.SetResize? || u.SetQuality? || u.SetFormatQuality?)
    ensures Get(Assign(u, p), field) == if Sets(u, field).Some? then Sets(u, field).value else Get(p, field)
  {
    hide UnwrapOr;
    match u
    case SetResize(_, _, _) => assert field.Kind? || field.Width? || field.Height?;
    case SetQuality(_) => assert field.Quality?;
    case SetFormatQuality(_, _) => assert field.JpegQuality? || field.WebpQuality?;
  }

  lemma OwnSetsEncoding<F, D>(u: Update<F, D>, p: Progress<F, D>, field: Field)
    requires u.Code() == Owner(field) && (u.SetWebpLossless? || u.SetJpeg? || u.SetMaxBytes? || u.SetBlur?)
    ensures Get(Assign(u, p), field) == if Sets(u, field).Some? then Sets(u, field).value else Get(p, field)
  {
    hide UnwrapOr;
    match u
    case SetWebpLossless(_) => assert field.WebpLossless?;
    case SetJpeg(_, _) => assert field.Progressive? || field.NoSubsampling?;
    case SetMaxBytes(_) => assert field.MaxBytes?;
    case SetBlur(_) => assert field.Blur?;
  }

  lemma OwnSetsSwitches<F, D>(u: Update<F, D>, p: Progress<F, D>, field: Field)
    requires u.Code() == Owner(field)
    requires u.SetGrayscale? || u.SetEnlarge? || u.SetAutorotate? || u.SetStripMetadata? || u.SetExtend?
    ensures Get(Assign(u, p), field) == if Sets(u, field).Some? then Sets(u, field).value else Get(p, field)
  {
    hide UnwrapOr;
    match u
    case SetGrayscale(_) => assert field.Grayscale?;
    case SetEnlarge(_) => assert field.Enlarge?;
    case SetAutorotate(_) => assert field.Autorotate?;
    case SetStripMetadata(_) => assert field.StripMetadata?;
    case SetExtend(_) => assert field.ExtendField?;
  }

  lemma OwnSetsShape<F, D>(u: Update<F, D>, p: Progress<F, D>, field: Field)
    requires u.Code() == Owner(field) && (u.SetBackground? || u.SetCrop? || u.SetGravity? || u.SetRotate?)
    ensures Get(Assign(u, p), field) == if Sets(u, field).Some? then Sets(u, field).value else Get(p, field)
  {
    hide UnwrapOr;
    match u
    case SetBackground(_) => assert field.Background?;
    case SetCrop(_) => assert field.CropField?;
    case SetGravity(_) => assert field.GravityField?;
    case SetRotate(_) => assert field.RotateField?;
  }

  lemma OwnSetsCanvas<F, D>(u: Update<F, D>, p: Progress<F, D>, field: Field)
    requires u.Code() == Owner(field) && (u.SetTrim? || u.SetPadding? || u.SetZoom? || u.SetDpr?)
    ensures Get(Assign(u, p), field) == if Sets(u, field).Some? then Sets(u, field).value else Get(p, field)
  {
    hide UnwrapOr;
    match u
    case SetTrim(_) => assert field.TrimField?;
    case SetPadding(_) => assert field.PaddingField?;
    case SetZoom(_, _) => assert field.ZoomX? || field.ZoomY?;
    case SetDpr(_) => assert field.DprField?;
  }

  lemma OwnSetsMarks<F, D>(u: Update<F, D>, p: Progress<F, D>, field: Field)
    requires u.Code() == Owner(field) && Quarter(u.Code()) == 3 && !u.SetWatermark?
    ensures Get(Assign(u, p), field) == if Sets(u, field).Some? then Sets(u, field).value else Get(p, field)
  {
    hide UnwrapOr;
    match u
    case SetMinWidth(_) => assert field.MinWidth?;
    case SetMinHeight(_) => assert field.MinHeight?;
    case SetWatermarkUrl(_) => assert field.MarkUrl?;
    case SetWatermarkSize(_) => assert field.MarkSize?;
    case SetWatermarkRotate(_) => assert field.MarkRotate?;
    case SetWatermarkShadow(_) => assert field.MarkShadow?;
  }

  lemma OwnSetsMerged<F, D>(u: Update<F, D>, p: Progress<F, D>, field: Field)
    requires u.Code() == Owner(field) && (u.SetFlip? || u.SetWatermark?)
    ensures Get(Assign(u, p), field) == if Sets(u, field).Some? then Sets(u, field).value else Get(p, field)
  {
    match u
    case SetFlip(_, _) => assert field.FlipHorizontal? || field.FlipVertical?;
    case SetWatermark(_, _, _, _, _) =>
      assert field.Opacity? || field.Position? || field.OffsetX? || field.OffsetY? || field.Scale?;
  }

  /** One segment sets a field or leaves it as it was. */
  lemma AssignSets<F, D>(u: Update<F, D>, p: Progress<F, D>, field: Field)
    ensures Get(Assign(u, p), field) == UnwrapOr(Sets(u, field), Get(p, field))
  {
    hide Assign, Get, Sets, OwnedBy, Owner;
    if u.Code() != Owner(field) {
      AssignElsewhere(u, p, Owner(field));
      GetIsOwned(Assign(u, p), p, field);
      SetsNothing(u, field);
    } else {
      match u
      case SetResize(_, _, _) | SetQuality(_) | SetFormatQuality(_, _) => OwnSetsSizes(u, p, field);
      case SetWebpLossless(_) | SetJpeg(_, _) | SetMaxBytes(_) | SetBlur(_) => OwnSetsEncoding(u, p, field);
      case SetGrayscale(_) | SetEnlarge(_) | SetAutorotate(_) | SetStripMetadata(_) | SetExtend(_) =>
        OwnSetsSwitches(u, p, field);
      case SetBackground(_) | SetCrop(_) | SetGravity(_) | SetRotate(_) => OwnSetsShape(u, p, field);
      case SetTrim(_) | SetPadding(_) | SetZoom(_, _) | SetDpr(_) => OwnSetsCanvas(u, p, field);
      case SetFlip(_, _) | SetWatermark(_, _, _, _, _) => OwnSetsMerged(u, p, field);
      case _ => OwnSetsMarks(u, p, field);
    }
  }

  lemma StartIsDefault<F, D>(lib: Library<F, D>, field: Field)
    ensures Get(Start(lib), field) == Default(lib, field)
  {
  }

  lemma {:induction false} LastSetWins<F, D>(lib: Library<F, D>, us: seq<Update<F, D>>, field: Field)
    ensures Get(AssignAll(us, Start(lib)), field) == UnwrapOr(LastSet(us, field), Default(lib, field))
    decreases |us|
  {
    hide Assign, Get, Sets, Default, Start;
    if us == [] {
      StartIsDefault(lib, field);
    } else {
      var front, last := us[..|us| - 1], us[|us| - 1];
      LastSetWins(lib, front, field);
      assert us == front + [last];
      AssignSnoc(front, last, Start(lib));
      AssignSets(last, AssignAll(front, Start(lib)), field);
    }
  }

  /**
   Of any accepted list of segments, every field of the options holds what the last segment that sets it gave,
   and its default if none does.
   */
  lemma LastSegmentWins<F, D>(lib: Library<F, D>, segments: seq<string>, field: Field)
    requires ParseOptions(lib, segments).Ok? && !field.CropField?
    ensures Get(Progress(ParseOptions(lib, segments).value, None), field)
         == UnwrapOr(LastSet(DecodeAll(lib, segments).value, field), Default(lib, field))
  {
    hide Assign, Default, Start, LastSet, DecodeAll, AssignAll;
    var us := DecodeAll(lib, segments).value;
    LastSetWins(lib, us, field);
    CropAside(AssignAll(us, Start(lib)), field);
  }

  lemma CropAside<F, D>(p: Progress<F, D>, field: Field)
    requires !field.CropField?
    ensures Get(Progress(ResolveCrop(p), None), field) == Get(p, field)
  {
  }

  /** So a later segment overrides an earlier one: only segments behind it that set the field can take it back. */
  lemma LaterOverrides<F, D>(
    lib: Library<F, D>, front: seq<Update<F, D>>, u: Update<F, D>, back: seq<Update<F, D>>, field: Field)
    requires Sets(u, field).Some? && forall v <- back :: Sets(v, field).None?
    ensures Get(AssignAll(front + [u] + back, Start(lib)), field) == Sets(u, field).value
    decreases |back|
  {
    hide Assign, Get, Sets, Default, Start;
    var us := front + [u] + back;
    LastSetWins(lib, us, field);
    LastOf(front, u, back, field);
  }

  lemma {:induction false} LastOf<F, D>(
    front: seq<Update<F, D>>, u: Update<F, D>, back: seq<Update<F, D>>, field: Field)
    requires Sets(u, field).Some? && forall v <- back :: Sets(v, field).None?
    ensures LastSet(front + [u] + back, field) == Sets(u, field)
    decreases |back|
  {
    hide Sets;
    var us := front + [u] + back;
    if back == [] {
      assert us[|us| - 1] == u;
    } else {
      var last := back[|back| - 1];
      assert us[|us| - 1] == last && last in back;
      assert us[..|us| - 1] == front + [u] + back[..|back| - 1];
      LastOf(front, u, back[..|back| - 1], field);
    }
  }
}

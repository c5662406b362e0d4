/**
 Options and their segments as a whole: printing well-formed options and parsing the segments gives the
 options back, and everything that parses is well-formed, so print-after-parse is a normal form.
 */
module UrlNormalForm {
  import opened Common
  import opened Text
  import opened Params
  import opened UrlOptions
  import opened UrlOrder
  import opened UrlPrint

  /** Values that some segment list can give; without `wm`, its other slots keep their defaults. */
  predicate WellFormed<F(==), D>(lib: Library<F, D>, o: Options<F, D>) {
    && Positive(o.width, TWO_32) && Positive(o.height, TWO_32)
    && Positive(o.minWidth, TWO_32) && Positive(o.minHeight, TWO_32)
    && Percent(o.quality) && Percent(o.jpegQuality) && Percent(o.webpQuality)
    && Positive(o.maxBytes, TWO_64)
    && (o.background.Some? ==> ValidRgb(o.background.value))
    && ValidGravity(lib, o.gravity)
    && (o.crop.Some? ==> ValidDimension(lib, o.crop.value.width) && ValidDimension(lib, o.crop.value.height)
                         && ValidGravity(lib, o.crop.value.gravity))
    && ValidAngle(o.rotate)
    && (o.trim.Some? ==> ValidTrim(lib, o.trim.value))
    && (o.padding.Some? ==> ValidPadding(o.padding.value))
    && lib.positive(o.zoomX) && lib.positive(o.zoomY) && lib.positive(o.dpr)
    && (o.watermarkSize.Some? ==> o.watermarkSize.value.0 < TWO_32 && o.watermarkSize.value.1 < TWO_32)
    && QuietWatermark(lib, o)
  }

  predicate QuietWatermark<F(==), D>(lib: Library<F, D>, o: Options<F, D>) {
    o.watermarkOpacity.None? ==>
      o.watermarkPosition == Center && o.watermarkX == lib.zeroF && o.watermarkY == lib.zeroF
      && o.watermarkScale == lib.zeroF
  }

  /** The state of the parse before the crop is resolved: the crop with its gravity made explicit. */
  function Unresolved<F, D>(o: Options<F, D>): Progress<F, D> {
    Progress(o.(crop := None),
             match o.crop
             case None => None
             case Some(c) => Some(RawCrop(c.width, c.height, Some(c.gravity))))
  }

  function When<X>(condition: bool, x: X): Option<X> {
    if condition then Some(x) else None
  }

  /** The update, if any, that sets the fields one code owns to what the options hold. */
  function UpdateOf<F(==), D>(lib: Library<F, D>, o: Options<F, D>, code: Code): Option<Update<F, D>> {
    match code
    case RS => When(o.width.Some? || o.height.Some? || !o.resizeType.Fit?, SetResize(o.resizeType, o.width, o.height))
    case Q => if o.quality.Some? then Some(SetQuality(o.quality.value)) else None
    case FQ => When(o.jpegQuality.Some? || o.webpQuality.Some?, SetFormatQuality(o.jpegQuality, o.webpQuality))
    case WEBPO => if o.webpLossless.Some? then Some(SetWebpLossless(o.webpLossless.value)) else None
    case JPGO => When(o.jpegProgressive.Some? || o.jpegNoSubsampling.Some?,
                      SetJpeg(o.jpegProgressive, o.jpegNoSubsampling))
    case MB => When(o.maxBytes.Some?, SetMaxBytes(o.maxBytes))
    case BL => if o.blurSigma.Some? then Some(SetBlur(o.blurSigma.value)) else None
    case G => if o.grayscale.Some? then Some(SetGrayscale(o.grayscale.value)) else None
    case EL => if o.enlarge.Some? then Some(SetEnlarge(o.enlarge.value)) else None
    case BG => if o.background.Some? then Some(SetBackground(o.background.value)) else None
    case AR => if o.autorotate.Some? then Some(SetAutorotate(o.autorotate.value)) else None
    case SM => if o.stripMetadata.Some? then Some(SetStripMetadata(o.stripMetadata.value)) else None
    case C =>
      if o.crop.Some? then Some(SetCrop(RawCrop(o.crop.value.width, o.crop.value.height, Some(o.crop.value.gravity))))
      else None
    case GR => When(!(o.gravity.Anchored? && o.gravity.anchor.Center?), SetGravity(o.gravity))
    case ROT => When(o.rotate != 0, SetRotate(o.rotate))
    case FL => When(o.flipHorizontal || o.flipVertical, SetFlip(Some(o.flipHorizontal), Some(o.flipVertical)))
    case T => if o.trim.Some? then Some(SetTrim(o.trim.value)) else None
    case EX => if o.extend.Some? then Some(SetExtend(o.extend.value)) else None
    case PD => if o.padding.Some? then Some(SetPadding(o.padding.value)) else None
    case Z => When(o.zoomX != lib.oneF || o.zoomY != lib.oneF, SetZoom(o.zoomX, o.zoomY))
    case DPR => When(o.dpr != lib.oneF, SetDpr(o.dpr))
    case MW => When(o.minWidth.Some?, SetMinWidth(o.minWidth))
    case MH => When(o.minHeight.Some?, SetMinHeight(o.minHeight))
    case WM =>
      if o.watermarkOpacity.Some? then
        Some(SetWatermark(o.watermarkOpacity.value, Some(o.watermarkPosition), Some(o.watermarkX), Some(o.watermarkY),
                          Some(o.watermarkScale)))
      else None
    case WMU => if o.watermarkUrl.Some? then Some(SetWatermarkUrl(o.watermarkUrl.value)) else None
    case WMS => if o.watermarkSize.Some? then Some(SetWatermarkSize(o.watermarkSize.value)) else None
    case WMR => When(o.watermarkRotate != lib.zeroF, SetWatermarkRotate(o.watermarkRotate))
    case WMSH => if o.watermarkShadow.Some? then Some(SetWatermarkShadow(o.watermarkShadow.value)) else None
  }

  function UpdatesOf<F(==), D>(lib: Library<F, D>, o: Options<F, D>, code: Code): seq<Update<F, D>> {
    match UpdateOf(lib, o, code)
    case None => []
    case Some(u) => [u]
  }

  const ALL_CODES: seq<Code> :=
    [RS, Q, FQ, WEBPO, JPGO, MB, BL, G, EL, BG, AR, SM, C, GR, ROT, FL, T, EX, PD, Z,
     DPR, MW, MH, WM, WMU, WMS, WMR, WMSH]

  function UpdatesFor<F(==), D>(lib: Library<F, D>, o: Options<F, D>, codes: seq<Code>): seq<Update<F, D>> {
    if codes == [] then [] else UpdatesOf(lib, o, codes[0]) + UpdatesFor(lib, o, codes[1..])
  }

  function PrintAll<F, D>(lib: Library<F, D>, us: seq<Update<F, D>>): seq<string>
    requires forall u <- us :: ValidUpdate(lib, u)
  {
    seq(|us|, i requires 0 <= i < |us| => PrintUpdate(lib, us[i]))
  }

  // ---------------------------------------------------------------------------------------------
  // Print, then parse
  // ---------------------------------------------------------------------------------------------

  lemma UpdatesOfBelong0<F, D>(lib: Library<F, D>, o: Options<F, D>, code: Code)
    requires WellFormed(lib, o) && Quarter(code) == 0
    ensures var u := UpdateOf(lib, o, code); u.Some? ==> u.value.Code() == code && ValidUpdate(lib, u.value)
  {
  }

  lemma UpdatesOfBelong1<F, D>(lib: Library<F, D>, o: Options<F, D>, code: Code)
    requires WellFormed(lib, o) && Quarter(code) == 1
    ensures var u := UpdateOf(lib, o, code); u.Some? ==> u.value.Code() == code && ValidUpdate(lib, u.value)
  {
  }

  lemma UpdatesOfBelong2<F, D>(lib: Library<F, D>, o: Options<F, D>, code: Code)
    requires WellFormed(lib, o) && Quarter(code) == 2
    ensures var u := UpdateOf(lib, o, code); u.Some? ==> u.value.Code() == code && ValidUpdate(lib, u.value)
  {
  }

  lemma UpdatesOfBelong3<F, D>(lib: Library<F, D>, o: Options<F, D>, code: Code)
    requires WellFormed(lib, o) && Quarter(code) == 3
    ensures var u := UpdateOf(lib, o, code); u.Some? ==> u.value.Code() == code && ValidUpdate(lib, u.value)
  {
  }

  lemma UpdatesOfBelong<F, D>(lib: Library<F, D>, o: Options<F, D>, code: Code)
    requires WellFormed(lib, o)
    ensures forall u <- UpdatesOf(lib, o, code) :: u.Code() == code && ValidUpdate(lib, u)
    ensures |UpdatesOf(lib, o, code)| <= 1
  {
    hide WellFormed, UpdateOf, ValidUpdate;
    match Quarter(code)
    case 0 => UpdatesOfBelong0(lib, o, code);
    case 1 => UpdatesOfBelong1(lib, o, code);
    case 2 => UpdatesOfBelong2(lib, o, code);
    case _ => UpdatesOfBelong3(lib, o, code);
  }

  lemma UnsetIsDefaultEarly<F, D>(lib: Library<F, D>, o: Options<F, D>, code: Code)
    requires Quarter(code) < 2 && UpdateOf(lib, o, code).None?
    ensures OwnedBy(code, Start(lib)) == OwnedBy(code, Unresolved(o))
  {
  }

  lemma UnsetIsDefaultLate<F, D>(lib: Library<F, D>, o: Options<F, D>, code: Code)
    requires Quarter(code) >= 2 && QuietWatermark(lib, o) && UpdateOf(lib, o, code).None?
    ensures OwnedBy(code, Start(lib)) == OwnedBy(code, Unresolved(o))
  {
  }

  /** A code that prints nothing owns defaults. */
  lemma UnsetIsDefault<F, D>(lib: Library<F, D>, o: Options<F, D>, code: Code)
    requires QuietWatermark(lib, o) && UpdateOf(lib, o, code).None?
    ensures OwnedBy(code, Start(lib)) == OwnedBy(code, Unresolved(o))
  {
    hide UpdateOf, OwnedBy, Unresolved, Start, QuietWatermark;
    if Quarter(code) < 2 {
      UnsetIsDefaultEarly(lib, o, code);
    } else {
      UnsetIsDefaultLate(lib, o, code);
    }
  }

  lemma UpdateRestores0<F, D>(lib: Library<F, D>, o: Options<F, D>, code: Code)
    requires Quarter(code) == 0 && UpdateOf(lib, o, code).Some?
    ensures OwnedBy(code, Assign(UpdateOf(lib, o, code).value, Start(lib))) == OwnedBy(code, Unresolved(o))
  {
    hide UnwrapOr;
  }

  lemma UpdateRestores1<F, D>(lib: Library<F, D>, o: Options<F, D>, code: Code)
    requires Quarter(code) == 1 && UpdateOf(lib, o, code).Some?
    ensures OwnedBy(code, Assign(UpdateOf(lib, o, code).value, Start(lib))) == OwnedBy(code, Unresolved(o))
  {
    hide UnwrapOr;
  }

  lemma UpdateRestores2<F, D>(lib: Library<F, D>, o: Options<F, D>, code: Code)
    requires Quarter(code) == 2 && !code.FL? && UpdateOf(lib, o, code).Some?
    ensures OwnedBy(code, Assign(UpdateOf(lib, o, code).value, Start(lib))) == OwnedBy(code, Unresolved(o))
  {
    hide UnwrapOr;
  }

  lemma UpdateRestores3<F, D>(lib: Library<F, D>, o: Options<F, D>, code: Code)
    requires Quarter(code) == 3 && !code.WM? && UpdateOf(lib, o, code).Some?
    ensures OwnedBy(code, Assign(UpdateOf(lib, o, code).value, Start(lib))) == OwnedBy(code, Unresolved(o))
  {
    hide UnwrapOr;
  }

  lemma FlipRestores<F, D>(lib: Library<F, D>, o: Options<F, D>)
    requires UpdateOf(lib, o, FL).Some?
    ensures OwnedBy(FL, Assign(UpdateOf(lib, o, FL).value, Start(lib))) == OwnedBy(FL, Unresolved(o))
  {
  }

  lemma WatermarkRestores<F, D>(lib: Library<F, D>, o: Options<F, D>)
    requires UpdateOf(lib, o, WM).Some?
    ensures OwnedBy(WM, Assign(UpdateOf(lib, o, WM).value, Start(lib))) == OwnedBy(WM, Unresolved(o))
  {
  }

  /** From the defaults, a code's update restores what the code owns. */
  lemma UpdatesOfRestore<F, D>(lib: Library<F, D>, o: Options<F, D>, code: Code)
    requires WellFormed(lib, o)
    ensures OwnedBy(code, AssignAll(UpdatesOf(lib, o, code), Start(lib))) == OwnedBy(code, Unresolved(o))
  {
    assert QuietWatermark(lib, o);
    hide WellFormed, UpdateOf, OwnedBy, Unresolved, Assign, Start, ValidUpdate, QuietWatermark;
    match UpdateOf(lib, o, code)
    case None => UnsetIsDefault(lib, o, code);
    case Some(u) =>
      if code.FL? {
        FlipRestores(lib, o);
      } else if code.WM? {
        WatermarkRestores(lib, o);
      } else {
        match Quarter(code)
        case 0 => UpdateRestores0(lib, o, code);
        case 1 => UpdateRestores1(lib, o, code);
        case 2 => UpdateRestores2(lib, o, code);
        case _ => UpdateRestores3(lib, o, code);
      }
      assert [u][1..] == [];
  }

  lemma {:induction false} OfCodeAppend<F, D>(us: seq<Update<F, D>>, vs: seq<Update<F, D>>, code: Code)
    ensures OfCode(us + vs, code) == OfCode(us, code) + OfCode(vs, code)
    decreases |us|
  {
    var all := us + vs;
    if us == [] {
      assert all == vs;
    } else {
      assert all[0] == us[0] && all[1..] == us[1..] + vs;
      OfCodeAppend(us[1..], vs, code);
      ConcatAssociative([us[0]], OfCode(us[1..], code), OfCode(vs, code));
    }
  }

  /** A list with one update, or none, of its own code. */
  lemma OfCodeSingle<F, D>(us: seq<Update<F, D>>, own: Code, code: Code)
    requires |us| <= 1 && forall u <- us :: u.Code() == own
    ensures OfCode(us, code) == if code == own then us else []
  {
    if us != [] {
      assert us[0] in us && us[1..] == [];
      assert us == [us[0]];
    }
  }

  /** Among the updates of several codes, those of one code are the ones printed for it. */
  lemma {:induction false} OfCodeOfUpdates<F, D>(lib: Library<F, D>, o: Options<F, D>, codes: seq<Code>, code: Code)
    requires WellFormed(lib, o)
    requires forall i, j | 0 <= i < j < |codes| :: codes[i] != codes[j]
    ensures OfCode(UpdatesFor(lib, o, codes), code) == if code in codes then UpdatesOf(lib, o, code) else []
    ensures forall u <- UpdatesFor(lib, o, codes) :: ValidUpdate(lib, u)
    decreases |codes|
  {
    hide WellFormed, UpdatesOf, OfCode, ValidUpdate;
    if codes == [] {
      NoneOfCode<F, D>(code);
    } else {
      UpdatesOfBelong(lib, o, codes[0]);
      OfCodeOfUpdates(lib, o, codes[1..], code);
      OfCodeSingle(UpdatesOf(lib, o, codes[0]), codes[0], code);
      OfCodeAppend(UpdatesOf(lib, o, codes[0]), UpdatesFor(lib, o, codes[1..]), code);
      assert codes == [codes[0]] + codes[1..];
      var own, others := UpdatesOf(lib, o, codes[0]), OfCode(UpdatesFor(lib, o, codes[1..]), code);
      if code == codes[0] {
        assert code !in codes[1..];
        assert own + [] == own;
      } else {
        assert [] + others == others;
      }
    }
  }

  lemma NoneOfCode<F, D>(code: Code)
    ensures OfCode<F, D>([], code) == []
  {
  }

  lemma AllCodes(code: Code)
    ensures code in ALL_CODES
    ensures forall i, j | 0 <= i < j < |ALL_CODES| :: ALL_CODES[i] != ALL_CODES[j]
  {
    CodePosition(code);
    forall i, j | 0 <= i < j < |ALL_CODES|
      ensures ALL_CODES[i] != ALL_CODES[j]
    {
      PositionOfCode(i);
      PositionOfCode(j);
    }
  }

  function Position(code: Code): nat {
    match code
    case RS => 0
    case Q => 1
    case FQ => 2
    case WEBPO => 3
    case JPGO => 4
    case MB => 5
    case BL => 6
    case G => 7
    case EL => 8
    case BG => 9
    case AR => 10
    case SM => 11
    case C => 12
    case GR => 13
    case ROT => 14
    case FL => 15
    case T => 16
    case EX => 17
    case PD => 18
    case Z => 19
    case DPR => 20
    case MW => 21
    case MH => 22
    case WM => 23
    case WMU => 24
    case WMS => 25
    case WMR => 26
    case WMSH => 27
  }

  lemma CodePosition(code: Code)
    ensures Position(code) < |ALL_CODES| && ALL_CODES[Position(code)] == code
  {
  }

  lemma PositionOfCode(i: nat)
    requires i < |ALL_CODES|
    ensures Position(ALL_CODES[i]) == i
  {
  }

  /** All the updates together restore the options, up to the resolution of the crop. */
  lemma UpdatesRestore<F, D>(lib: Library<F, D>, o: Options<F, D>)
    requires WellFormed(lib, o)
    ensures AssignAll(UpdatesFor(lib, o, ALL_CODES), Start(lib)) == Unresolved(o)
  {
    hide WellFormed, UpdatesOf, OfCode, OwnedBy, Assign, ValidUpdate, UpdatesFor, AssignAll;
    var us := UpdatesFor(lib, o, ALL_CODES);
    var result := AssignAll(us, Start(lib));
    forall code
      ensures OwnedBy(code, result) == OwnedBy(code, Unresolved(o))
    {
      AllCodes(code);
      OfCodeOfUpdates(lib, o, ALL_CODES, code);
      OwnedAfter(us, Start(lib), Start(lib), code);
      UpdatesOfRestore(lib, o, code);
    }
    AssignAllKeepsCrop(us, Start(lib));
    OwnedIsAll(result, Unresolved(o));
  }

  lemma {:induction false} DecodesPrintedAll<F(!new), D(!new)>(lib: Library<F, D>, us: seq<Update<F, D>>)
    requires Lawful(lib) && forall u <- us :: ValidUpdate(lib, u)
    ensures DecodeAll(lib, PrintAll(lib, us)) == Ok(us)
    decreases |us|
  {
    hide Decode, PrintUpdate, Lawful, ValidUpdate;
    if us != [] {
      DecodesPrinted(lib, us[0]);
      DecodesPrintedAll(lib, us[1..]);
      assert PrintAll(lib, us)[1..] == PrintAll(lib, us[1..]);
      assert us == [us[0]] + us[1..];
    }
  }

  lemma AllUpdatesValid<F, D>(lib: Library<F, D>, o: Options<F, D>)
    requires WellFormed(lib, o)
    ensures forall u <- UpdatesFor(lib, o, ALL_CODES) :: ValidUpdate(lib, u)
  {
    hide WellFormed, UpdatesOf, OfCode, UpdatesFor, ValidUpdate;
    AllCodes(RS);
    OfCodeOfUpdates(lib, o, ALL_CODES, RS);
  }

  /** The canonical segments of well-formed options. */
  function Print<F(==), D>(lib: Library<F, D>, o: Options<F, D>): seq<string>
    requires WellFormed(lib, o)
  {
    AllUpdatesValid(lib, o);
    PrintAll(lib, UpdatesFor(lib, o, ALL_CODES))
  }

  /** Parsing the printed options gives the options back. */
  lemma ParseOfPrint<F(!new), D(!new)>(lib: Library<F, D>, o: Options<F, D>)
    requires Lawful(lib) && WellFormed(lib, o)
    ensures ParseOptions(lib, Print(lib, o)) == Ok(o)
  {
    hide WellFormed, UpdatesFor, AssignAll, PrintAll, DecodeAll, Lawful, ValidUpdate;
    AllUpdatesValid(lib, o);
    DecodesPrintedAll(lib, UpdatesFor(lib, o, ALL_CODES));
    UpdatesRestore(lib, o);
    assert ResolveCrop(Unresolved(o)) == o;
  }

  // ---------------------------------------------------------------------------------------------
  // Parse, then print
  // ---------------------------------------------------------------------------------------------

  lemma ParsedRgb(args: seq<string>, hex: string)
    ensures ParseBackground(args).Some? ==> ValidRgb(ParseBackground(args).value)
    ensures ParseHexColor(hex).Some? ==> ValidRgb(ParseHexColor(hex).value)
  {
    hide Value;
  }

  lemma ParsedTrim<F, D>(lib: Library<F, D>, args: seq<string>)
    ensures ParseTrim(lib, args).Some? ==> ValidTrim(lib, ParseTrim(lib, args).value)
  {
    hide ParseHexColor, ParseBool;
    if Slot(args, 1).Some? {
      ParsedRgb(args, Slot(args, 1).value);
    }
  }

  lemma ParsedPadding(args: seq<string>)
    ensures ParsePadding(args).Some? ==> ValidPadding(ParsePadding(args).value)
  {
    hide Value;
  }

  lemma {:induction false} ParsedFormatQuality<F, D>(args: seq<string>)
    ensures var u := ParseFormatQuality<F, D>(args);
            u.Some? ==> Percent(u.value.jpeg) && Percent(u.value.webp)
                        && (args != [] ==> u.value.jpeg.Some? || u.value.webp.Some?)
    decreases |args|
  {
    hide ParseUnsigned;
    if |args| >= 2 {
      ParsedFormatQuality<F, D>(args[..|args| - 2]);
    }
  }

  lemma ParsedCropDimension<F(!new), D(!new)>(lib: Library<F, D>, s: string)
    requires Lawful(lib)
    ensures var d := ParseCropDimension(lib, s); d.Some? ==> ValidDimension(lib, d.value)
  {
  }

  lemma ParsedGravity<F, D>(lib: Library<F, D>, tokens: seq<string>)
    ensures var g := ParseGravity(lib, tokens); g.Some? ==> ValidGravity(lib, g.value)
  {
  }

  lemma ParsedCrop<F(!new), D(!new)>(lib: Library<F, D>, args: seq<string>)
    requires Lawful(lib)
    ensures var u := ParseCrop(lib, args); u.Some? ==> ValidUpdate(lib, u.value)
  {
    hide ParseCropDimension, ParseGravity, ValidDimension, ValidGravity, Lawful;
    if |args| >= 2 {
      ParsedCropDimension(lib, args[0]);
      ParsedCropDimension(lib, args[1]);
      ParsedGravity(lib, args[2..]);
    }
  }

  lemma ParsedAngle(s: string)
    ensures var a := ParseRotateAngle(s); a.Some? ==> ValidAngle(a.value)
  {
    hide ParseI32;
    if ParseI32(s).Some? && ParseI32(s).value % 90 == 0 {
      QuarterAngles(ParseI32(s).value);
    }
  }

  lemma QuarterAngles(a: int)
    requires a % 90 == 0
    ensures ValidAngle(a % 360)
  {
    assert a == a / 90 * 90;
    assert a % 360 == a - a / 360 * 360;
    assert a % 360 == (a / 90 - 4 * (a / 360)) * 90;
  }

  lemma ParsedSingle<F, D>(lib: Library<F, D>, code: Code, arg: string)
    ensures var u := DecodeSingle(lib, code, arg); u.Some? ==> ValidUpdate(lib, u.value)
  {
    hide Value, ParseRotateAngle, ValidAngle, ParseBool, ParseWebp;
    ParsedAngle(arg);
  }

  lemma ParsedOthers<F, D>(lib: Library<F, D>, args: seq<string>)
    ensures var u := ParseResize<F, D>(args); u.Some? ==> ValidUpdate(lib, u.value)
    ensures var u := DecodeSize<F, D>(args); u.Some? ==> ValidUpdate(lib, u.value)
    ensures var z := ParseZoom(lib, args); z.Some? ==> lib.positive(z.value.0) && lib.positive(z.value.1)
    ensures var u := DecodeJpeg<F, D>(args); u.Some? ==> ValidUpdate(lib, u.value)
    ensures var u := DecodeFlip<F, D>(args); u.Some? ==> ValidUpdate(lib, u.value)
    ensures var u := ParseWatermark(lib, args); u.Some? ==> ValidUpdate(lib, u.value)
  {
    hide Value, Optional;
  }

  /** Whatever an argument list decodes to is well-formed. */
  lemma DecodedIsValid<F(!new), D(!new)>(lib: Library<F, D>, code: Code, args: seq<string>)
    requires Lawful(lib)
    ensures var u := DecodeArgs(lib, code, args); u.Some? ==> ValidUpdate(lib, u.value)
  {
    hide ParseResize, ParseFormatQuality, DecodeJpeg, ParseBackground, ParseCrop, ParseGravity, DecodeFlip, ParseTrim,
         ParsePadding, ParseZoom, ParseWatermark, DecodeSize, DecodeSingle, ValidTrim, ValidPadding, ValidRgb, ValidRaw,
         ValidGravity, ValidAngle;
    hide Positive, Percent, ValidDimension, Lawful;
    match code
    case BG => ParsedRgb(args, "");
    case C => ParsedCrop(lib, args);
    case GR => ParsedGravity(lib, args);
    case T => ParsedTrim(lib, args);
    case PD => ParsedPadding(args);
    case FQ => ParsedFormatQuality<F, D>(args);
    case _ =>
      ParsedOthers(lib, args);
      if |args| == 1 {
        ParsedSingle(lib, code, args[0]);
      }
  }

  /** What holds of the options at every point of the loop. */
  predicate WellFormedProgress<F(==), D>(lib: Library<F, D>, p: Progress<F, D>) {
    WellFormed(lib, p.opts) && p.opts.crop.None? && (p.cropRaw.Some? ==> ValidRaw(lib, p.cropRaw.value))
  }

  lemma AssignKeepsWellFormed<F, D>(lib: Library<F, D>, u: Update<F, D>, p: Progress<F, D>)
    requires WellFormedProgress(lib, p) && ValidUpdate(lib, u)
    ensures WellFormedProgress(lib, Assign(u, p))
  {
    hide ValidTrim, ValidPadding, ValidRgb, ValidRaw, ValidGravity, ValidAngle, ValidDimension;
  }

  lemma {:induction false} AssignAllKeepsWellFormed<F, D>(lib: Library<F, D>, us: seq<Update<F, D>>, p: Progress<F, D>)
    requires WellFormedProgress(lib, p) && forall u <- us :: ValidUpdate(lib, u)
    ensures WellFormedProgress(lib, AssignAll(us, p))
    decreases |us|
  {
    hide WellFormedProgress, Assign, ValidUpdate;
    if us != [] {
      AssignKeepsWellFormed(lib, us[0], p);
      AssignAllKeepsWellFormed(lib, us[1..], Assign(us[0], p));
    }
  }

  lemma {:induction false} DecodedAllValid<F(!new), D(!new)>(lib: Library<F, D>, segments: seq<string>)
    requires Lawful(lib)
    ensures var us := DecodeAll(lib, segments); us.Ok? ==> forall u <- us.value :: ValidUpdate(lib, u)
    decreases |segments|
  {
    hide Lawful, ValidUpdate, DecodeArgs, Split, ReadCode;
    if segments != [] {
      DecodedAllValid(lib, segments[1..]);
      var code := ReadCode(CodeOf(segments[0]));
      if code.Some? {
        DecodedIsValid(lib, code.value, Split(segments[0], ':')[1..]);
      }
    }
  }

  /** Everything that parses is well-formed. */
  lemma ParsedIsWellFormed<F(!new), D(!new)>(lib: Library<F, D>, segments: seq<string>)
    requires Lawful(lib)
    ensures var o := ParseOptions(lib, segments); o.Ok? ==> WellFormed(lib, o.value)
  {
    hide AssignAll, DecodeAll, ValidUpdate;
    var us := DecodeAll(lib, segments);
    if us.Ok? {
      DecodedAllValid(lib, segments);
      assert WellFormedProgress(lib, Start(lib));
      AssignAllKeepsWellFormed(lib, us.value, Start(lib));
    }
  }

  /**
   Print-after-parse is a normal form: it parses to the same options, and two accepted lists have the same
   one exactly when they mean the same.
   */
  lemma NormalForm<F(!new), D(!new)>(lib: Library<F, D>, a: seq<string>, b: seq<string>)
    requires Lawful(lib) && ParseOptions(lib, a).Ok? && ParseOptions(lib, b).Ok?
    ensures var o, p := ParseOptions(lib, a).value, ParseOptions(lib, b).value;
            && WellFormed(lib, o) && WellFormed(lib, p)
            && ParseOptions(lib, Print(lib, o)) == ParseOptions(lib, a)
            && (Print(lib, o) == Print(lib, p) <==> o == p)
  {
    hide WellFormed, Print, ParseOptions, Lawful;
    ParsedIsWellFormed(lib, a);
    ParsedIsWellFormed(lib, b);
    ParseOfPrint(lib, ParseOptions(lib, a).value);
    ParseOfPrint(lib, ParseOptions(lib, b).value);
  }
}

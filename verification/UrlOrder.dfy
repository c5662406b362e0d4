/**
 The order of option segments: each code owns its own fields of the options, so only the order of segments
 with the same code matters. `c` before or after `gr` is no exception, because a crop without a gravity is
 resolved after the last segment.
 */
module UrlOrder {
  import opened Common
  import opened Text
  import opened Params
  import opened UrlOptions

  /** The fields that one code owns. */
  datatype Owned<F, D> =
    | Resize(kind: ResizeType, width: Option<nat>, height: Option<nat>)
    | Number(n: Option<nat>)
    | Numbers(m: Option<nat>, n: Option<nat>)
    | Switch(on: Option<bool>)
    | Switches(a: Option<bool>, b: Option<bool>)
    | Flags(horizontal: bool, vertical: bool)
    | Float(f: Option<F>)
    | Floats(x: F, y: F)
    | Color(color: Option<Rgb>)
    | RawCropOf(raw: Option<RawCrop<D>>)
    | GravityOf(gravity: Gravity<D>)
    | Angle(angle: int)
    | TrimOf(trim: Option<Trim<F>>)
    | PaddingOf(padding: Option<Padding>)
    | WatermarkOf(opacity: Option<F>, position: Anchor, xOffset: F, yOffset: F, scale: F)
    | Url(url: Option<string>)
    | Size(size: Option<(nat, nat)>)

  function OwnedBy<F, D>(code: Code, p: Progress<F, D>): Owned<F, D> {
    var o := p.opts;
    match code
    case RS => Resize(o.resizeType, o.width, o.height)
    case Q => Number(o.quality)
    case FQ => Numbers(o.jpegQuality, o.webpQuality)
    case WEBPO => Switch(o.webpLossless)
    case JPGO => Switches(o.jpegProgressive, o.jpegNoSubsampling)
    case MB => Number(o.maxBytes)
    case BL => Float(o.blurSigma)
    case G => Switch(o.grayscale)
    case EL => Switch(o.enlarge)
    case BG => Color(o.background)
    case AR => Switch(o.autorotate)
    case SM => Switch(o.stripMetadata)
    case C => RawCropOf(p.cropRaw)
    case GR => GravityOf(o.gravity)
    case ROT => Angle(o.rotate)
    case FL => Flags(o.flipHorizontal, o.flipVertical)
    case T => TrimOf(o.trim)
    case EX => Switch(o.extend)
    case PD => PaddingOf(o.padding)
    case Z => Floats(o.zoomX, o.zoomY)
    case DPR => Float(Some(o.dpr))
    case MW => Number(o.minWidth)
    case MH => Number(o.minHeight)
    case WM => WatermarkOf(o.watermarkOpacity, o.watermarkPosition, o.watermarkX, o.watermarkY, o.watermarkScale)
    case WMU => Url(o.watermarkUrl)
    case WMS => Size(o.watermarkSize)
    case WMR => Float(Some(o.watermarkRotate))
    case WMSH => Float(o.watermarkShadow)
  }

  /** Which quarter of the codes a code is in, to keep case analyses small. */
  function Quarter(code: Code): nat {
    if code.RS? || code.Q? || code.FQ? || code.WEBPO? || code.JPGO? || code.MB? || code.BL? then 0
    else if code.G? || code.EL? || code.BG? || code.AR? || code.SM? || code.C? || code.GR? then 1
    else if code.ROT? || code.FL? || code.T? || code.EX? || code.PD? || code.Z? || code.DPR? then 2
    else 3
  }

  lemma AssignElsewhere0<F, D>(u: Update<F, D>, p: Progress<F, D>, code: Code)
    requires u.Code() != code && Quarter(code) == 0
    ensures OwnedBy(code, Assign(u, p)) == OwnedBy(code, p)
  {
    hide UnwrapOr;
  }

  lemma AssignElsewhere1<F, D>(u: Update<F, D>, p: Progress<F, D>, code: Code)
    requires u.Code() != code && Quarter(code) == 1
    ensures OwnedBy(code, Assign(u, p)) == OwnedBy(code, p)
  {
    hide UnwrapOr;
  }

  lemma AssignElsewhere2<F, D>(u: Update<F, D>, p: Progress<F, D>, code: Code)
    requires u.Code() != code && Quarter(code) == 2
    ensures OwnedBy(code, Assign(u, p)) == OwnedBy(code, p)
  {
    hide UnwrapOr;
  }

  lemma AssignElsewhere3<F, D>(u: Update<F, D>, p: Progress<F, D>, code: Code)
    requires u.Code() != code && Quarter(code) == 3
    ensures OwnedBy(code, Assign(u, p)) == OwnedBy(code, p)
  {
    hide UnwrapOr;
  }

  /** An update touches only the fields its code owns. */
  lemma AssignElsewhere<F, D>(u: Update<F, D>, p: Progress<F, D>, code: Code)
    requires u.Code() != code
    ensures OwnedBy(code, Assign(u, p)) == OwnedBy(code, p)
  {
    hide Assign, OwnedBy;
    match Quarter(code)
    case 0 => AssignElsewhere0(u, p, code);
    case 1 => AssignElsewhere1(u, p, code);
    case 2 => AssignElsewhere2(u, p, code);
    case _ => AssignElsewhere3(u, p, code);
  }

  lemma AssignOwned0<F, D>(u: Update<F, D>, p: Progress<F, D>, q: Progress<F, D>)
    requires Quarter(u.Code()) == 0 && OwnedBy(u.Code(), p) == OwnedBy(u.Code(), q)
    ensures OwnedBy(u.Code(), Assign(u, p)) == OwnedBy(u.Code(), Assign(u, q))
  {
  }

  lemma AssignOwned1<F, D>(u: Update<F, D>, p: Progress<F, D>, q: Progress<F, D>)
    requires Quarter(u.Code()) == 1 && OwnedBy(u.Code(), p) == OwnedBy(u.Code(), q)
    ensures OwnedBy(u.Code(), Assign(u, p)) == OwnedBy(u.Code(), Assign(u, q))
  {
  }

  lemma AssignOwned2<F, D>(u: Update<F, D>, p: Progress<F, D>, q: Progress<F, D>)
    requires Quarter(u.Code()) == 2 && OwnedBy(u.Code(), p) == OwnedBy(u.Code(), q)
    ensures OwnedBy(u.Code(), Assign(u, p)) == OwnedBy(u.Code(), Assign(u, q))
  {
  }

  lemma AssignOwned3<F, D>(u: Update<F, D>, p: Progress<F, D>, q: Progress<F, D>)
    requires Quarter(u.Code()) == 3 && OwnedBy(u.Code(), p) == OwnedBy(u.Code(), q)
    ensures OwnedBy(u.Code(), Assign(u, p)) == OwnedBy(u.Code(), Assign(u, q))
  {
  }

  /** What an update makes of its own fields depends on those fields only. */
  lemma AssignOwned<F, D>(u: Update<F, D>, p: Progress<F, D>, q: Progress<F, D>)
    requires OwnedBy(u.Code(), p) == OwnedBy(u.Code(), q)
    ensures OwnedBy(u.Code(), Assign(u, p)) == OwnedBy(u.Code(), Assign(u, q))
  {
    hide Assign, OwnedBy;
    match Quarter(u.Code())
    case 0 => AssignOwned0(u, p, q);
    case 1 => AssignOwned1(u, p, q);
    case 2 => AssignOwned2(u, p, q);
    case _ => AssignOwned3(u, p, q);
  }

  /** No update touches the resolved crop. */
  lemma AssignKeepsCrop<F, D>(u: Update<F, D>, p: Progress<F, D>)
    ensures Assign(u, p).opts.crop == p.opts.crop
  {
  }

  ghost predicate SameOwned<F, D>(p: Progress<F, D>, q: Progress<F, D>) {
    forall code :: OwnedBy(code, p) == OwnedBy(code, q)
  }

  lemma SameFields0<F, D>(p: Progress<F, D>, q: Progress<F, D>)
    requires SameOwned(p, q)
    ensures p.opts.resizeType == q.opts.resizeType && p.opts.width == q.opts.width && p.opts.height == q.opts.height
    ensures p.opts.quality == q.opts.quality
    ensures p.opts.jpegQuality == q.opts.jpegQuality && p.opts.webpQuality == q.opts.webpQuality
    ensures p.opts.webpLossless == q.opts.webpLossless
  {
    assert OwnedBy(RS, p) == OwnedBy(RS, q);
    assert OwnedBy(Q, p) == OwnedBy(Q, q);
    assert OwnedBy(FQ, p) == OwnedBy(FQ, q);
    assert OwnedBy(WEBPO, p) == OwnedBy(WEBPO, q);
  }

  lemma SameFields1<F, D>(p: Progress<F, D>, q: Progress<F, D>)
    requires SameOwned(p, q)
    ensures p.opts.jpegProgressive == q.opts.jpegProgressive && p.opts.jpegNoSubsampling == q.opts.jpegNoSubsampling
    ensures p.opts.maxBytes == q.opts.maxBytes
    ensures p.opts.blurSigma == q.opts.blurSigma
    ensures p.opts.grayscale == q.opts.grayscale
  {
    assert OwnedBy(JPGO, p) == OwnedBy(JPGO, q);
    assert OwnedBy(MB, p) == OwnedBy(MB, q);
    assert OwnedBy(BL, p) == OwnedBy(BL, q);
    assert OwnedBy(G, p) == OwnedBy(G, q);
  }

  lemma SameFields2<F, D>(p: Progress<F, D>, q: Progress<F, D>)
    requires SameOwned(p, q)
    ensures p.opts.enlarge == q.opts.enlarge
    ensures p.opts.background == q.opts.background
    ensures p.opts.autorotate == q.opts.autorotate
    ensures p.opts.stripMetadata == q.opts.stripMetadata
  {
    assert OwnedBy(EL, p) == OwnedBy(EL, q);
    assert OwnedBy(BG, p) == OwnedBy(BG, q);
    assert OwnedBy(AR, p) == OwnedBy(AR, q);
    assert OwnedBy(SM, p) == OwnedBy(SM, q);
  }

  lemma SameFields3<F, D>(p: Progress<F, D>, q: Progress<F, D>)
    requires SameOwned(p, q)
    ensures p.cropRaw == q.cropRaw
    ensures p.opts.gravity == q.opts.gravity
    ensures p.opts.rotate == q.opts.rotate
    ensures p.opts.flipHorizontal == q.opts.flipHorizontal && p.opts.flipVertical == q.opts.flipVertical
  {
    assert OwnedBy(C, p) == OwnedBy(C, q);
    assert OwnedBy(GR, p) == OwnedBy(GR, q);
    assert OwnedBy(ROT, p) == OwnedBy(ROT, q);
    assert OwnedBy(FL, p) == OwnedBy(FL, q);
  }

  lemma SameFields4<F, D>(p: Progress<F, D>, q: Progress<F, D>)
    requires SameOwned(p, q)
    ensures p.opts.trim == q.opts.trim
    ensures p.opts.extend == q.opts.extend
    ensures p.opts.padding == q.opts.padding
    ensures p.opts.zoomX == q.opts.zoomX && p.opts.zoomY == q.opts.zoomY
  {
    assert OwnedBy(T, p) == OwnedBy(T, q);
    assert OwnedBy(EX, p) == OwnedBy(EX, q);
    assert OwnedBy(PD, p) == OwnedBy(PD, q);
    assert OwnedBy(Z, p) == OwnedBy(Z, q);
  }

  lemma SameFields5<F, D>(p: Progress<F, D>, q: Progress<F, D>)
    requires SameOwned(p, q)
    ensures p.opts.dpr == q.opts.dpr
    ensures p.opts.minWidth == q.opts.minWidth
    ensures p.opts.minHeight == q.opts.minHeight
    ensures p.opts.watermarkOpacity == q.opts.watermarkOpacity
    ensures p.opts.watermarkPosition == q.opts.watermarkPosition && p.opts.watermarkX == q.opts.watermarkX
    ensures p.opts.watermarkY == q.opts.watermarkY && p.opts.watermarkScale == q.opts.watermarkScale
  {
    assert OwnedBy(DPR, p) == OwnedBy(DPR, q);
    assert OwnedBy(MW, p) == OwnedBy(MW, q);
    assert OwnedBy(MH, p) == OwnedBy(MH, q);
    assert OwnedBy(WM, p) == OwnedBy(WM, q);
  }

  lemma SameFields6<F, D>(p: Progress<F, D>, q: Progress<F, D>)
    requires SameOwned(p, q)
    ensures p.opts.watermarkUrl == q.opts.watermarkUrl
    ensures p.opts.watermarkSize == q.opts.watermarkSize
    ensures p.opts.watermarkRotate == q.opts.watermarkRotate
    ensures p.opts.watermarkShadow == q.opts.watermarkShadow
  {
    assert OwnedBy(WMU, p) == OwnedBy(WMU, q);
    assert OwnedBy(WMS, p) == OwnedBy(WMS, q);
    assert OwnedBy(WMR, p) == OwnedBy(WMR, q);
    assert OwnedBy(WMSH, p) == OwnedBy(WMSH, q);
  }

  /** Between them the codes own every field but the resolved crop. */
  lemma OwnedIsAll<F, D>(p: Progress<F, D>, q: Progress<F, D>)
    requires SameOwned(p, q) && p.opts.crop == q.opts.crop
    ensures p == q
  {
    hide OwnedBy, SameOwned;
    SameFields0(p, q);
    SameFields1(p, q);
    SameFields2(p, q);
    SameFields3(p, q);
    SameFields4(p, q);
    SameFields5(p, q);
    SameFields6(p, q);
  }

  // ---------------------------------------------------------------------------------------------
  // Reordering
  // ---------------------------------------------------------------------------------------------

  /** The updates of one code, in order. */
  function OfCode<F, D>(us: seq<Update<F, D>>, code: Code): seq<Update<F, D>> {
    if us == [] then []
    else if us[0].Code() == code then [us[0]] + OfCode(us[1..], code)
    else OfCode(us[1..], code)
  }

  /** The fields of a code, after a list of updates, come from the updates of that code alone. */
  lemma {:induction false} OwnedAfter<F, D>(us: seq<Update<F, D>>, p: Progress<F, D>, q: Progress<F, D>, code: Code)
    requires OwnedBy(code, p) == OwnedBy(code, q)
    ensures OwnedBy(code, AssignAll(us, p)) == OwnedBy(code, AssignAll(OfCode(us, code), q))
    decreases |us|
  {
    hide OwnedBy, Assign;
    if us != [] {
      if us[0].Code() == code {
        AssignOwned(us[0], p, q);
        OwnedAfter(us[1..], Assign(us[0], p), Assign(us[0], q), code);
        var own := OfCode(us, code);
        assert own[0] == us[0] && own[1..] == OfCode(us[1..], code);
      } else {
        AssignElsewhere(us[0], p, code);
        OwnedAfter(us[1..], Assign(us[0], p), q, code);
      }
    }
  }

  lemma {:induction false} AssignAllKeepsCrop<F, D>(us: seq<Update<F, D>>, p: Progress<F, D>)
    ensures AssignAll(us, p).opts.crop == p.opts.crop
    decreases |us|
  {
    hide Assign;
    if us != [] {
      AssignKeepsCrop(us[0], p);
      AssignAllKeepsCrop(us[1..], Assign(us[0], p));
    }
  }

  /** Updates with the same order within each code give the same result. */
  lemma AssignAllUpToOrder<F, D>(us: seq<Update<F, D>>, vs: seq<Update<F, D>>, p: Progress<F, D>)
    requires forall code :: OfCode(us, code) == OfCode(vs, code)
    ensures AssignAll(us, p) == AssignAll(vs, p)
  {
    hide OwnedBy, Assign;
    forall code
      ensures OwnedBy(code, AssignAll(us, p)) == OwnedBy(code, AssignAll(vs, p))
    {
      OwnedAfter(us, p, p, code);
      OwnedAfter(vs, p, p, code);
    }
    AssignAllKeepsCrop(us, p);
    AssignAllKeepsCrop(vs, p);
    OwnedIsAll(AssignAll(us, p), AssignAll(vs, p));
  }

  /** The segments with one code text, in order. */
  function WithCode(segments: seq<string>, text: string): seq<string> {
    if segments == [] then []
    else if CodeOf(segments[0]) == text then [segments[0]] + WithCode(segments[1..], text)
    else WithCode(segments[1..], text)
  }

  /** One list is a reordering of the other that keeps the order of the segments of every code. */
  ghost predicate SameWithinCodes(a: seq<string>, b: seq<string>) {
    forall text :: WithCode(a, text) == WithCode(b, text)
  }

  lemma {:induction false} WithCodeHas(segments: seq<string>, text: string, s: string)
    ensures s in WithCode(segments, text) <==> s in segments && CodeOf(s) == text
    decreases |segments|
  {
    hide CodeOf;
    if segments != [] {
      WithCodeHas(segments[1..], text, s);
      assert segments == [segments[0]] + segments[1..];
    }
  }

  lemma DecodedCode<F, D>(lib: Library<F, D>, segment: string)
    ensures var u := Decode(lib, segment);
            u.Ok? ==> CodeText(u.value.Code()) == CodeOf(segment) && ReadCode(CodeOf(segment)) == Some(u.value.Code())
  {
    hide Split, CodeOf, DecodeArgs, CodeText;
    var code := ReadCode(CodeOf(segment));
    if code.Some? {
      DecodedArgsCode(lib, code.value, Split(segment, ':')[1..]);
      CodeTextOfRead(CodeOf(segment), code.value);
    }
  }

  lemma DecodedArgsCode<F, D>(lib: Library<F, D>, code: Code, args: seq<string>)
    ensures var u := DecodeArgs(lib, code, args); u.Some? ==> u.value.Code() == code
  {
    hide DecodeSingle, ParseBackground, ParseGravity, ParseTrim, ParsePadding, ParseZoom, ParseResize, DecodeJpeg,
         ParseCrop, DecodeFlip, ParseWatermark, DecodeSize, ParseFormatQuality;
    DecodedShapes(lib, args);
    if |args| == 1 {
      DecodedSingleCode(lib, code, args[0]);
    }
  }

  lemma DecodedShapes<F, D>(lib: Library<F, D>, args: seq<string>)
    ensures var u := ParseResize<F, D>(args); u.Some? ==> u.value.SetResize?
    ensures var u := DecodeJpeg<F, D>(args); u.Some? ==> u.value.SetJpeg?
    ensures var u := ParseCrop(lib, args); u.Some? ==> u.value.SetCrop?
    ensures var u := DecodeFlip<F, D>(args); u.Some? ==> u.value.SetFlip?
    ensures var u := ParseWatermark(lib, args); u.Some? ==> u.value.SetWatermark?
    ensures var u := DecodeSize<F, D>(args); u.Some? ==> u.value.SetWatermarkSize?
  {
    hide ParseCropDimension, ParseGravity, Optional, ParseDimension, ParseU32, ReadResizeType;
  }

  lemma DecodedSingleCode<F, D>(lib: Library<F, D>, code: Code, arg: string)
    ensures var u := DecodeSingle(lib, code, arg); u.Some? ==> u.value.Code() == code
  {
    hide ParseBounded, ParseWebp, ParseMaxBytes, ParseBool, ParseRotateAngle, ParsePositive, ParseDimension;
  }

  lemma CodeTextOfRead(text: string, code: Code)
    requires ReadCode(text) == Some(code)
    ensures CodeText(code) == text
  {
  }

  lemma ReadOfCodeText(code: Code)
    ensures ReadCode(CodeText(code)) == Some(code)
  {
  }

  lemma {:induction false} DecodesIffEach<F, D>(lib: Library<F, D>, segments: seq<string>)
    ensures DecodeAll(lib, segments).Ok? <==> forall s <- segments :: Decode(lib, s).Ok?
    decreases |segments|
  {
    hide Decode;
    if segments != [] {
      DecodesIffEach(lib, segments[1..]);
      assert segments == [segments[0]] + segments[1..];
    }
  }

  /** Decoding and then picking a code is picking the code's segments and then decoding. */
  lemma {:induction false} OfCodeOfDecoded<F, D>(lib: Library<F, D>, segments: seq<string>, code: Code)
    requires DecodeAll(lib, segments).Ok?
    ensures DecodeAll(lib, WithCode(segments, CodeText(code))) == Ok(OfCode(DecodeAll(lib, segments).value, code))
    decreases |segments|
  {
    hide Decode, CodeOf, CodeText, ReadCode;
    if segments != [] {
      var us := DecodeAll(lib, segments).value;
      OfCodeOfDecoded(lib, segments[1..], code);
      assert us[0] == Decode(lib, segments[0]).value && us[1..] == DecodeAll(lib, segments[1..]).value;
      DecodedCode(lib, segments[0]);
      ReadOfCodeText(code);
      if CodeOf(segments[0]) == CodeText(code) {
        var own := WithCode(segments, CodeText(code));
        assert own[0] == segments[0] && own[1..] == WithCode(segments[1..], CodeText(code));
      }
    }
  }

  /**
   Reordering the segments, keeping the order within each code, changes neither whether they parse nor
   what they parse to.
   */
  lemma ParseUpToOrder<F, D>(lib: Library<F, D>, a: seq<string>, b: seq<string>)
    requires SameWithinCodes(a, b)
    ensures ParseOptions(lib, a).Ok? <==> ParseOptions(lib, b).Ok?
    ensures ParseOptions(lib, a).Ok? ==> ParseOptions(lib, a) == ParseOptions(lib, b)
  {
    hide Decode, CodeOf, OfCode, AssignAll, ResolveCrop;
    forall s
      ensures s in a <==> s in b
    {
      WithCodeHas(a, CodeOf(s), s);
      WithCodeHas(b, CodeOf(s), s);
    }
    DecodesIffEach(lib, a);
    DecodesIffEach(lib, b);
    if DecodeAll(lib, a).Ok? {
      forall code
        ensures OfCode(DecodeAll(lib, a).value, code) == OfCode(DecodeAll(lib, b).value, code)
      {
        OfCodeOfDecoded(lib, a, code);
        OfCodeOfDecoded(lib, b, code);
      }
      AssignAllUpToOrder(DecodeAll(lib, a).value, DecodeAll(lib, b).value, Start(lib));
    }
  }

  lemma {:induction false} WithCodeAppend(a: seq<string>, b: seq<string>, text: string)
    ensures WithCode(a + b, text) == WithCode(a, text) + WithCode(b, text)
    decreases |a|
  {
    hide CodeOf;
    var all := a + b;
    if a == [] {
      assert all == b;
    } else {
      assert all[0] == a[0] && all[1..] == a[1..] + b;
      WithCodeAppend(a[1..], b, text);
      ConcatAssociative([a[0]], WithCode(a[1..], text), WithCode(b, text));
    }
  }

  /**
   Two neighbours with different codes change places without changing the result: `c` before or after `gr`,
   or any other pair.
   */
  lemma NeighboursCommute<F, D>(lib: Library<F, D>, front: seq<string>, s: string, t: string, back: seq<string>)
    requires CodeOf(s) != CodeOf(t)
    ensures var a, b := ParseOptions(lib, front + ([s, t] + back)), ParseOptions(lib, front + ([t, s] + back));
            (a.Ok? <==> b.Ok?) && (a.Ok? ==> a == b)
  {
    hide CodeOf, ParseOptions;
    forall text
      ensures WithCode(front + ([s, t] + back), text) == WithCode(front + ([t, s] + back), text)
    {
      WithCodeAppend(front, [s, t] + back, text);
      WithCodeAppend(front, [t, s] + back, text);
      WithCodeAppend([s, t], back, text);
      WithCodeAppend([t, s], back, text);
      assert [s, t][1..] == [t] && [t, s][1..] == [s];
      assert WithCode([s, t], text) == WithCode([t, s], text);
    }
    ParseUpToOrder(lib, front + ([s, t] + back), front + ([t, s] + back));
  }
}

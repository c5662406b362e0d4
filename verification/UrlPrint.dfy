/**
 The printer of single option segments, and the updates that it can print: a printed segment decodes to the
 update it was printed from, and no argument of it holds a separator.
 */
module UrlPrint {
  import opened Common
  import opened Text
  import opened Params
  import opened UrlOptions
  import opened UrlOrder

  // ---------------------------------------------------------------------------------------------
  // Well-formed values
  // ---------------------------------------------------------------------------------------------

  predicate Positive(n: Option<nat>, bound: nat) {
    n.Some? ==> 1 <= n.value < bound
  }

  predicate Percent(n: Option<nat>) {
    n.Some? ==> n.value <= 100
  }

  predicate ValidRgb(c: Rgb) {
    c.r < 256 && c.g < 256 && c.b < 256
  }

  predicate ValidDimension<F, D>(lib: Library<F, D>, d: CropDimension<D>) {
    match d
    case Full => true
    case Absolute(n) => 1 <= n < TWO_32
    case Relative(f) => lib.extent(f) == Fraction
  }

  predicate ValidGravity<F, D>(lib: Library<F, D>, g: Gravity<D>) {
    g.FocusPoint? ==> lib.inUnit(g.x) && lib.inUnit(g.y)
  }

  predicate ValidRaw<F, D>(lib: Library<F, D>, raw: RawCrop<D>) {
    && ValidDimension(lib, raw.width) && ValidDimension(lib, raw.height)
    && (raw.gravity.Some? ==> ValidGravity(lib, raw.gravity.value))
  }

  predicate ValidAngle(a: int) {
    a == 0 || a == 90 || a == 180 || a == 270
  }

  predicate ValidTrim<F, D>(lib: Library<F, D>, t: Trim<F>) {
    !lib.negative(t.threshold) && (t.color.Some? ==> ValidRgb(t.color.value))
  }

  predicate ValidPadding(p: Padding) {
    p.top < TWO_32 && p.right < TWO_32 && p.bottom < TWO_32 && p.left < TWO_32
  }

  predicate ValidUpdate<F, D>(lib: Library<F, D>, u: Update<F, D>) {
    match u
    case SetResize(_, width, height) => Positive(width, TWO_32) && Positive(height, TWO_32)
    case SetQuality(quality) => quality <= 100
    case SetFormatQuality(jpeg, webp) => (jpeg.Some? || webp.Some?) && Percent(jpeg) && Percent(webp)
    case SetMaxBytes(bytes) => Positive(bytes, TWO_64)
    case SetBackground(color) => ValidRgb(color)
    case SetCrop(raw) => ValidRaw(lib, raw)
    case SetGravity(gravity) => ValidGravity(lib, gravity)
    case SetRotate(angle) => ValidAngle(angle)
    case SetTrim(trim) => ValidTrim(lib, trim)
    case SetPadding(padding) => ValidPadding(padding)
    case SetZoom(x, y) => lib.positive(x) && lib.positive(y)
    case SetDpr(dpr) => lib.positive(dpr)
    case SetMinWidth(width) => Positive(width, TWO_32)
    case SetMinHeight(height) => Positive(height, TWO_32)
    case SetWatermarkSize(size) => size.0 < TWO_32 && size.1 < TWO_32
    case _ => true
  }

  // ---------------------------------------------------------------------------------------------
  // Printing
  // ---------------------------------------------------------------------------------------------

  function PrintBool(b: bool): string {
    if b then "1" else "0"
  }

  function PrintSlot<X>(x: Option<X>, show: X -> string): string {
    if x.None? then "" else show(x.value)
  }

  function PrintDimension(n: Option<nat>): string {
    if n.None? then "0" else Decimal(n.value)
  }

  function PrintCropDimension<F, D>(lib: Library<F, D>, d: CropDimension<D>): string {
    match d
    case Full => "0"
    case Absolute(n) => Decimal(n)
    case Relative(f) => lib.showD(f)
  }

  function PrintGravity<F, D>(lib: Library<F, D>, g: Gravity<D>): seq<string> {
    match g
    case Anchored(anchor) => [ShowAnchor(anchor)]
    case FocusPoint(x, y) => ["fp", lib.showD(x), lib.showD(y)]
  }

  function HexByte(n: nat): string
    requires n < 256
  {
    [DigitChar(n / 16), DigitChar(n % 16)]
  }

  function PrintHex(c: Rgb): string
    requires ValidRgb(c)
  {
    HexByte(c.r) + HexByte(c.g) + HexByte(c.b)
  }

  function PrintArgs<F, D>(lib: Library<F, D>, u: Update<F, D>): seq<string>
    requires ValidUpdate(lib, u)
  {
    match u
    case SetResize(kind, width, height) => [ShowResizeType(kind), PrintDimension(width), PrintDimension(height)]
    case SetQuality(quality) => [Decimal(quality)]
    case SetFormatQuality(jpeg, webp) =>
      (if jpeg.Some? then ["jpg", Decimal(jpeg.value)] else [])
      + (if webp.Some? then ["webp", Decimal(webp.value)] else [])
    case SetWebpLossless(lossless) => [if lossless then "lossless" else "lossy"]
    case SetJpeg(progressive, noSubsampling) => [PrintSlot(progressive, PrintBool), PrintSlot(noSubsampling, PrintBool)]
    case SetMaxBytes(bytes) => [PrintDimension(bytes)]
    case SetBlur(sigma) => [lib.showF(sigma)]
    case SetGrayscale(on) => [PrintBool(on)]
    case SetEnlarge(on) => [PrintBool(on)]
    case SetBackground(color) => [Decimal(color.r), Decimal(color.g), Decimal(color.b)]
    case SetAutorotate(on) => [PrintBool(on)]
    case SetStripMetadata(on) => [PrintBool(on)]
    case SetCrop(raw) =>
      [PrintCropDimension(lib, raw.width), PrintCropDimension(lib, raw.height)]
      + (if raw.gravity.Some? then PrintGravity(lib, raw.gravity.value) else [])
    case SetGravity(gravity) => PrintGravity(lib, gravity)
    case SetRotate(angle) => [Decimal(angle)]
    case SetFlip(horizontal, vertical) => [PrintSlot(horizontal, PrintBool), PrintSlot(vertical, PrintBool)]
    case SetTrim(trim) =>
      [lib.showF(trim.threshold), if trim.color.Some? then PrintHex(trim.color.value) else "",
       PrintBool(trim.equalHor), PrintBool(trim.equalVer)]
    case SetExtend(on) => [PrintBool(on)]
    case SetPadding(p) => [Decimal(p.top), Decimal(p.right), Decimal(p.bottom), Decimal(p.left)]
    case SetZoom(x, y) => [lib.showF(x), lib.showF(y)]
    case SetDpr(dpr) => [lib.showF(dpr)]
    case SetMinWidth(width) => [PrintDimension(width)]
    case SetMinHeight(height) => [PrintDimension(height)]
    case SetWatermark(opacity, position, x, y, scale) =>
      [lib.showF(opacity), PrintSlot(position, ShowAnchor), PrintSlot(x, lib.showF), PrintSlot(y, lib.showF),
       PrintSlot(scale, lib.showF)]
    case SetWatermarkUrl(url) => [lib.encode(url)]
    case SetWatermarkSize(size) => [Decimal(size.0), Decimal(size.1)]
    case SetWatermarkRotate(degrees) => [lib.showF(degrees)]
    case SetWatermarkShadow(sigma) => [lib.showF(sigma)]
  }

  function PrintUpdate<F, D>(lib: Library<F, D>, u: Update<F, D>): string
    requires ValidUpdate(lib, u)
  {
    Join([CodeText(u.Code())] + PrintArgs(lib, u), ':')
  }

  // ---------------------------------------------------------------------------------------------
  // Reading one printed segment
  // ---------------------------------------------------------------------------------------------

  lemma ReadsDecimal(n: nat, bound: nat)
    requires n < bound
    ensures ParseUnsigned(Decimal(n), 10, bound) == Some(n)
    ensures Decimal(n) != "" && (forall c <- Decimal(n) :: '0' <= c <= '9')
  {
    ParseNumeral(n, 10, bound);
    NumeralDigits(n, 10);
  }

  lemma ReadsDimension(n: Option<nat>, bound: nat)
    requires bound > 0 && Positive(n, bound)
    ensures ParseUnsigned(PrintDimension(n), 10, bound) == Some(UnwrapOr(n, 0))
    ensures forall c <- PrintDimension(n) :: '0' <= c <= '9'
  {
    ReadsDecimal(UnwrapOr(n, 0), bound);
    assert Decimal(0) == "0";
  }

  lemma ReadsBool(b: bool)
    ensures ParseBool(PrintBool(b)) == Some(b) && PrintBool(b) != ""
  {
  }

  /** A printed optional slot reads as the option it came from. */
  lemma ReadsSlot<X>(args: seq<string>, i: nat, x: Option<X>, show: X -> string, parse: string -> Option<X>)
    requires i < |args| && args[i] == PrintSlot(x, show)
    requires x.Some? ==> show(x.value) != "" && parse(show(x.value)) == x
    ensures Optional(Slot(args, i), parse) == Some(x)
  {
  }

  lemma ReadsHex(c: Rgb)
    requires ValidRgb(c)
    ensures ParseHexColor(PrintHex(c)) == Some(c) && PrintHex(c) != ""
    ensures forall x <- PrintHex(c) :: '0' <= x <= '9' || 'a' <= x <= 'f'
  {
    ReadsHexByte(c.r);
    ReadsHexByte(c.g);
    ReadsHexByte(c.b);
    hide HexByte, ParseUnsigned, DigitValue;
    var s := PrintHex(c);
    assert s[0..2] == HexByte(c.r) && s[2..4] == HexByte(c.g) && s[4..6] == HexByte(c.b);
  }

  lemma ReadsHexByte(n: nat)
    requires n < 256
    ensures ParseUnsigned(HexByte(n), 16, 256) == Some(n) && |HexByte(n)| == 2
    ensures forall x <- HexByte(n) :: DigitValue(x, 16).Some? && ('0' <= x <= '9' || 'a' <= x <= 'f')
  {
    var h, l := DigitChar(n / 16), DigitChar(n % 16);
    DigitCharValue(n / 16, 16);
    DigitCharValue(n % 16, 16);
    hide DigitValue;
    assert [h, l][..1] == [h] && [h][..0] == "";
    assert Value("", 16) == Some(0);
    assert Value([h], 16) == Some(n / 16);
    assert Value([h, l], 16) == Some(n / 16 * 16 + n % 16);
    assert h != '+' && l != '+';
  }

  lemma ReadsCropDimension<F(!new), D(!new)>(lib: Library<F, D>, d: CropDimension<D>)
    requires Lawful(lib) && ValidDimension(lib, d)
    ensures ParseCropDimension(lib, PrintCropDimension(lib, d)) == Some(d)
    ensures forall c <- PrintCropDimension(lib, d) :: c != ':' && c != '/'
  {
    hide Numeral;
    if d.Absolute? {
      NumeralDigits(d.pixels, 10);
    } else if d.Relative? {
      assert PlainText(lib.showD(d.fraction));
    }
  }

  lemma ReadsGravity<F(!new), D(!new)>(lib: Library<F, D>, g: Gravity<D>)
    requires Lawful(lib) && ValidGravity(lib, g)
    ensures ParseGravity(lib, PrintGravity(lib, g)) == Some(g)
    ensures forall t <- PrintGravity(lib, g), c <- t :: c != ':' && c != '/'
  {
    if g.FocusPoint? {
      assert PlainText(lib.showD(g.x)) && PlainText(lib.showD(g.y));
    } else {
      EnumerationsReadBack(Jpg, Fit, g.anchor);
    }
  }

  lemma ReadsAngle(a: int)
    requires ValidAngle(a)
    ensures ParseRotateAngle(Decimal(a)) == Some(a)
  {
    ReadsUnsigned(a);
    hide ParseI32, Decimal;
  }

  lemma ReadsUnsigned(n: nat)
    requires n < 0x8000_0000
    ensures ParseI32(Decimal(n)) == Some(n)
  {
    hide Numeral, Value;
    ParseNumeral(n, 10, 0x8000_0000);
    NumeralDigits(n, 10);
    assert Decimal(n)[0] in Decimal(n);
  }

  /** Updates whose one argument is a switch. */
  predicate IsSwitch<F, D>(u: Update<F, D>) {
    u.SetGrayscale? || u.SetEnlarge? || u.SetAutorotate? || u.SetStripMetadata? || u.SetExtend?
  }

  lemma DecodesSwitch<F, D>(lib: Library<F, D>, u: Update<F, D>)
    requires IsSwitch(u)
    ensures DecodeArgs(lib, u.Code(), PrintArgs(lib, u)) == Some(u)
  {
    ReadsBool(true);
    ReadsBool(false);
    hide ParseBool, PrintBool;
  }

  /** Updates whose one argument is a number. */
  predicate IsNumber<F, D>(u: Update<F, D>) {
    u.SetQuality? || u.SetMaxBytes? || u.SetRotate? || u.SetMinWidth? || u.SetMinHeight?
  }

  lemma DecodesNumber<F, D>(lib: Library<F, D>, u: Update<F, D>)
    requires IsNumber(u) && ValidUpdate(lib, u)
    ensures DecodeArgs(lib, u.Code(), PrintArgs(lib, u)) == Some(u)
  {
    hide Numeral, ParseUnsigned, ParseRotateAngle, PrintDimension, Decimal;
    match u
    case SetQuality(n) => ReadsDecimal(n, 256);
    case SetMaxBytes(n) => ReadsDimension(n, TWO_64);
    case SetRotate(a) => ReadsAngle(a);
    case SetMinWidth(n) => ReadsDimension(n, TWO_32);
    case SetMinHeight(n) => ReadsDimension(n, TWO_32);
  }

  /** Updates whose arguments are floats, a word or a URL. */
  predicate IsText<F, D>(u: Update<F, D>) {
    || u.SetBlur? || u.SetDpr? || u.SetWatermarkUrl? || u.SetWatermarkRotate? || u.SetWatermarkShadow?
    || u.SetWebpLossless? || u.SetZoom?
  }

  lemma DecodesText<F(!new), D(!new)>(lib: Library<F, D>, u: Update<F, D>)
    requires Lawful(lib) && IsText(u) && ValidUpdate(lib, u)
    ensures DecodeArgs(lib, u.Code(), PrintArgs(lib, u)) == Some(u)
  {
  }

  lemma DecodesResize<F, D>(kind: ResizeType, width: Option<nat>, height: Option<nat>)
    requires Positive(width, TWO_32) && Positive(height, TWO_32)
    ensures ParseResize<F, D>([ShowResizeType(kind), PrintDimension(width), PrintDimension(height)])
         == Some(SetResize(kind, width, height))
  {
    hide ParseUnsigned, PrintDimension;
    EnumerationsReadBack(Jpg, kind, Center);
    ReadsDimension(width, TWO_32);
    ReadsDimension(height, TWO_32);
  }

  lemma DecodesFormatQuality<F, D>(jpeg: Option<nat>, webp: Option<nat>)
    requires (jpeg.Some? || webp.Some?) && Percent(jpeg) && Percent(webp)
    ensures var args := (if jpeg.Some? then ["jpg", Decimal(jpeg.value)] else [])
                        + (if webp.Some? then ["webp", Decimal(webp.value)] else []);
            args != [] && |args| % 2 == 0
            && ParseFormatQuality<F, D>(args) == Some(SetFormatQuality(jpeg, webp))
  {
    hide ParseUnsigned, Numeral;
    var first := if jpeg.Some? then ["jpg", Decimal(jpeg.value)] else [];
    var args := first + (if webp.Some? then ["webp", Decimal(webp.value)] else []);
    assert ParseFormatQuality<F, D>([]) == Some(SetFormatQuality(None, None));
    if jpeg.Some? {
      ReadsDecimal(jpeg.value, 256);
      assert first[..0] == [];
    }
    if webp.Some? {
      ReadsDecimal(webp.value, 256);
      assert args[..|args| - 2] == first;
    } else {
      assert args == first;
    }
  }

  lemma DecodesSwitchPair<F, D>(a: Option<bool>, b: Option<bool>)
    ensures var args := [PrintSlot(a, PrintBool), PrintSlot(b, PrintBool)];
            && DecodeJpeg<F, D>(args) == Some(SetJpeg(a, b))
            && DecodeFlip<F, D>(args) == Some(SetFlip(a, b))
  {
    var args := [PrintSlot(a, PrintBool), PrintSlot(b, PrintBool)];
    if a.Some? { ReadsBool(a.value); }
    if b.Some? { ReadsBool(b.value); }
    hide ParseBool, PrintBool;
    ReadsSlot(args, 0, a, PrintBool, ParseBool);
    ReadsSlot(args, 1, b, PrintBool, ParseBool);
    hide Optional, Slot;
  }

  lemma DecodesCrop<F(!new), D(!new)>(lib: Library<F, D>, raw: RawCrop<D>)
    requires Lawful(lib) && ValidRaw(lib, raw)
    ensures ParseCrop(lib, PrintArgs(lib, SetCrop(raw))) == Some(SetCrop(raw))
  {
    hide ParseCropDimension, PrintCropDimension, ParseGravity, PrintGravity;
    ReadsCropDimension(lib, raw.width);
    ReadsCropDimension(lib, raw.height);
    var args := PrintArgs(lib, SetCrop(raw));
    if raw.gravity.Some? {
      ReadsGravity(lib, raw.gravity.value);
      GravityTokens(lib, raw.gravity.value);
      assert args[2..] == PrintGravity(lib, raw.gravity.value);
    }
  }

  lemma GravityTokens<F, D>(lib: Library<F, D>, g: Gravity<D>)
    ensures |PrintGravity(lib, g)| >= 1
  {
  }

  lemma DecodesTrim<F(!new), D(!new)>(lib: Library<F, D>, t: Trim<F>)
    requires Lawful(lib) && ValidTrim(lib, t)
    ensures ParseTrim(lib, PrintArgs(lib, SetTrim(t))) == Some(t)
  {
    var args := PrintArgs(lib, SetTrim(t));
    assert PlainText(lib.showF(t.threshold));
    if t.color.Some? { ReadsHex(t.color.value); }
    ReadsBool(t.equalHor);
    ReadsBool(t.equalVer);
    hide ParseBool, PrintBool, ParseHexColor, PrintHex;
    assert Optional(Slot(args, 1), ParseHexColor) == Some(t.color);
    assert Optional(Slot(args, 2), ParseBool) == Some(Some(t.equalHor));
    assert Optional(Slot(args, 3), ParseBool) == Some(Some(t.equalVer));
    hide Optional, Slot;
  }

  lemma DecodesPadding(p: Padding)
    requires ValidPadding(p)
    ensures ParsePadding([Decimal(p.top), Decimal(p.right), Decimal(p.bottom), Decimal(p.left)]) == Some(p)
  {
    hide ParseUnsigned, Numeral, Decimal;
    ReadsDecimal(p.top, TWO_32);
    ReadsDecimal(p.right, TWO_32);
    ReadsDecimal(p.bottom, TWO_32);
    ReadsDecimal(p.left, TWO_32);
  }

  lemma DecodesWatermark<F(!new), D(!new)>(
    lib: Library<F, D>, opacity: F, position: Option<Anchor>, x: Option<F>, y: Option<F>, scale: Option<F>)
    requires Lawful(lib)
    ensures ParseWatermark(lib, PrintArgs(lib, SetWatermark(opacity, position, x, y, scale)))
         == Some(SetWatermark(opacity, position, x, y, scale))
  {
    var args := PrintArgs(lib, SetWatermark(opacity, position, x, y, scale));
    if position.Some? { EnumerationsReadBack(Jpg, Fit, position.value); }
    AnchorText(position);
    FloatSlot(lib, args, 2, x);
    FloatSlot(lib, args, 3, y);
    FloatSlot(lib, args, 4, scale);
    hide ReadAnchor, ShowAnchor;
    ReadsSlot(args, 1, position, ShowAnchor, ReadAnchor);
    hide Optional, Slot;
  }

  lemma AnchorText(position: Option<Anchor>)
    ensures position.Some? ==> ShowAnchor(position.value) != ""
  {
  }

  lemma FloatSlot<F(!new), D(!new)>(lib: Library<F, D>, args: seq<string>, i: nat, x: Option<F>)
    requires Lawful(lib) && i < |args| && args[i] == PrintSlot(x, lib.showF)
    ensures Optional(Slot(args, i), lib.readF) == Some(x)
  {
    if x.Some? {
      assert PlainText(lib.showF(x.value));
    }
  }

  /** Updates with a fixed number of numeric arguments. */
  predicate IsTuple<F, D>(u: Update<F, D>) {
    u.SetResize? || u.SetBackground? || u.SetPadding? || u.SetWatermarkSize?
  }

  lemma DecodesTuple<F, D>(lib: Library<F, D>, u: Update<F, D>)
    requires IsTuple(u) && ValidUpdate(lib, u)
    ensures DecodeArgs(lib, u.Code(), PrintArgs(lib, u)) == Some(u)
  {
    hide ParseUnsigned, Numeral, Decimal, ParseResize, ParsePadding, PrintDimension, ShowResizeType, DecodeSingle;
    match u
    case SetResize(kind, width, height) => DecodesResize<F, D>(kind, width, height);
    case SetBackground(c) => ReadsDecimal(c.r, 256); ReadsDecimal(c.g, 256); ReadsDecimal(c.b, 256);
    case SetPadding(p) => DecodesPadding(p);
    case SetWatermarkSize(size) => ReadsDecimal(size.0, TWO_32); ReadsDecimal(size.1, TWO_32);
  }

  /** Updates with optional slots or a varying number of arguments. */
  predicate IsList<F, D>(u: Update<F, D>) {
    || u.SetFormatQuality? || u.SetJpeg? || u.SetFlip? || u.SetCrop? || u.SetGravity? || u.SetTrim?
    || u.SetWatermark?
  }

  lemma DecodesList<F(!new), D(!new)>(lib: Library<F, D>, u: Update<F, D>)
    requires Lawful(lib) && IsList(u) && ValidUpdate(lib, u)
    ensures DecodeArgs(lib, u.Code(), PrintArgs(lib, u)) == Some(u)
  {
    hide Numeral, ParseFormatQuality, DecodeJpeg, DecodeFlip, ParseCrop, ParseTrim, ParseWatermark, ParseGravity,
         PrintGravity, PrintCropDimension, PrintHex, PrintSlot, PrintBool, DecodeSingle, Lawful;
    match u
    case SetFormatQuality(jpeg, webp) => DecodesFormatQuality<F, D>(jpeg, webp);
    case SetJpeg(a, b) => DecodesSwitchPair<F, D>(a, b);
    case SetFlip(a, b) => DecodesSwitchPair<F, D>(a, b);
    case SetCrop(raw) => DecodesCrop(lib, raw);
    case SetGravity(g) => ReadsGravity(lib, g);
    case SetTrim(t) => DecodesTrim(lib, t);
    case SetWatermark(o, p, x, y, s) => DecodesWatermark(lib, o, p, x, y, s);
  }

  /** The arguments printed for an update are decoded as that update. */
  lemma DecodesArgs<F(!new), D(!new)>(lib: Library<F, D>, u: Update<F, D>)
    requires Lawful(lib) && ValidUpdate(lib, u)
    ensures DecodeArgs(lib, u.Code(), PrintArgs(lib, u)) == Some(u)
  {
    hide DecodeArgs, PrintArgs, ValidUpdate, Lawful;
    if IsSwitch(u) {
      DecodesSwitch(lib, u);
    } else if IsNumber(u) {
      DecodesNumber(lib, u);
    } else if IsText(u) {
      DecodesText(lib, u);
    } else if IsTuple(u) {
      DecodesTuple(lib, u);
    } else {
      DecodesList(lib, u);
    }
  }

  /** Text with none of the separators of a path segment. */
  predicate Clean(s: string) {
    forall c <- s :: c != ':' && c != '/'
  }

  lemma DecimalClean(n: nat)
    ensures Clean(Decimal(n))
  {
    NumeralDigits(n, 10);
    hide Numeral;
  }

  lemma DimensionClean(n: Option<nat>)
    ensures Clean(PrintDimension(n))
  {
    if n.Some? { DecimalClean(n.value); }
    hide Numeral;
  }

  lemma FloatClean<F(!new), D(!new)>(lib: Library<F, D>, x: Option<F>)
    requires Lawful(lib)
    ensures Clean(PrintSlot(x, lib.showF)) && (x.Some? ==> Clean(lib.showF(x.value)))
  {
    if x.Some? { assert PlainText(lib.showF(x.value)); }
  }

  lemma FixedTextClean(kind: ResizeType, position: Option<Anchor>, b: bool, s: Option<bool>)
    ensures Clean(ShowResizeType(kind)) && Clean(PrintSlot(position, ShowAnchor)) && Clean(PrintBool(b))
    ensures Clean(PrintSlot(s, PrintBool))
  {
  }

  lemma CodeTextClean(code: Code)
    ensures Clean(CodeText(code))
  {
  }

  lemma HexClean(c: Option<Rgb>)
    requires c.Some? ==> ValidRgb(c.value)
    ensures c.Some? ==> Clean(PrintHex(c.value))
  {
    if c.Some? { ReadsHex(c.value); }
    hide PrintHex;
  }

  lemma EarlierArgsClean<F(!new), D(!new)>(lib: Library<F, D>, u: Update<F, D>)
    requires Lawful(lib) && ValidUpdate(lib, u) && Quarter(u.Code()) < 2
    ensures PrintArgs(lib, u) != [] && forall a <- PrintArgs(lib, u) :: Clean(a)
  {
    hide Numeral, Decimal, PrintDimension, ShowResizeType, ShowAnchor, PrintBool, PrintHex, Clean, PrintGravity,
         PrintCropDimension, CodeText, PrintSlot;
    match u
    case SetResize(kind, width, height) =>
      FixedTextClean(kind, None, true, None); DimensionClean(width); DimensionClean(height);
    case SetQuality(n) => DecimalClean(n);
    case SetFormatQuality(jpeg, webp) =>
      FormatNamesClean();
      if jpeg.Some? { DecimalClean(jpeg.value); }
      if webp.Some? { DecimalClean(webp.value); }
    case SetWebpLossless(b) => FormatNamesClean();
    case SetJpeg(a, b) => FixedTextClean(Fit, None, true, a); FixedTextClean(Fit, None, true, b);
    case SetMaxBytes(n) => DimensionClean(n);
    case SetBlur(f) => FloatClean(lib, Some(f));
    case SetGrayscale(b) => FixedTextClean(Fit, None, b, None);
    case SetEnlarge(b) => FixedTextClean(Fit, None, b, None);
    case SetBackground(c) => DecimalClean(c.r); DecimalClean(c.g); DecimalClean(c.b);
    case SetAutorotate(b) => FixedTextClean(Fit, None, b, None);
    case SetStripMetadata(b) => FixedTextClean(Fit, None, b, None);
    case SetCrop(raw) => CropClean(lib, raw);
    case SetGravity(g) => GravityClean(lib, g);
  }

  lemma LaterArgsClean<F(!new), D(!new)>(lib: Library<F, D>, u: Update<F, D>)
    requires Lawful(lib) && ValidUpdate(lib, u) && Quarter(u.Code()) >= 2
    ensures PrintArgs(lib, u) != [] && forall a <- PrintArgs(lib, u) :: Clean(a)
  {
    hide Numeral, Decimal, PrintDimension, ShowResizeType, ShowAnchor, PrintBool, PrintHex, Clean, PrintGravity,
         PrintCropDimension, CodeText, PrintSlot;
    match u
    case SetRotate(a) => DecimalClean(a);
    case SetFlip(a, b) => FixedTextClean(Fit, None, true, a); FixedTextClean(Fit, None, true, b);
    case SetTrim(t) =>
      FloatClean(lib, Some(t.threshold)); HexClean(t.color); FormatNamesClean();
      FixedTextClean(Fit, None, t.equalHor, None); FixedTextClean(Fit, None, t.equalVer, None);
    case SetExtend(b) => FixedTextClean(Fit, None, b, None);
    case SetPadding(p) => DecimalClean(p.top); DecimalClean(p.right); DecimalClean(p.bottom); DecimalClean(p.left);
    case SetZoom(x, y) => FloatClean(lib, Some(x)); FloatClean(lib, Some(y));
    case SetDpr(f) => FloatClean(lib, Some(f));
    case SetMinWidth(n) => DimensionClean(n);
    case SetMinHeight(n) => DimensionClean(n);
    case SetWatermark(o, p, x, y, s) =>
      FloatClean(lib, Some(o)); FixedTextClean(Fit, p, true, None);
      FloatClean(lib, x); FloatClean(lib, y); FloatClean(lib, s);
    case SetWatermarkUrl(url) => EncodedClean(lib, url);
    case SetWatermarkSize(size) => DecimalClean(size.0); DecimalClean(size.1);
    case SetWatermarkRotate(f) => FloatClean(lib, Some(f));
    case SetWatermarkShadow(f) => FloatClean(lib, Some(f));
  }

  /** No argument holds a separator, and there is always at least one argument. */
  lemma ArgsClean<F(!new), D(!new)>(lib: Library<F, D>, u: Update<F, D>)
    requires Lawful(lib) && ValidUpdate(lib, u)
    ensures PrintArgs(lib, u) != [] && forall a <- PrintArgs(lib, u) :: Clean(a)
  {
    hide Lawful, ValidUpdate, PrintArgs, Clean;
    if Quarter(u.Code()) < 2 {
      EarlierArgsClean(lib, u);
    } else {
      LaterArgsClean(lib, u);
    }
  }

  lemma FormatNamesClean()
    ensures Clean("jpg") && Clean("webp") && Clean("lossless") && Clean("lossy") && Clean("")
  {
  }

  lemma EncodedClean<F(!new), D(!new)>(lib: Library<F, D>, url: string)
    requires Lawful(lib)
    ensures Clean(lib.encode(url))
  {
  }

  lemma GravityClean<F(!new), D(!new)>(lib: Library<F, D>, g: Gravity<D>)
    requires Lawful(lib) && ValidGravity(lib, g)
    ensures PrintGravity(lib, g) != [] && forall a <- PrintGravity(lib, g) :: Clean(a)
  {
    ReadsGravity(lib, g);
  }

  lemma CropClean<F(!new), D(!new)>(lib: Library<F, D>, raw: RawCrop<D>)
    requires Lawful(lib) && ValidRaw(lib, raw)
    ensures forall a <- PrintArgs(lib, SetCrop(raw)) :: Clean(a)
  {
    hide PrintCropDimension, PrintGravity;
    ReadsCropDimension(lib, raw.width);
    ReadsCropDimension(lib, raw.height);
    if raw.gravity.Some? {
      GravityClean(lib, raw.gravity.value);
    }
  }

  /** A printed segment decodes to the update it was printed from. */
  lemma DecodesPrinted<F(!new), D(!new)>(lib: Library<F, D>, u: Update<F, D>)
    requires Lawful(lib) && ValidUpdate(lib, u)
    ensures Decode(lib, PrintUpdate(lib, u)) == Ok(u)
  {
    hide PrintArgs, DecodeArgs, CodeText, ReadCode, Lawful, ValidUpdate, Split, Join;
    var parts := [CodeText(u.Code())] + PrintArgs(lib, u);
    ArgsClean(lib, u);
    CodeTextClean(u.Code());
    SplitOfJoin(parts, ':');
    assert parts[1..] == PrintArgs(lib, u);
    DecodesArgs(lib, u);
    ReadOfCodeText(u.Code());
  }
}

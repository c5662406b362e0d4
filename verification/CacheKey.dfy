/**
 The byte stream that the cache key hashes: one version byte, then every field of the query as a
 length-prefixed byte string. Two queries feed the hash the same bytes exactly when they agree on every
 field, up to two folds: a blur that does nothing is no blur, and a watermark URL that spells `None` is no URL.
 */
module CacheKey {
  import opened Common
  import opened Text
  import opened Params

  const CACHE_KEY_VERSION: Byte := 11

  // ---------------------------------------------------------------------------------------------
  // UTF-8
  // ---------------------------------------------------------------------------------------------

  /** The UTF-8 bytes of one character. */
  function Utf8Char(c: char): (bs: Bytes)
    ensures 1 <= |bs| <= 4 && (c < 128 as char ==> bs == [c as int])
  {
    var n := c as int;
    if n < 0x80 then [n]
    else if n < 0x800 then [0xC0 + n / 0x40, 0x80 + n % 0x40]
    else if n < 0x1_0000 then [0xE0 + n / 0x1000, 0x80 + n / 0x40 % 0x40, 0x80 + n % 0x40]
    else [0xF0 + n / 0x4_0000, 0x80 + n / 0x1000 % 0x40, 0x80 + n / 0x40 % 0x40, 0x80 + n % 0x40]
  }

  function Utf8(s: string): Bytes {
    if s == "" then [] else Utf8Char(s[0]) + Utf8(s[1..])
  }

  /** The first byte tells how long a character is, and the bytes tell which one it is. */
  lemma Utf8CharPrefixFree(c: char, d: char, rest: Bytes, tail: Bytes)
    requires Utf8Char(c) + rest == Utf8Char(d) + tail
    ensures c == d && rest == tail
  {
    var x, y := Utf8Char(c), Utf8Char(d);
    var all := x + rest;
    assert all[0] == x[0] && all[0] == y[0];
    Utf8Length(c);
    Utf8Length(d);
    assert |x| == |y|;
    assert x == all[..|x|] == y;
    assert rest == all[|x|..] == tail;
    Utf8CharInjective(c, d);
  }

  lemma Utf8Length(c: char)
    ensures var b := Utf8Char(c)[0];
            |Utf8Char(c)| == if b < 0x80 then 1 else if b < 0xE0 then 2 else if b < 0xF0 then 3 else 4
  {
  }

  lemma Utf8CharInjective(c: char, d: char)
    requires Utf8Char(c) == Utf8Char(d)
    ensures c == d
  {
    SixBits(c as int);
    SixBits(d as int);
    var x, y := Utf8Char(c), Utf8Char(d);
    assert x[0] == y[0];
    if |x| >= 2 { assert x[1] == y[1]; }
    if |x| >= 3 { assert x[2] == y[2]; }
    if |x| >= 4 { assert x[3] == y[3]; }
    hide Utf8Char;
    assert c as int == d as int;
  }

  lemma SixBits(n: nat)
    ensures n == n / 0x40 * 0x40 + n % 0x40
    ensures n / 0x40 == n / 0x1000 * 0x40 + n / 0x40 % 0x40
    ensures n / 0x1000 == n / 0x4_0000 * 0x40 + n / 0x1000 % 0x40
  {
    assert n / 0x40 / 0x40 == n / 0x1000;
    assert n / 0x1000 / 0x40 == n / 0x4_0000;
  }

  /** The code point that a UTF-8 sequence stands for, by section 3 of RFC 3629. */
  function CodePoint(bs: seq<int>): int
    requires 1 <= |bs| <= 4
  {
    if |bs| == 1 then bs[0]
    else if |bs| == 2 then (bs[0] - 192) * 64 + (bs[1] - 128)
    else if |bs| == 3 then (bs[0] - 224) * 4096 + (bs[1] - 128) * 64 + (bs[2] - 128)
    else (bs[0] - 240) * 262144 + (bs[1] - 128) * 4096 + (bs[2] - 128) * 64 + (bs[3] - 128)
  }

  /** The bytes of a character stand for it, in the shortest form, behind a lead byte of their number. */
  lemma Utf8StandsFor(c: char)
    ensures var bs, n := Utf8Char(c), c as int;
            && CodePoint(bs) == n
            && |bs| == (if n <= 0x7F then 1 else if n <= 0x7FF then 2 else if n <= 0xFFFF then 3 else 4)
            && (|bs| == 2 ==> 0xC2 <= bs[0] <= 0xDF) && (|bs| == 3 ==> 0xE0 <= bs[0] <= 0xEF)
            && (|bs| == 4 ==> 0xF0 <= bs[0] <= 0xF4) && forall i | 1 <= i < |bs| :: 0x80 <= bs[i] <= 0xBF
  {
    SixBits(c as int);
  }

  lemma {:induction false} Utf8Injective(s: string, t: string)
    requires Utf8(s) == Utf8(t)
    ensures s == t
    decreases |s|
  {
    hide Utf8Char;
    if s != "" && t != "" {
      Utf8CharPrefixFree(s[0], t[0], Utf8(s[1..]), Utf8(t[1..]));
      Utf8Injective(s[1..], t[1..]);
      assert s == [s[0]] + s[1..] && t == [t[0]] + t[1..];
    }
  }

  // ---------------------------------------------------------------------------------------------
  // Length-prefixed fields
  // ---------------------------------------------------------------------------------------------

  /** A field with its length in front, cast to 32 bits. */
  function PrefixedField(f: Bytes): Bytes {
    ToBigEndian(|f| % TWO_32, 4) + f
  }

  function EncodeFields(fields: seq<Bytes>): Bytes {
    if fields == [] then [] else PrefixedField(fields[0]) + EncodeFields(fields[1..])
  }

  /** Every field is short enough for its length to fit the prefix. */
  predicate Short(fields: seq<Bytes>) {
    forall f <- fields :: |f| < TWO_32
  }

  lemma PrefixReadsBack(f: Bytes)
    requires |f| < TWO_32
    ensures PrefixedField(f) == ToBigEndian(|f|, 4) + f && BigEndian(ToBigEndian(|f|, 4)) == |f|
  {
    hide ToBigEndian, BigEndian, Capacity;
    var n := |f|;
    assert n < Capacity(4) by { Capacities(); }
    BigEndianOfWritten(n, 4);
    SmallModulo(n, TWO_32);
  }

  lemma SmallModulo(n: nat, m: nat)
    requires n < m
    ensures n % m == n
  {
  }

  lemma PrefixFree(f: Bytes, g: Bytes, rest: Bytes, tail: Bytes)
    requires |f| < TWO_32 && |g| < TWO_32 && PrefixedField(f) + rest == PrefixedField(g) + tail
    ensures f == g && rest == tail
  {
    PrefixReadsBack(f);
    PrefixReadsBack(g);
    hide ToBigEndian, BigEndian, PrefixedField;
    var a, b := ToBigEndian(|f|, 4), ToBigEndian(|g|, 4);
    ConcatAssociative(a, f, rest);
    ConcatAssociative(b, g, tail);
    SamePrefix(a, b, f + rest, g + tail);
    SamePrefix(f, g, rest, tail);
  }

  /** Two concatenations with first parts of the same length agree part by part. */
  lemma SamePrefix<T>(a: seq<T>, b: seq<T>, rest: seq<T>, tail: seq<T>)
    requires |a| == |b| && a + rest == b + tail
    ensures a == b && rest == tail
  {
    var all := a + rest;
    assert a == all[..|a|] && b == all[..|a|];
    assert rest == all[|a|..] && tail == all[|a|..];
  }

  /** The encoding of a list of fields determines the list, even when the lists differ in length. */
  lemma {:induction false} EncodeFieldsInjective(fs: seq<Bytes>, gs: seq<Bytes>)
    requires Short(fs) && Short(gs) && EncodeFields(fs) == EncodeFields(gs)
    ensures fs == gs
    decreases |fs|
  {
    if fs != [] && gs != [] {
      hide PrefixedField;
      PrefixFree(fs[0], gs[0], EncodeFields(fs[1..]), EncodeFields(gs[1..]));
      EncodeFieldsInjective(fs[1..], gs[1..]);
      assert fs == [fs[0]] + fs[1..] && gs == [gs[0]] + gs[1..];
    }
  }

  lemma {:induction false} EncodeFieldsAppend(fs: seq<Bytes>, f: Bytes)
    ensures EncodeFields(fs + [f]) == EncodeFields(fs) + PrefixedField(f)
    decreases |fs|
  {
    hide PrefixedField;
    var all := fs + [f];
    if fs == [] {
      assert all[0] == f && all[1..] == [];
    } else {
      assert all[0] == fs[0] && all[1..] == fs[1..] + [f];
      EncodeFieldsAppend(fs[1..], f);
      ConcatAssociative(PrefixedField(fs[0]), EncodeFields(fs[1..]), PrefixedField(f));
    }
  }

  lemma {:induction false} EncodeFieldsConcat(fs: seq<Bytes>, gs: seq<Bytes>)
    ensures EncodeFields(fs + gs) == EncodeFields(fs) + EncodeFields(gs)
    decreases |fs|
  {
    hide PrefixedField;
    var all := fs + gs;
    if fs == [] {
      assert all == gs;
    } else {
      assert all[0] == fs[0] && all[1..] == fs[1..] + gs;
      EncodeFieldsConcat(fs[1..], gs);
      ConcatAssociative(PrefixedField(fs[0]), EncodeFields(fs[1..]), EncodeFields(gs));
    }
  }

  lemma EncodeOne(f: Bytes)
    ensures EncodeFields([f]) == PrefixedField(f)
  {
    hide PrefixedField;
    assert [f][1..] == [] && EncodeFields([]) == [];
    assert PrefixedField(f) + [] == PrefixedField(f);
  }

  /** A field of exactly 2 to the 32 bytes has the same prefix as an empty one. */
  lemma PrefixWraps(f: Bytes)
    requires |f| == TWO_32
    ensures PrefixedField(f) == PrefixedField([]) + f
  {
    hide ToBigEndian;
    assert PrefixedField(f) == ToBigEndian(0, 4) + f;
    assert PrefixedField([]) == ToBigEndian(0, 4) + [];
    assert ToBigEndian(0, 4) + [] == ToBigEndian(0, 4);
  }

  /** Many empty fields: four bytes each. */
  function EmptyFields(k: nat): (fs: seq<Bytes>)
    ensures |fs| == k
  {
    seq(k, i => [])
  }

  lemma {:induction false} EmptyFieldsSize(k: nat)
    ensures |EncodeFields(EmptyFields(k))| == 4 * k
    decreases k
  {
    hide ToBigEndian;
    if k > 0 {
      assert EmptyFields(k)[1..] == EmptyFields(k - 1);
      EmptyFieldsSize(k - 1);
    }
  }

  predicate AtMost(fields: seq<Bytes>, n: nat) {
    forall f <- fields :: |f| <= n
  }

  /** The encoding determines lists whose fields have at most `n` bytes. */
  ghost predicate InjectiveUpTo(n: nat) {
    forall fs, gs :: AtMost(fs, n) && AtMost(gs, n) && EncodeFields(fs) == EncodeFields(gs) ==> fs == gs
  }

  /** Two lists, one of them a single field of 2 to the 32 bytes, with one encoding. */
  lemma WrappedCollision(n: nat, k: nat)
    requires n >= TWO_32 && 4 * k == TWO_32
    ensures !InjectiveUpTo(n)
  {
    EmptyFieldsSize(k);
    var fields := EmptyFields(k);
    var field := EncodeFields(fields);
    PrefixWraps(field);
    EncodeOne(field);
    EncodeOne([]);
    EncodeFieldsConcat([[]], fields);
    hide EncodeFields, PrefixedField, EmptyFields;
    var split := [[]] + fields;
    assert forall f <- [field] :: |f| <= n;
    assert AtMost([field], n);
    assert AtMost(split, n) by { NothingIsLong(k, n); }
    assert EncodeFields([field]) == EncodeFields(split);
    assert split[0] != [field][0];
  }

  lemma NothingIsLong(k: nat, n: nat)
    ensures AtMost([[]] + EmptyFields(k), n)
  {
  }

  /** Exactly how long a field may be: the 32-bit prefix keeps lists apart below 2 to the 32 bytes, and no further. */
  lemma PrefixBound(n: nat)
    ensures InjectiveUpTo(n) <==> n < TWO_32
  {
    hide EncodeFields;
    if n < TWO_32 {
      forall fs, gs | AtMost(fs, n) && AtMost(gs, n) && EncodeFields(fs) == EncodeFields(gs)
        ensures fs == gs
      {
        EncodeFieldsInjective(fs, gs);
      }
    } else {
      WrappedCollision(n, 0x4000_0000);
    }
  }

  // ---------------------------------------------------------------------------------------------
  // The fields of a query
  // ---------------------------------------------------------------------------------------------

  const NONE: string := "None"

  function ShowBool(b: bool): string {
    if b then "true" else "false"
  }

  function ShowGravity<F, D>(lib: Library<F, D>, g: Gravity<D>): string {
    match g
    case Anchored(anchor) => ShowAnchor(anchor)
    case FocusPoint(x, y) => Join(["fp", lib.showD(x), lib.showD(y)], ':')
  }

  function ShowCropDimension<F, D>(lib: Library<F, D>, d: CropDimension<D>): string {
    match d
    case Full => "full"
    case Absolute(n) => Join(["abs", Decimal(n)], ':')
    case Relative(f) => Join(["rel", lib.showD(f)], ':')
  }

  /** The `Debug` text of a watermark position. */
  function ShowPosition(a: Anchor): string {
    match a
    case Center => "Center"
    case North => "North"
    case South => "South"
    case East => "East"
    case West => "West"
    case NorthEast => "NorthEast"
    case NorthWest => "NorthWest"
    case SouthEast => "SouthEast"
    case SouthWest => "SouthWest"
  }

  function ShowPadding(p: Padding): string {
    Join([Decimal(p.top), Decimal(p.right), Decimal(p.bottom), Decimal(p.left)], ':')
  }

  function ShowSize(size: (nat, nat)): string {
    Join([Decimal(size.0), Decimal(size.1)], 'x')
  }

  /** A field that may be missing: its text, or `None`. */
  function OptionField<X>(x: Option<X>, show: X -> string): Bytes {
    Utf8(if x.Some? then show(x.value) else NONE)
  }

  /** A quality: the byte itself, or `None`. */
  function QualityField(n: Option<nat>): Bytes {
    if n.Some? then [n.value % 256] else Utf8(NONE)
  }

  function ColorField(c: Option<Rgb>): Bytes {
    if c.Some? then [c.value.r % 256, c.value.g % 256, c.value.b % 256] else Utf8(NONE)
  }

  /** Every blur that the pipeline does not apply reads `None`. */
  function CanonicalBlur<F, D>(lib: Library<F, D>, sigma: Option<F>): string {
    if sigma.Some? && lib.positive(sigma.value) then lib.showF(sigma.value) else NONE
  }

  function SizeFields<F, D>(lib: Library<F, D>, q: Query<F, D>): seq<Bytes> {
    [Utf8(q.url), OptionField(q.width, Decimal), OptionField(q.height, Decimal), Utf8(ShowResizeType(q.resizeType)),
     Utf8(ShowFormat(q.format)), Utf8(CanonicalBlur(lib, q.blurSigma)), OptionField(q.grayscale, ShowBool),
     Utf8(ShowBool(q.enlarge))]
  }

  function EncodingFields<F, D>(lib: Library<F, D>, q: Query<F, D>): seq<Bytes> {
    [QualityField(q.quality), QualityField(q.jpegQuality), QualityField(q.webpQuality),
     OptionField(q.webpLossless, ShowBool), OptionField(q.jpegProgressive, ShowBool),
     OptionField(q.jpegNoSubsampling, ShowBool), OptionField(q.maxBytes, Decimal), ColorField(q.background),
     Utf8(ShowBool(q.autorotate)), Utf8(ShowGravity(lib, q.gravity))]
  }

  /** One field without a crop, three with one. */
  function CropFields<F, D>(lib: Library<F, D>, crop: Option<Crop<D>>): seq<Bytes> {
    if crop.None? then [Utf8(NONE)]
    else [Utf8(ShowCropDimension(lib, crop.value.width)), Utf8(ShowCropDimension(lib, crop.value.height)),
          Utf8(ShowGravity(lib, crop.value.gravity))]
  }

  function TurnFields<F, D>(q: Query<F, D>): seq<Bytes> {
    [Utf8(ShowInt(q.rotate)), Utf8(ShowBool(q.flipHorizontal)), Utf8(ShowBool(q.flipVertical))]
  }

  /** One field without a trim, four with one. */
  function TrimFields<F, D>(lib: Library<F, D>, trim: Option<Trim<F>>): seq<Bytes> {
    if trim.None? then [Utf8(NONE)]
    else [Utf8(lib.showF(trim.value.threshold)), ColorField(trim.value.color), Utf8(ShowBool(trim.value.equalHor)),
          Utf8(ShowBool(trim.value.equalVer))]
  }

  /** One field without a watermark, nine with one. */
  function WatermarkFields<F, D>(lib: Library<F, D>, watermark: Option<Watermark<F>>): seq<Bytes> {
    if watermark.None? then [Utf8(NONE)]
    else
      var w := watermark.value;
      [Utf8(lib.showF(w.opacity)), Utf8(ShowPosition(w.position)), Utf8(lib.showF(w.xOffset)),
       Utf8(lib.showF(w.yOffset)), Utf8(lib.showF(w.scale)), Utf8(if w.url.Some? then w.url.value else NONE),
       OptionField(w.size, ShowSize), Utf8(lib.showF(w.rotate)), OptionField(w.shadow, lib.showF)]
  }

  function CanvasFields<F, D>(lib: Library<F, D>, q: Query<F, D>): seq<Bytes> {
    [Utf8(ShowBool(q.extend)), OptionField(q.padding, ShowPadding), Utf8(lib.showF(q.zoomX)), Utf8(lib.showF(q.zoomY)),
     Utf8(lib.showF(q.dpr)), OptionField(q.minWidth, Decimal), OptionField(q.minHeight, Decimal),
     Utf8(ShowBool(q.stripMetadata))]
  }

  function Fields<F, D>(lib: Library<F, D>, q: Query<F, D>): seq<Bytes> {
    SizeFields(lib, q) + (EncodingFields(lib, q) + (CropFields(lib, q.crop) + (TurnFields(q)
    + (TrimFields(lib, q.trim) + (WatermarkFields(lib, q.watermark) + CanvasFields(lib, q))))))
  }

  /** Everything the hash is fed for a query. */
  function Stream<F, D>(lib: Library<F, D>, q: Query<F, D>): Bytes {
    [CACHE_KEY_VERSION] + EncodeFields(Fields(lib, q))
  }

  /** The ranges of the source's 8-bit fields. */
  predicate Typed<F, D>(q: Query<F, D>) {
    && (q.quality.Some? ==> q.quality.value < 256)
    && (q.jpegQuality.Some? ==> q.jpegQuality.value < 256)
    && (q.webpQuality.Some? ==> q.webpQuality.value < 256)
    && (q.background.Some? ==> TypedColor(q.background.value))
    && (q.trim.Some? && q.trim.value.color.Some? ==> TypedColor(q.trim.value.color.value))
  }

  predicate TypedColor(c: Rgb) {
    c.r < 256 && c.g < 256 && c.b < 256
  }

  function CanonicalWatermark<F>(w: Option<Watermark<F>>): Option<Watermark<F>> {
    if w.Some? && w.value.url == Some(NONE) then Some(w.value.(url := None)) else w
  }

  /** A blur that does nothing is no blur. */
  function ActiveBlur<F, D>(lib: Library<F, D>, sigma: Option<F>): Option<F> {
    if sigma.Some? && lib.positive(sigma.value) then sigma else None
  }

  /** A query with the two folds carried out. */
  function Canonical<F, D>(lib: Library<F, D>, q: Query<F, D>): Query<F, D> {
    q.(blurSigma := ActiveBlur(lib, q.blurSigma), watermark := CanonicalWatermark(q.watermark))
  }

  /** A missing field reads `None` in ASCII, and so does a missing group. */
  lemma MissingTexts<X, F, D>(lib: Library<F, D>, show: X -> string)
    ensures OptionField(None, show) == Ascii("None")
    ensures QualityField(None) == Ascii("None") && ColorField(None) == Ascii("None")
    ensures CropFields(lib, None) == [Ascii("None")] && TrimFields(lib, None) == [Ascii("None")]
    ensures WatermarkFields(lib, None) == [Ascii("None")]
  {
    Utf8Spelled("None");
    hide Utf8, Ascii;
  }

  /** The stream starts with the version of its layout. */
  lemma VersionFirst<F, D>(lib: Library<F, D>, q: Query<F, D>)
    ensures Stream(lib, q) != [] && Stream(lib, q)[0] == 11
  {
    hide EncodeFields, Fields;
  }

  /** Switches read `true` and `false` in ASCII, and a quality is its one byte. */
  lemma PresentTexts(n: nat)
    requires n < 256
    ensures Utf8(ShowBool(true)) == Ascii("true") && Utf8(ShowBool(false)) == Ascii("false")
    ensures QualityField(Some(n)) == [n]
  {
    Utf8Spelled("true");
    Utf8Spelled("false");
    hide Utf8, Ascii;
  }

  function Ascii(s: string): Bytes {
    seq(|s|, i requires 0 <= i < |s| => if s[i] < 128 as char then s[i] as int else 0)
  }

  lemma {:induction false} Utf8Spelled(s: string)
    requires forall c <- s :: c < 128 as char
    ensures Utf8(s) == Ascii(s)
    decreases |s|
  {
    hide Utf8Char;
    if s != "" {
      assert s[0] in s && forall c <- s[1..] :: c in s;
      Utf8Spelled(s[1..]);
      assert Ascii(s) == [s[0] as int] + Ascii(s[1..]);
    }
  }

  // ---------------------------------------------------------------------------------------------
  // Each text determines its value
  // ---------------------------------------------------------------------------------------------

  lemma DecimalText(n: nat)
    ensures PlainText(Decimal(n)) && Decimal(n)[0] != 'N' && Decimal(n)[0] != '-'
  {
    NumeralDigits(n, 10);
    hide Numeral;
    assert Decimal(n)[0] in Decimal(n);
    assert NONE[0] == 'N';
  }

  /** A number field is missing or present, and which number it is, by its bytes. */
  lemma NumberFields(x: Option<nat>, y: Option<nat>)
    requires OptionField(x, Decimal) == OptionField(y, Decimal)
    ensures x == y
  {
    if x.Some? { DecimalText(x.value); }
    if y.Some? { DecimalText(y.value); }
    hide Numeral;
    Utf8Injective(if x.Some? then Decimal(x.value) else NONE, if y.Some? then Decimal(y.value) else NONE);
    if x.Some? && y.Some? {
      NumeralInjective(x.value, y.value, 10);
    }
  }

  lemma BoolTexts(a: bool, b: bool)
    requires Utf8(ShowBool(a)) == Utf8(ShowBool(b))
    ensures a == b
  {
    hide Utf8;
    Utf8Injective(ShowBool(a), ShowBool(b));
    assert "true"[0] != "false"[0];
  }

  lemma SwitchFields(x: Option<bool>, y: Option<bool>)
    requires OptionField(x, ShowBool) == OptionField(y, ShowBool)
    ensures x == y
  {
    hide Utf8;
    Utf8Injective(if x.Some? then ShowBool(x.value) else NONE, if y.Some? then ShowBool(y.value) else NONE);
    assert "true"[0] == 't' && "false"[0] == 'f' && NONE[0] == 'N';
  }

  lemma FloatTexts<F(!new), D(!new)>(lib: Library<F, D>, f: F, g: F)
    requires FloatLaws(lib) && Utf8(lib.showF(f)) == Utf8(lib.showF(g))
    ensures f == g
  {
    hide Utf8, PlainText;
    Utf8Injective(lib.showF(f), lib.showF(g));
    assert lib.readF(lib.showF(f)) == lib.readF(lib.showF(g));
  }

  lemma FloatFields<F(!new), D(!new)>(lib: Library<F, D>, x: Option<F>, y: Option<F>)
    requires FloatLaws(lib) && OptionField(x, lib.showF) == OptionField(y, lib.showF)
    ensures x == y
  {
    hide Utf8;
    Utf8Injective(if x.Some? then lib.showF(x.value) else NONE, if y.Some? then lib.showF(y.value) else NONE);
    if x.Some? { assert PlainText(lib.showF(x.value)); }
    if y.Some? { assert PlainText(lib.showF(y.value)); }
    hide PlainText;
    if x.Some? && y.Some? {
      assert lib.readF(lib.showF(x.value)) == lib.readF(lib.showF(y.value));
    }
  }

  /** Pieces without the separator are recovered from their join. */
  lemma JoinInjective(a: seq<string>, b: seq<string>, c: char)
    requires a != [] && b != [] && (forall p <- a :: c !in p) && (forall p <- b :: c !in p)
    requires Join(a, c) == Join(b, c)
    ensures a == b
  {
    hide Join;
    SplitOfJoin(a, c);
    SplitOfJoin(b, c);
  }

  /** The pieces of a gravity's text. */
  function GravityPieces<F, D>(lib: Library<F, D>, g: Gravity<D>): seq<string> {
    match g
    case Anchored(anchor) => [ShowAnchor(anchor)]
    case FocusPoint(x, y) => ["fp", lib.showD(x), lib.showD(y)]
  }

  lemma GravityIsJoin<F(!new), D(!new)>(lib: Library<F, D>, g: Gravity<D>)
    requires FloatLaws(lib)
    ensures GravityPieces(lib, g) != [] && ShowGravity(lib, g) == Join(GravityPieces(lib, g), ':')
    ensures forall p <- GravityPieces(lib, g) :: ':' !in p
  {
    if g.FocusPoint? {
      assert PlainText(lib.showD(g.x)) && PlainText(lib.showD(g.y));
    }
  }

  lemma GravityTexts<F(!new), D(!new)>(lib: Library<F, D>, g: Gravity<D>, h: Gravity<D>)
    requires FloatLaws(lib) && Utf8(ShowGravity(lib, g)) == Utf8(ShowGravity(lib, h))
    ensures g == h
  {
    hide Utf8, ShowGravity, Join, ShowAnchor;
    Utf8Injective(ShowGravity(lib, g), ShowGravity(lib, h));
    GravityIsJoin(lib, g);
    GravityIsJoin(lib, h);
    JoinInjective(GravityPieces(lib, g), GravityPieces(lib, h), ':');
    var a, b := GravityPieces(lib, g), GravityPieces(lib, h);
    if g.Anchored? && h.Anchored? {
      assert a[0] == b[0];
      EnumerationsReadBack(Jpg, Fit, g.anchor);
      EnumerationsReadBack(Jpg, Fit, h.anchor);
    } else if g.FocusPoint? && h.FocusPoint? {
      assert a[1] == b[1] && a[2] == b[2];
      assert lib.readD(lib.showD(g.x)) == lib.readD(lib.showD(h.x));
      assert lib.readD(lib.showD(g.y)) == lib.readD(lib.showD(h.y));
    }
  }

  function CropPieces<F, D>(lib: Library<F, D>, d: CropDimension<D>): seq<string> {
    match d
    case Full => ["full"]
    case Absolute(n) => ["abs", Decimal(n)]
    case Relative(f) => ["rel", lib.showD(f)]
  }

  lemma CropIsJoin<F(!new), D(!new)>(lib: Library<F, D>, d: CropDimension<D>)
    requires FloatLaws(lib)
    ensures CropPieces(lib, d) != [] && ShowCropDimension(lib, d) == Join(CropPieces(lib, d), ':')
    ensures (forall p <- CropPieces(lib, d) :: ':' !in p) && "None" != CropPieces(lib, d)[0]
  {
    if d.Absolute? {
      DecimalText(d.pixels);
    } else if d.Relative? {
      assert PlainText(lib.showD(d.fraction));
    }
    hide Numeral;
    assert "full"[0] == 'f' && "abs"[0] == 'a' && "rel"[0] == 'r' && NONE[0] == 'N';
  }

  lemma CropTexts<F(!new), D(!new)>(lib: Library<F, D>, d: CropDimension<D>, e: CropDimension<D>)
    requires FloatLaws(lib) && Utf8(ShowCropDimension(lib, d)) == Utf8(ShowCropDimension(lib, e))
    ensures d == e
  {
    hide Utf8, ShowCropDimension, Join, Numeral;
    Utf8Injective(ShowCropDimension(lib, d), ShowCropDimension(lib, e));
    CropIsJoin(lib, d);
    CropIsJoin(lib, e);
    JoinInjective(CropPieces(lib, d), CropPieces(lib, e), ':');
    var a, b := CropPieces(lib, d), CropPieces(lib, e);
    assert a[0] == b[0];
    assert "abs"[0] == 'a' && "rel"[0] == 'r' && "full"[0] == 'f';
    if d.Absolute? {
      assert a[1] == b[1];
      NumeralInjective(d.pixels, e.pixels, 10);
    } else if d.Relative? {
      assert a[1] == b[1];
      assert lib.readD(lib.showD(d.fraction)) == lib.readD(lib.showD(e.fraction));
    }
  }

  /** No crop dimension spells `None`, so the first field tells whether there is a crop. */
  lemma CropIsNotNone<F(!new), D(!new)>(lib: Library<F, D>, d: CropDimension<D>)
    requires FloatLaws(lib)
    ensures Utf8(ShowCropDimension(lib, d)) != Utf8(NONE)
  {
    hide Utf8, ShowCropDimension, Join;
    if Utf8(ShowCropDimension(lib, d)) == Utf8(NONE) {
      Utf8Injective(ShowCropDimension(lib, d), NONE);
      CropIsJoin(lib, d);
      JoinOfOne(NONE);
      assert ':' !in NONE;
      JoinInjective(CropPieces(lib, d), [NONE], ':');
    }
  }

  lemma JoinOfOne(s: string)
    ensures Join([s], ':') == s
  {
  }

  lemma IntTexts(m: int, n: int)
    requires Utf8(ShowInt(m)) == Utf8(ShowInt(n))
    ensures m == n
  {
    hide Utf8, Numeral;
    Utf8Injective(ShowInt(m), ShowInt(n));
    DecimalText(if m < 0 then -m else m);
    DecimalText(if n < 0 then -n else n);
    if m < 0 {
      assert ShowInt(m)[0] == '-';
      assert ShowInt(m)[1..] == Decimal(-m) && ShowInt(n)[1..] == Decimal(-n);
      NumeralInjective(-m, -n, 10);
    } else {
      assert ShowInt(m)[0] == Decimal(m)[0];
      NumeralInjective(m, n, 10);
    }
  }

  lemma PositionTexts(a: Anchor, b: Anchor)
    requires Utf8(ShowPosition(a)) == Utf8(ShowPosition(b))
    ensures a == b
  {
    hide Utf8;
    Utf8Injective(ShowPosition(a), ShowPosition(b));
    assert ReadPosition(ShowPosition(a)) == a && ReadPosition(ShowPosition(b)) == b;
  }

  function ReadPosition(s: string): Anchor {
    match s
    case "North" => North
    case "South" => South
    case "East" => East
    case "West" => West
    case "NorthEast" => NorthEast
    case "NorthWest" => NorthWest
    case "SouthEast" => SouthEast
    case "SouthWest" => SouthWest
    case _ => Center
  }

  /** Decimals joined by a separator that is no digit. */
  lemma DecimalsInjective(a: seq<nat>, b: seq<nat>, c: char)
    requires |a| == |b| > 0 && (c == ':' || c == 'x')
    requires Join(Decimals(a), c) == Join(Decimals(b), c)
    ensures a == b
  {
    hide Join, Numeral;
    forall n: nat
      ensures c !in Decimal(n)
    {
      DecimalText(n);
    }
    JoinInjective(Decimals(a), Decimals(b), c);
    forall i | 0 <= i < |a|
      ensures a[i] == b[i]
    {
      assert Decimals(a)[i] == Decimals(b)[i];
      NumeralInjective(a[i], b[i], 10);
    }
  }

  function Decimals(ns: seq<nat>): seq<string> {
    seq(|ns|, i requires 0 <= i < |ns| => Decimal(ns[i]))
  }

  lemma NoneHasNoSeparator()
    ensures ':' !in NONE && 'x' !in NONE
  {
  }

  lemma {:induction false} JoinHasSeparator(parts: seq<string>, c: char)
    requires |parts| >= 2
    ensures c in Join(parts, c)
  {
    assert Join(parts, c)[|parts[0]|] == c;
  }

  lemma PaddingFields(x: Option<Padding>, y: Option<Padding>)
    requires OptionField(x, ShowPadding) == OptionField(y, ShowPadding)
    ensures x == y
  {
    hide Utf8, Join, Numeral;
    Utf8Injective(if x.Some? then ShowPadding(x.value) else NONE, if y.Some? then ShowPadding(y.value) else NONE);
    NoneHasNoSeparator();
    if x.Some? { PaddingParts(x.value); }
    if y.Some? { PaddingParts(y.value); }
    hide ShowPadding;
    if x.Some? && y.Some? {
      var p, q := x.value, y.value;
      DecimalsInjective([p.top, p.right, p.bottom, p.left], [q.top, q.right, q.bottom, q.left], ':');
    }
  }

  lemma PaddingParts(p: Padding)
    ensures ShowPadding(p) == Join(Decimals([p.top, p.right, p.bottom, p.left]), ':') && ':' in ShowPadding(p)
  {
    hide Numeral, Join;
    assert Decimals([p.top, p.right, p.bottom, p.left])
        == [Decimal(p.top), Decimal(p.right), Decimal(p.bottom), Decimal(p.left)];
    JoinHasSeparator(Decimals([p.top, p.right, p.bottom, p.left]), ':');
  }

  lemma SizeTexts(x: Option<(nat, nat)>, y: Option<(nat, nat)>)
    requires OptionField(x, ShowSize) == OptionField(y, ShowSize)
    ensures x == y
  {
    hide Utf8, Join, Numeral;
    Utf8Injective(if x.Some? then ShowSize(x.value) else NONE, if y.Some? then ShowSize(y.value) else NONE);
    NoneHasNoSeparator();
    if x.Some? { SizeParts(x.value); }
    if y.Some? { SizeParts(y.value); }
    hide ShowSize;
    if x.Some? && y.Some? {
      DecimalsInjective([x.value.0, x.value.1], [y.value.0, y.value.1], 'x');
    }
  }

  lemma SizeParts(size: (nat, nat))
    ensures ShowSize(size) == Join(Decimals([size.0, size.1]), 'x') && 'x' in ShowSize(size)
  {
    hide Numeral, Join;
    assert Decimals([size.0, size.1]) == [Decimal(size.0), Decimal(size.1)];
    JoinHasSeparator(Decimals([size.0, size.1]), 'x');
  }

  lemma NoneIsFourBytes()
    ensures |Utf8(NONE)| == 4
  {
    assert NONE[1..] == "one" && "one"[1..] == "ne" && "ne"[1..] == "e" && "e"[1..] == "";
    assert |Utf8("")| == 0 && |Utf8("e")| == 1 && |Utf8("ne")| == 2 && |Utf8("one")| == 3;
  }

  lemma QualityFields(x: Option<nat>, y: Option<nat>)
    requires QualityField(x) == QualityField(y)
    requires (x.Some? ==> x.value < 256) && (y.Some? ==> y.value < 256)
    ensures x == y
  {
    NoneIsFourBytes();
    hide Utf8;
    if x.Some? && y.Some? {
      assert QualityField(x)[0] == QualityField(y)[0];
    }
  }

  lemma ColorFields(x: Option<Rgb>, y: Option<Rgb>)
    requires ColorField(x) == ColorField(y)
    requires (x.Some? ==> TypedColor(x.value)) && (y.Some? ==> TypedColor(y.value))
    ensures x == y
  {
    NoneIsFourBytes();
    hide Utf8;
    if x.Some? && y.Some? {
      var a, b := ColorField(x), ColorField(y);
      assert a[0] == b[0] && a[1] == b[1] && a[2] == b[2];
    }
  }

  // ---------------------------------------------------------------------------------------------
  // The fields determine the query
  // ---------------------------------------------------------------------------------------------

  lemma BlurTexts<F(!new), D(!new)>(lib: Library<F, D>, x: Option<F>, y: Option<F>)
    requires FloatLaws(lib) && Utf8(CanonicalBlur(lib, x)) == Utf8(CanonicalBlur(lib, y))
    ensures ActiveBlur(lib, x) == ActiveBlur(lib, y)
  {
    hide Utf8;
    FloatFields(lib, ActiveBlur(lib, x), ActiveBlur(lib, y));
  }

  lemma SizeFieldsInjective<F(!new), D(!new)>(lib: Library<F, D>, q: Query<F, D>, r: Query<F, D>)
    requires FloatLaws(lib) && SizeFields(lib, q) == SizeFields(lib, r)
    ensures q.url == r.url && q.width == r.width && q.height == r.height && q.resizeType == r.resizeType
    ensures q.format == r.format && q.grayscale == r.grayscale && q.enlarge == r.enlarge
    ensures ActiveBlur(lib, q.blurSigma) == ActiveBlur(lib, r.blurSigma)
  {
    hide Utf8, OptionField, CanonicalBlur, ShowBool, ShowResizeType, ShowFormat, ReadResizeType, ReadFormat, ReadAnchor,
         ShowAnchor;
    var a, b := SizeFields(lib, q), SizeFields(lib, r);
    assert a[0] == b[0] && a[1] == b[1] && a[2] == b[2] && a[3] == b[3];
    assert a[4] == b[4] && a[5] == b[5] && a[6] == b[6] && a[7] == b[7];
    hide SizeFields, FloatLaws;
    Utf8Injective(q.url, r.url);
    NumberFields(q.width, r.width);
    NumberFields(q.height, r.height);
    Utf8Injective(ShowResizeType(q.resizeType), ShowResizeType(r.resizeType));
    Utf8Injective(ShowFormat(q.format), ShowFormat(r.format));
    EnumerationsReadBack(q.format, q.resizeType, Center);
    EnumerationsReadBack(r.format, r.resizeType, Center);
    BlurTexts(lib, q.blurSigma, r.blurSigma);
    SwitchFields(q.grayscale, r.grayscale);
    BoolTexts(q.enlarge, r.enlarge);
  }

  lemma EncodingFieldsInjective<F(!new), D(!new)>(lib: Library<F, D>, q: Query<F, D>, r: Query<F, D>)
    requires FloatLaws(lib) && Typed(q) && Typed(r) && EncodingFields(lib, q) == EncodingFields(lib, r)
    ensures q.quality == r.quality && q.jpegQuality == r.jpegQuality && q.webpQuality == r.webpQuality
    ensures q.webpLossless == r.webpLossless && q.jpegProgressive == r.jpegProgressive
    ensures q.jpegNoSubsampling == r.jpegNoSubsampling && q.maxBytes == r.maxBytes
    ensures q.background == r.background && q.autorotate == r.autorotate && q.gravity == r.gravity
  {
    hide Utf8, OptionField, QualityField, ColorField, ShowBool, ShowGravity, FloatLaws;
    var a, b := EncodingFields(lib, q), EncodingFields(lib, r);
    assert a[0] == b[0] && a[1] == b[1] && a[2] == b[2] && a[3] == b[3] && a[4] == b[4];
    assert a[5] == b[5] && a[6] == b[6] && a[7] == b[7] && a[8] == b[8] && a[9] == b[9];
    QualityFields(q.quality, r.quality);
    QualityFields(q.jpegQuality, r.jpegQuality);
    QualityFields(q.webpQuality, r.webpQuality);
    SwitchFields(q.webpLossless, r.webpLossless);
    SwitchFields(q.jpegProgressive, r.jpegProgressive);
    SwitchFields(q.jpegNoSubsampling, r.jpegNoSubsampling);
    NumberFields(q.maxBytes, r.maxBytes);
    ColorFields(q.background, r.background);
    BoolTexts(q.autorotate, r.autorotate);
    GravityTexts(lib, q.gravity, r.gravity);
  }

  /** The crop group ends where its first field says, and determines the crop. */
  lemma CropGroup<F(!new), D(!new)>(
    lib: Library<F, D>, c: Option<Crop<D>>, d: Option<Crop<D>>, rest: seq<Bytes>, tail: seq<Bytes>)
    requires FloatLaws(lib) && CropFields(lib, c) + rest == CropFields(lib, d) + tail
    ensures c == d && rest == tail
  {
    hide Utf8, ShowCropDimension, ShowGravity, FloatLaws;
    var a, b := CropFields(lib, c), CropFields(lib, d);
    assert (a + rest)[0] == a[0] && (b + tail)[0] == b[0];
    if c.Some? { CropIsNotNone(lib, c.value.width); }
    if d.Some? { CropIsNotNone(lib, d.value.width); }
    SamePrefix(a, b, rest, tail);
    if c.Some? {
      assert a[1] == b[1] && a[2] == b[2];
      CropTexts(lib, c.value.width, d.value.width);
      CropTexts(lib, c.value.height, d.value.height);
      GravityTexts(lib, c.value.gravity, d.value.gravity);
    }
  }

  lemma TurnFieldsInjective<F, D>(q: Query<F, D>, r: Query<F, D>)
    requires TurnFields(q) == TurnFields(r)
    ensures q.rotate == r.rotate && q.flipHorizontal == r.flipHorizontal && q.flipVertical == r.flipVertical
  {
    hide Utf8, ShowInt, ShowBool;
    var a, b := TurnFields(q), TurnFields(r);
    assert a[0] == b[0] && a[1] == b[1] && a[2] == b[2];
    IntTexts(q.rotate, r.rotate);
    BoolTexts(q.flipHorizontal, r.flipHorizontal);
    BoolTexts(q.flipVertical, r.flipVertical);
  }

  /** No float spells `None`, so a float in first place tells that its group is there. */
  lemma FloatIsNotNone<F(!new), D(!new)>(lib: Library<F, D>, f: F)
    requires FloatLaws(lib)
    ensures Utf8(lib.showF(f)) != Utf8(NONE)
  {
    hide Utf8;
    assert PlainText(lib.showF(f));
    if Utf8(lib.showF(f)) == Utf8(NONE) {
      Utf8Injective(lib.showF(f), NONE);
    }
  }

  lemma TrimGroup<F(!new), D(!new)>(
    lib: Library<F, D>, c: Option<Trim<F>>, d: Option<Trim<F>>, rest: seq<Bytes>, tail: seq<Bytes>)
    requires FloatLaws(lib) && TrimFields(lib, c) + rest == TrimFields(lib, d) + tail
    requires c.Some? && c.value.color.Some? ==> TypedColor(c.value.color.value)
    requires d.Some? && d.value.color.Some? ==> TypedColor(d.value.color.value)
    ensures c == d && rest == tail
  {
    hide Utf8, ColorField, ShowBool, FloatLaws;
    var a, b := TrimFields(lib, c), TrimFields(lib, d);
    assert (a + rest)[0] == a[0] && (b + tail)[0] == b[0];
    if c.Some? { FloatIsNotNone(lib, c.value.threshold); }
    if d.Some? { FloatIsNotNone(lib, d.value.threshold); }
    SamePrefix(a, b, rest, tail);
    if c.Some? {
      assert a[1] == b[1] && a[2] == b[2] && a[3] == b[3];
      FloatTexts(lib, c.value.threshold, d.value.threshold);
      ColorFields(c.value.color, d.value.color);
      BoolTexts(c.value.equalHor, d.value.equalHor);
      BoolTexts(c.value.equalVer, d.value.equalVer);
    }
  }

  lemma UrlFields(x: Option<string>, y: Option<string>)
    requires Utf8(if x.Some? then x.value else NONE) == Utf8(if y.Some? then y.value else NONE)
    ensures (if x == Some(NONE) then None else x) == (if y == Some(NONE) then None else y)
  {
    hide Utf8;
    Utf8Injective(if x.Some? then x.value else NONE, if y.Some? then y.value else NONE);
  }

  lemma WatermarkGroup<F(!new), D(!new)>(
    lib: Library<F, D>, c: Option<Watermark<F>>, d: Option<Watermark<F>>, rest: seq<Bytes>, tail: seq<Bytes>)
    requires FloatLaws(lib) && WatermarkFields(lib, c) + rest == WatermarkFields(lib, d) + tail
    ensures CanonicalWatermark(c) == CanonicalWatermark(d) && rest == tail
  {
    hide Utf8, ShowPosition, OptionField, FloatLaws;
    var a, b := WatermarkFields(lib, c), WatermarkFields(lib, d);
    assert (a + rest)[0] == a[0] && (b + tail)[0] == b[0];
    if c.Some? { FloatIsNotNone(lib, c.value.opacity); }
    if d.Some? { FloatIsNotNone(lib, d.value.opacity); }
    SamePrefix(a, b, rest, tail);
    if c.Some? {
      var v, w := c.value, d.value;
      assert a[1] == b[1] && a[2] == b[2] && a[3] == b[3] && a[4] == b[4];
      assert a[5] == b[5] && a[6] == b[6] && a[7] == b[7] && a[8] == b[8];
      FloatTexts(lib, v.opacity, w.opacity);
      PositionTexts(v.position, w.position);
      FloatTexts(lib, v.xOffset, w.xOffset);
      FloatTexts(lib, v.yOffset, w.yOffset);
      FloatTexts(lib, v.scale, w.scale);
      UrlFields(v.url, w.url);
      SizeTexts(v.size, w.size);
      FloatTexts(lib, v.rotate, w.rotate);
      FloatFields(lib, v.shadow, w.shadow);
    }
  }

  lemma CanvasFieldsInjective<F(!new), D(!new)>(lib: Library<F, D>, q: Query<F, D>, r: Query<F, D>)
    requires FloatLaws(lib) && CanvasFields(lib, q) == CanvasFields(lib, r)
    ensures q.extend == r.extend && q.padding == r.padding && q.zoomX == r.zoomX && q.zoomY == r.zoomY
    ensures q.dpr == r.dpr && q.minWidth == r.minWidth && q.minHeight == r.minHeight
    ensures q.stripMetadata == r.stripMetadata
  {
    hide Utf8, OptionField, ShowBool, ShowPadding, FloatLaws;
    var a, b := CanvasFields(lib, q), CanvasFields(lib, r);
    assert a[0] == b[0] && a[1] == b[1] && a[2] == b[2] && a[3] == b[3];
    assert a[4] == b[4] && a[5] == b[5] && a[6] == b[6] && a[7] == b[7];
    BoolTexts(q.extend, r.extend);
    PaddingFields(q.padding, r.padding);
    FloatTexts(lib, q.zoomX, r.zoomX);
    FloatTexts(lib, q.zoomY, r.zoomY);
    FloatTexts(lib, q.dpr, r.dpr);
    NumberFields(q.minWidth, r.minWidth);
    NumberFields(q.minHeight, r.minHeight);
    BoolTexts(q.stripMetadata, r.stripMetadata);
  }

  /** The fields, in spite of groups of different sizes, determine the query up to the two folds. */
  lemma FieldsInjective<F(!new), D(!new)>(lib: Library<F, D>, q: Query<F, D>, r: Query<F, D>)
    requires FloatLaws(lib) && Typed(q) && Typed(r) && Fields(lib, q) == Fields(lib, r)
    ensures Canonical(lib, q) == Canonical(lib, r)
  {
    hide SizeFields, EncodingFields, CropFields, TurnFields, TrimFields, WatermarkFields, CanvasFields, FloatLaws;
    FixedSizes(lib, q, r);
    var canvas, canvas' := CanvasFields(lib, q), CanvasFields(lib, r);
    var mark, mark' := WatermarkFields(lib, q.watermark) + canvas, WatermarkFields(lib, r.watermark) + canvas';
    var trim, trim' := TrimFields(lib, q.trim) + mark, TrimFields(lib, r.trim) + mark';
    var turn, turn' := TurnFields(q) + trim, TurnFields(r) + trim';
    var crop, crop' := CropFields(lib, q.crop) + turn, CropFields(lib, r.crop) + turn';
    SamePrefix(SizeFields(lib, q), SizeFields(lib, r), EncodingFields(lib, q) + crop, EncodingFields(lib, r) + crop');
    SamePrefix(EncodingFields(lib, q), EncodingFields(lib, r), crop, crop');
    CropGroup(lib, q.crop, r.crop, turn, turn');
    SamePrefix(TurnFields(q), TurnFields(r), trim, trim');
    TrimGroup(lib, q.trim, r.trim, mark, mark');
    WatermarkGroup(lib, q.watermark, r.watermark, canvas, canvas');
    SizeFieldsInjective(lib, q, r);
    EncodingFieldsInjective(lib, q, r);
    TurnFieldsInjective(q, r);
    CanvasFieldsInjective(lib, q, r);
  }

  lemma FixedSizes<F, D>(lib: Library<F, D>, q: Query<F, D>, r: Query<F, D>)
    ensures |SizeFields(lib, q)| == |SizeFields(lib, r)| && |EncodingFields(lib, q)| == |EncodingFields(lib, r)|
    ensures |TurnFields(q)| == |TurnFields(r)|
  {
  }

  /** The two folds do not show in the fields. */
  lemma FieldsOfCanonical<F, D>(lib: Library<F, D>, q: Query<F, D>)
    ensures Fields(lib, Canonical(lib, q)) == Fields(lib, q)
  {
    var c := Canonical(lib, q);
    assert SizeFields(lib, c) == SizeFields(lib, q);
    assert WatermarkFields(lib, c.watermark) == WatermarkFields(lib, q.watermark);
    hide SizeFields, WatermarkFields, Utf8;
  }

  /**
   Two queries feed the hash the same bytes exactly when they agree on every field, up to the two folds:
   a blur sigma that is not positive, and a watermark URL `None`.
   */
  lemma SameStreamIff<F(!new), D(!new)>(lib: Library<F, D>, q: Query<F, D>, r: Query<F, D>)
    requires FloatLaws(lib) && Typed(q) && Typed(r)
    requires Short(Fields(lib, q)) && Short(Fields(lib, r))
    ensures Stream(lib, q) == Stream(lib, r) <==> Canonical(lib, q) == Canonical(lib, r)
  {
    hide Fields, EncodeFields, Canonical, Typed, Short, FloatLaws;
    if Stream(lib, q) == Stream(lib, r) {
      SamePrefix([CACHE_KEY_VERSION], [CACHE_KEY_VERSION], EncodeFields(Fields(lib, q)), EncodeFields(Fields(lib, r)));
      EncodeFieldsInjective(Fields(lib, q), Fields(lib, r));
      FieldsInjective(lib, q, r);
    }
    if Canonical(lib, q) == Canonical(lib, r) {
      FieldsOfCanonical(lib, q);
      FieldsOfCanonical(lib, r);
    }
  }

  // ---------------------------------------------------------------------------------------------
  // Feeding the hash
  // ---------------------------------------------------------------------------------------------

  /** The hash state as the bytes fed to it; `fields` lists the length-prefixed fields after the version. */
  class Hasher {
    var fed: Bytes
    ghost var fields: seq<Bytes>

    ghost predicate Valid()
      reads this
    {
      fed == [CACHE_KEY_VERSION] + EncodeFields(fields)
    }

    constructor ()
      ensures Valid() && fields == []
    {
      fed := [CACHE_KEY_VERSION];
      fields := [];
    }

    method Update(bytes: Bytes)
      modifies this`fed
      ensures fed == old(fed) + bytes
    {
      fed := fed + bytes;
    }

    method UpdateField(bytes: Bytes)
      requires Valid()
      modifies this
      ensures Valid() && fields == old(fields) + [bytes]
    {
      Update(ToBigEndian(|bytes| % TWO_32, 4));
      Update(bytes);
      EncodeFieldsAppend(fields, bytes);
      ConcatAssociative(old(fed), ToBigEndian(|bytes| % TWO_32, 4), bytes);
      ConcatAssociative([CACHE_KEY_VERSION], EncodeFields(fields), PrefixedField(bytes));
      fields := fields + [bytes];
    }

    method UpdateNumber(n: Option<nat>)
      requires Valid()
      modifies this
      ensures Valid() && fields == old(fields) + [OptionField(n, Decimal)]
    {
      hide Hasher.Valid, Utf8, EncodeFields, Decimal;
      match n {
        case Some(value) => UpdateField(Utf8(Decimal(value)));
        case None => UpdateField(Utf8(NONE));
      }
    }

    method FeedSize<F, D>(lib: Library<F, D>, q: Query<F, D>)
      requires Valid()
      modifies this
      ensures Valid() && fields == old(fields) + SizeFields(lib, q)
    {
      hide Hasher.Valid, Utf8, OptionField, QualityField, ColorField, ShowBool, ShowGravity, ShowCropDimension,
        ShowResizeType, ShowFormat, ShowPosition, CanonicalBlur, EncodeFields, Decimal;
      ghost var want := SizeFields(lib, q);
      UpdateField(Utf8(q.url));
      UpdateNumber(q.width);
      UpdateNumber(q.height);
      assert fields == old(fields) + want[..3];
      UpdateField(Utf8(ShowResizeType(q.resizeType)));
      UpdateField(Utf8(ShowFormat(q.format)));
      UpdateField(Utf8(CanonicalBlur(lib, q.blurSigma)));
      UpdateField(OptionField(q.grayscale, ShowBool));
      UpdateField(Utf8(ShowBool(q.enlarge)));
    }

    method FeedEncoding<F, D>(lib: Library<F, D>, q: Query<F, D>)
      requires Valid()
      modifies this
      ensures Valid() && fields == old(fields) + EncodingFields(lib, q)
    {
      hide Hasher.Valid, Utf8, OptionField, QualityField, ColorField, ShowBool, ShowGravity, ShowCropDimension,
        ShowResizeType, ShowFormat, ShowPosition, CanonicalBlur, EncodeFields, Decimal;
      ghost var want := EncodingFields(lib, q);
      UpdateField(QualityField(q.quality));
      UpdateField(QualityField(q.jpegQuality));
      UpdateField(QualityField(q.webpQuality));
      UpdateField(OptionField(q.webpLossless, ShowBool));
      UpdateField(OptionField(q.jpegProgressive, ShowBool));
      assert fields == old(fields) + want[..5];
      UpdateField(OptionField(q.jpegNoSubsampling, ShowBool));
      UpdateField(OptionField(q.maxBytes, Decimal));
      UpdateField(ColorField(q.background));
      UpdateField(Utf8(ShowBool(q.autorotate)));
      UpdateField(Utf8(ShowGravity(lib, q.gravity)));
    }

    method FeedCrop<F, D>(lib: Library<F, D>, crop: Option<Crop<D>>)
      requires Valid()
      modifies this
      ensures Valid() && fields == old(fields) + CropFields(lib, crop)
    {
      hide Hasher.Valid, Utf8, OptionField, QualityField, ColorField, ShowBool, ShowGravity, ShowCropDimension,
        ShowResizeType, ShowFormat, ShowPosition, CanonicalBlur, EncodeFields, Decimal;
      match crop {
        case Some(c) =>
          UpdateField(Utf8(ShowCropDimension(lib, c.width)));
          UpdateField(Utf8(ShowCropDimension(lib, c.height)));
          UpdateField(Utf8(ShowGravity(lib, c.gravity)));
        case None => UpdateField(Utf8(NONE));
      }
    }

    method FeedTurn<F, D>(q: Query<F, D>)
      requires Valid()
      modifies this
      ensures Valid() && fields == old(fields) + TurnFields(q)
    {
      hide Hasher.Valid, Utf8, ShowBool, EncodeFields;
      UpdateField(Utf8(ShowInt(q.rotate)));
      UpdateField(Utf8(ShowBool(q.flipHorizontal)));
      UpdateField(Utf8(ShowBool(q.flipVertical)));
    }

    method FeedTrim<F, D>(lib: Library<F, D>, trim: Option<Trim<F>>)
      requires Valid()
      modifies this
      ensures Valid() && fields == old(fields) + TrimFields(lib, trim)
    {
      hide Hasher.Valid, Utf8, OptionField, QualityField, ColorField, ShowBool, ShowGravity, ShowCropDimension,
        ShowResizeType, ShowFormat, ShowPosition, CanonicalBlur, EncodeFields, Decimal;
      match trim {
        case Some(t) =>
          UpdateField(Utf8(lib.showF(t.threshold)));
          UpdateField(ColorField(t.color));
          UpdateField(Utf8(ShowBool(t.equalHor)));
          UpdateField(Utf8(ShowBool(t.equalVer)));
        case None => UpdateField(Utf8(NONE));
      }
    }

    method FeedWatermark<F, D>(lib: Library<F, D>, watermark: Option<Watermark<F>>)
      requires Valid()
      modifies this
      ensures Valid() && fields == old(fields) + WatermarkFields(lib, watermark)
    {
      hide Hasher.Valid, Utf8, EncodeFields;
      match watermark {
        case Some(w) => FeedMark(lib, w);
        case None => UpdateField(Utf8(NONE));
      }
    }

    method FeedMark<F, D>(lib: Library<F, D>, w: Watermark<F>)
      requires Valid()
      modifies this
      ensures Valid() && fields == old(fields) + WatermarkFields(lib, Some(w))
    {
      hide Hasher.Valid, Utf8, OptionField, QualityField, ColorField, ShowBool, ShowGravity, ShowCropDimension,
        ShowResizeType, ShowFormat, ShowPosition, CanonicalBlur, EncodeFields, Decimal;
      ghost var want := WatermarkFields(lib, Some(w));
      UpdateField(Utf8(lib.showF(w.opacity)));
      UpdateField(Utf8(ShowPosition(w.position)));
      UpdateField(Utf8(lib.showF(w.xOffset)));
      UpdateField(Utf8(lib.showF(w.yOffset)));
      assert fields == old(fields) + want[..4];
      UpdateField(Utf8(lib.showF(w.scale)));
      UpdateField(Utf8(if w.url.Some? then w.url.value else NONE));
      UpdateField(OptionField(w.size, ShowSize));
      UpdateField(Utf8(lib.showF(w.rotate)));
      UpdateField(OptionField(w.shadow, lib.showF));
    }

    method FeedCanvas<F, D>(lib: Library<F, D>, q: Query<F, D>)
      requires Valid()
      modifies this
      ensures Valid() && fields == old(fields) + CanvasFields(lib, q)
    {
      hide Hasher.Valid, Utf8, OptionField, QualityField, ColorField, ShowBool, ShowGravity, ShowCropDimension,
        ShowResizeType, ShowFormat, ShowPosition, CanonicalBlur, EncodeFields, Decimal;
      UpdateField(Utf8(ShowBool(q.extend)));
      UpdateField(OptionField(q.padding, ShowPadding));
      UpdateField(Utf8(lib.showF(q.zoomX)));
      UpdateField(Utf8(lib.showF(q.zoomY)));
      UpdateField(Utf8(lib.showF(q.dpr)));
      UpdateField(OptionField(q.minWidth, Decimal));
      UpdateField(OptionField(q.minHeight, Decimal));
      UpdateField(Utf8(ShowBool(q.stripMetadata)));
    }
  }

  /** `generate_key` up to the digest: a fresh hasher, fed field by field. */
  method FeedKey<F, D>(lib: Library<F, D>, q: Query<F, D>) returns (fed: Bytes)
    ensures fed == Stream(lib, q)
  {
    hide SizeFields, EncodingFields, CropFields, TurnFields, TrimFields, WatermarkFields, CanvasFields, EncodeFields;
    var hasher := new Hasher();
    hasher.FeedSize(lib, q);
    hasher.FeedEncoding(lib, q);
    hasher.FeedCrop(lib, q.crop);
    hasher.FeedTurn(q);
    hasher.FeedTrim(lib, q.trim);
    hasher.FeedWatermark(lib, q.watermark);
    hasher.FeedCanvas(lib, q);
    RightNested(SizeFields(lib, q), EncodingFields(lib, q), CropFields(lib, q.crop), TurnFields(q),
      TrimFields(lib, q.trim), WatermarkFields(lib, q.watermark), CanvasFields(lib, q));
    fed := hasher.fed;
  }

  lemma RightNested<T>(a: seq<T>, b: seq<T>, c: seq<T>, d: seq<T>, e: seq<T>, f: seq<T>, g: seq<T>)
    ensures [] + a + b + c + d + e + f + g == a + (b + (c + (d + (e + (f + g)))))
  {
    ConcatAssociative(e, f, g);
    ConcatAssociative(d, e + f, g);
    ConcatAssociative(c, d + (e + f), g);
    ConcatAssociative(b, c + (d + (e + f)), g);
  }
}

/**
 The bound on field lengths at the level of queries: with URLs of 2 to the 32 bytes, two different queries feed
 the hash the same bytes. The bytes between the two URLs of a query are moved into the URLs themselves.
 */
module CacheKeyBound {
  import opened Common
  import opened Text
  import opened Params
  import opened CacheKey

  /** The fields between the source URL and the watermark URL. */
  function Middle<F, D>(lib: Library<F, D>, q: Query<F, D>): seq<Bytes>
    requires q.watermark.Some?
  {
    SizeFields(lib, q)[1..] + (EncodingFields(lib, q) + (CropFields(lib, q.crop) + (TurnFields(q)
    + (TrimFields(lib, q.trim) + WatermarkFields(lib, q.watermark)[..5]))))
  }

  /** The fields after the watermark URL. */
  function Rest<F, D>(lib: Library<F, D>, q: Query<F, D>): seq<Bytes>
    requires q.watermark.Some?
  {
    WatermarkFields(lib, q.watermark)[6..] + CanvasFields(lib, q)
  }

  function WithUrls<F, D>(q: Query<F, D>, source: string, mark: string): Query<F, D>
    requires q.watermark.Some?
  {
    q.(url := source, watermark := Some(q.watermark.value.(url := Some(mark))))
  }

  lemma Regroup<T>(s: seq<T>, a: seq<T>, b: seq<T>, c: seq<T>, d: seq<T>, w: seq<T>, x: seq<T>)
    requires |s| >= 1 && |w| >= 6
    ensures s + (a + (b + (c + (d + (w + x)))))
         == [s[0]] + ((s[1..] + (a + (b + (c + (d + w[..5]))))) + ([w[5]] + (w[6..] + x)))
  {
    var tail := [w[5]] + (w[6..] + x);
    assert w + x == w[..5] + tail;
    ConcatAssociative(d, w[..5], tail);
    ConcatAssociative(c, d + w[..5], tail);
    ConcatAssociative(b, c + (d + w[..5]), tail);
    ConcatAssociative(a, b + (c + (d + w[..5])), tail);
    ConcatAssociative(s[1..], a + (b + (c + (d + w[..5]))), tail);
    assert s == [s[0]] + s[1..];
    ConcatAssociative([s[0]], s[1..], a + (b + (c + (d + (w + x)))));
  }

  lemma UrlPlaces<F, D>(lib: Library<F, D>, q: Query<F, D>, source: string, mark: string)
    requires q.watermark.Some?
    ensures var r := WithUrls(q, source, mark);
            && SizeFields(lib, r)[0] == Utf8(source) && SizeFields(lib, r)[1..] == SizeFields(lib, q)[1..]
            && |WatermarkFields(lib, r.watermark)| == 9 && WatermarkFields(lib, r.watermark)[5] == Utf8(mark)
            && WatermarkFields(lib, r.watermark)[..5] == WatermarkFields(lib, q.watermark)[..5]
            && WatermarkFields(lib, r.watermark)[6..] == WatermarkFields(lib, q.watermark)[6..]
  {
    hide Utf8, OptionField, ShowPosition, CanonicalBlur, ShowBool, ShowResizeType, ShowFormat, Decimal;
  }

  lemma OtherFields<F, D>(lib: Library<F, D>, q: Query<F, D>, source: string, mark: string)
    requires q.watermark.Some?
    ensures var r := WithUrls(q, source, mark);
            && EncodingFields(lib, r) == EncodingFields(lib, q) && TurnFields(r) == TurnFields(q)
            && CanvasFields(lib, r) == CanvasFields(lib, q) && r.crop == q.crop && r.trim == q.trim
  {
    hide Utf8, OptionField, QualityField, ColorField, ShowGravity, ShowBool, ShowInt;
  }

  /** The fields of a query around its two URLs, which are all that depends on the URLs. */
  lemma FieldsAround<F, D>(lib: Library<F, D>, q: Query<F, D>, source: string, mark: string)
    requires q.watermark.Some?
    ensures Fields(lib, WithUrls(q, source, mark))
         == [Utf8(source)] + (Middle(lib, q) + ([Utf8(mark)] + Rest(lib, q)))
  {
    hide SizeFields, EncodingFields, CropFields, TurnFields, TrimFields, WatermarkFields, CanvasFields, Utf8;
    var r := WithUrls(q, source, mark);
    UrlPlaces(lib, q, source, mark);
    OtherFields(lib, q, source, mark);
    SomeSize(lib, r);
    Regroup(SizeFields(lib, r), EncodingFields(lib, r), CropFields(lib, r.crop), TurnFields(r), TrimFields(lib, r.trim),
      WatermarkFields(lib, r.watermark), CanvasFields(lib, r));
  }

  lemma SomeSize<F, D>(lib: Library<F, D>, q: Query<F, D>)
    ensures |SizeFields(lib, q)| >= 1
  {
  }

  // ---------------------------------------------------------------------------------------------
  // The collision
  // ---------------------------------------------------------------------------------------------

  lemma {:induction false} Utf8Concat(s: string, t: string)
    ensures Utf8(s + t) == Utf8(s) + Utf8(t)
    decreases |s|
  {
    hide Utf8Char;
    var all := s + t;
    if s == "" {
      assert all == t;
    } else {
      assert all[0] == s[0] && all[1..] == s[1..] + t;
      Utf8Concat(s[1..], t);
      ConcatAssociative(Utf8Char(s[0]), Utf8(s[1..]), Utf8(t));
    }
  }

  /** The prefix of an empty field, as text. */
  const NULS: string := seq(4, i => 0 as char)

  lemma NulsArePrefix()
    ensures Utf8(NULS) == PrefixedField([]) && |Utf8(NULS)| == 4
  {
    Utf8OfText([0, 0, 0, 0]);
    assert AsText([0, 0, 0, 0]) == NULS;
    hide Utf8;
    SmallPrefix(0);
  }

  /** Both streams, with the pieces in the order they are fed. */
  lemma SameOrder(z: Bytes, m: Bytes, y: Bytes, rest: Bytes)
    ensures (z + (m + z + y)) + (m + (z + rest)) == (z + []) + (m + ((z + (y + m + z)) + rest))
  {
    var whole := z + m + z + y + m + z + rest;
    assert (z + (m + z + y)) + (m + (z + rest)) == whole;
    assert (z + []) + (m + ((z + (y + m + z)) + rest)) == whole;
  }

  lemma EncodedAround(u: Bytes, middle: seq<Bytes>, w: Bytes, rest: seq<Bytes>)
    ensures EncodeFields([u] + (middle + ([w] + rest)))
         == PrefixedField(u) + (EncodeFields(middle) + (PrefixedField(w) + EncodeFields(rest)))
  {
    hide PrefixedField, EncodeFields;
    EncodeFieldsConcat([u], middle + ([w] + rest));
    EncodeFieldsConcat(middle, [w] + rest);
    EncodeFieldsConcat([w], rest);
    EncodeOne(u);
    EncodeOne(w);
  }

  /**
   For every query whose fields between the two URLs encode to a text: one with that text in its source URL
   and one with it in its watermark URL feed the same bytes, when the URLs have 2 to the 32 bytes.
   */
  lemma LongUrlsCollide<F, D>(lib: Library<F, D>, q: Query<F, D>, text: string, filler: string)
    requires q.watermark.Some? && Utf8(text) == EncodeFields(Middle(lib, q))
    requires |Utf8(text)| + 4 + |Utf8(filler)| == TWO_32
    ensures var a, b := WithUrls(q, text + NULS + filler, ""), WithUrls(q, "", filler + text + NULS);
            Stream(lib, a) == Stream(lib, b) && Canonical(lib, a) != Canonical(lib, b)
  {
    var source, mark := text + NULS + filler, filler + text + NULS;
    assert Utf8("") == [] && source != "";
    hide PrefixedField, EncodeFields, Middle, Rest, Fields, Utf8;
    Utf8Concat(text + NULS, filler);
    Utf8Concat(text, NULS);
    Utf8Concat(filler + text, NULS);
    Utf8Concat(filler, text);
    NulsArePrefix();
    var z, m, y, rest := Utf8(NULS), Utf8(text), Utf8(filler), EncodeFields(Rest(lib, q));
    FieldsAround(lib, q, source, "");
    FieldsAround(lib, q, "", mark);
    EncodedAround(Utf8(source), Middle(lib, q), [], Rest(lib, q));
    EncodedAround([], Middle(lib, q), Utf8(mark), Rest(lib, q));
    PrefixWraps(Utf8(source));
    PrefixWraps(Utf8(mark));
    SameOrder(z, m, y, rest);
    assert z + [] == z;
  }

  // ---------------------------------------------------------------------------------------------
  // Such queries exist
  // ---------------------------------------------------------------------------------------------

  /** Short fields of ASCII bytes. */
  predicate ShortAscii(fields: seq<Bytes>) {
    forall f <- fields :: |f| < 128 && Ascii(f)
  }

  predicate Ascii(bs: Bytes) {
    forall b <- bs :: b < 128
  }

  function AsText(bs: Bytes): string
    requires Ascii(bs)
  {
    seq(|bs|, i requires 0 <= i < |bs| => bs[i] as char)
  }

  lemma {:induction false} Utf8OfText(bs: Bytes)
    requires Ascii(bs)
    ensures Utf8(AsText(bs)) == bs
    decreases |bs|
  {
    hide Utf8Char;
    if bs != [] {
      assert bs[0] in bs && forall b <- bs[1..] :: b in bs;
      Utf8OfText(bs[1..]);
      assert AsText(bs)[1..] == AsText(bs[1..]);
      assert bs == [bs[0]] + bs[1..];
    }
  }

  lemma PrefixAscii(f: Bytes)
    requires |f| < 128 && Ascii(f)
    ensures Ascii(PrefixedField(f)) && |PrefixedField(f)| < 132
  {
    var n := |f|;
    assert n / 256 == 0 && n % 256 == n && n % TWO_32 == n;
    SmallPrefix(n);
    hide ToBigEndian;
  }

  lemma SmallPrefix(n: nat)
    requires n < 128
    ensures ToBigEndian(n, 4) == [0, 0, 0, n]
  {
    assert ToBigEndian(0, 3) == [0, 0, 0];
  }

  lemma {:induction false} EncodedAscii(fields: seq<Bytes>)
    requires ShortAscii(fields)
    ensures Ascii(EncodeFields(fields)) && |EncodeFields(fields)| <= 132 * |fields|
    decreases |fields|
  {
    hide PrefixedField, Ascii;
    if fields == [] {
      assert Ascii(EncodeFields([])) by { NothingAscii(); }
    } else {
      assert fields[0] in fields && forall f <- fields[1..] :: f in fields;
      PrefixAscii(fields[0]);
      EncodedAscii(fields[1..]);
      AsciiConcat(PrefixedField(fields[0]), EncodeFields(fields[1..]));
    }
  }

  lemma NothingAscii()
    ensures Ascii([]) && EncodeFields([]) == []
  {
  }

  lemma AsciiConcat(a: Bytes, b: Bytes)
    requires Ascii(a) && Ascii(b)
    ensures Ascii(a + b)
  {
  }

  lemma {:induction false} Utf8Ascii(s: string)
    requires forall c <- s :: c < 128 as char
    ensures |Utf8(s)| == |s| && Ascii(Utf8(s))
    decreases |s|
  {
    hide Utf8Char;
    if s != "" {
      assert s[0] in s && forall c <- s[1..] :: c in s;
      Utf8Ascii(s[1..]);
    }
  }

  /** A query with nothing set but a watermark. */
  function Plain<F, D>(lib: Library<F, D>): Query<F, D> {
    Query("", None, None, Fit, Jpg, None, None, false, None, None, None, None, None, None, None, None, false, false,
          None, Anchored(Center), 0, false, false, None, false, None, lib.oneF, lib.oneF, lib.oneF, None, None,
          Some(Watermark(lib.oneF, Center, lib.oneF, lib.oneF, lib.oneF, None, None, lib.oneF, None)))
  }

  lemma ShortTexts<F(!new), D(!new)>(lib: Library<F, D>)
    requires FloatLaws(lib) && |lib.showF(lib.oneF)| < 128
    ensures forall s <- ["None", "false", "fit", "jpg", "ce", "0", "Center", lib.showF(lib.oneF)] ::
              |Utf8(s)| < 128 && Ascii(Utf8(s))
  {
    hide Utf8, Ascii;
    forall s | s in ["None", "false", "fit", "jpg", "ce", "0", "Center", lib.showF(lib.oneF)]
      ensures |Utf8(s)| < 128 && Ascii(Utf8(s))
    {
      assert PlainText(lib.showF(lib.oneF));
      Utf8Ascii(s);
    }
  }

  lemma PlainSizes<F(!new), D(!new)>(lib: Library<F, D>)
    requires FloatLaws(lib) && |lib.showF(lib.oneF)| < 128
    ensures var s := SizeFields(lib, Plain(lib)); ShortAscii(s[1..]) && |s| == 8
    ensures var e := EncodingFields(lib, Plain(lib)); ShortAscii(e) && |e| == 10
  {
    hide Utf8, Ascii, FloatLaws;
    ShortTexts(lib);
    var texts := ["None", "false", "fit", "jpg", "ce", "0", "Center", lib.showF(lib.oneF)];
    var none, no, fit, jpg, ce := Utf8(texts[0]), Utf8(texts[1]), Utf8(texts[2]), Utf8(texts[3]), Utf8(texts[4]);
    assert SizeFields(lib, Plain(lib))[1..] == [none, none, fit, jpg, none, none, no];
    assert EncodingFields(lib, Plain(lib)) == [none, none, none, none, none, none, none, none, no, ce];
  }

  lemma PlainGroups<F(!new), D(!new)>(lib: Library<F, D>)
    requires FloatLaws(lib) && |lib.showF(lib.oneF)| < 128
    ensures var q := Plain(lib);
            var rest := CropFields(lib, q.crop) + (TurnFields(q) + (TrimFields(lib, q.trim)
                                                                    + WatermarkFields(lib, q.watermark)[..5]));
            ShortAscii(rest) && |rest| == 10
  {
    hide Utf8, Ascii, FloatLaws;
    ShortTexts(lib);
    var texts := ["None", "false", "fit", "jpg", "ce", "0", "Center", lib.showF(lib.oneF)];
    var none, no, zero, center, one := Utf8(texts[0]), Utf8(texts[1]), Utf8(texts[5]), Utf8(texts[6]), Utf8(texts[7]);
    var q := Plain(lib);
    assert CropFields(lib, q.crop) == [none] && TrimFields(lib, q.trim) == [none];
    assert ShowInt(0) == "0";
    assert TurnFields(q) == [zero, no, no];
    assert WatermarkFields(lib, q.watermark)[..5] == [one, center, one, one, one];
  }

  lemma ShortAsciiConcat(a: seq<Bytes>, b: seq<Bytes>)
    requires ShortAscii(a) && ShortAscii(b)
    ensures ShortAscii(a + b)
  {
    hide Ascii;
  }

  lemma PlainMiddle<F(!new), D(!new)>(lib: Library<F, D>)
    requires FloatLaws(lib) && |lib.showF(lib.oneF)| < 128
    ensures ShortAscii(Middle(lib, Plain(lib))) && |Middle(lib, Plain(lib))| == 27
  {
    PlainSizes(lib);
    PlainGroups(lib);
    hide SizeFields, EncodingFields, CropFields, TurnFields, TrimFields, WatermarkFields, ShortAscii, FloatLaws;
    var q := Plain(lib);
    var s, e := SizeFields(lib, q)[1..], EncodingFields(lib, q);
    var rest := CropFields(lib, q.crop) + (TurnFields(q) + (TrimFields(lib, q.trim)
                                                            + WatermarkFields(lib, q.watermark)[..5]));
    ShortAsciiConcat(e, rest);
    ShortAsciiConcat(s, e + rest);
  }

  function Letters(n: nat): (s: string)
    ensures |s| == n && forall c <- s :: c == 'a'
  {
    seq(n, i => 'a')
  }

  /** With URLs of 2 to the 32 bytes there are two queries, of different meaning, that feed the same bytes. */
  lemma SomeQueriesCollide<F(!new), D(!new)>(lib: Library<F, D>)
    requires FloatLaws(lib) && |lib.showF(lib.oneF)| < 128
    ensures exists a, b :: Typed(a) && Typed(b) && Stream(lib, a) == Stream(lib, b)
                           && Canonical(lib, a) != Canonical(lib, b)
  {
    hide Stream, Canonical, EncodeFields, Middle, ShortAscii, Ascii, AsText, Utf8, Letters, FloatLaws;
    PlainMiddle(lib);
    var q := Plain(lib);
    var bytes := EncodeFields(Middle(lib, q));
    EncodedAscii(Middle(lib, q));
    Utf8OfText(bytes);
    var text, filler := AsText(bytes), Letters(TWO_32 - 4 - |bytes|);
    Utf8Ascii(filler);
    LongUrlsCollide(lib, q, text, filler);
    PlainIsTyped(lib, text + NULS + filler, "");
    PlainIsTyped(lib, "", filler + text + NULS);
  }

  lemma PlainIsTyped<F, D>(lib: Library<F, D>, source: string, mark: string)
    ensures Typed(WithUrls(Plain(lib), source, mark))
  {
  }
}

/**
 From the request to the key: which accepted requests feed the cache key the same bytes.
 */
module RequestKey {
  import opened Common
  import opened Text
  import opened Params
  import opened UrlOptions
  import opened UrlOrder
  import opened UrlPrint
  import opened UrlNormalForm
  import opened UrlRequest
  import opened CacheKey

  /** What parses has components that fit a byte, as the key's fields need. */
  lemma ParsedIsTyped<F(!new), D(!new)>(
    lib: Library<F, D>, unescape: string -> Option<string>, segments: seq<string>, presets: Presets, allowed: Allowed)
    requires Lawful(lib)
    ensures var r := ParseSegments(lib, unescape, segments, presets, allowed); r.Ok? ==> Typed(IntoQuery(r.value))
  {
    hide ParseOptions, Lawful, ParseSource, SourceIndex;
    var expanded := ExpandAll(presets, allowed, segments[..SourceIndex(segments)]);
    hide ExpandAll;
    if expanded.Ok? {
      ParsedIsWellFormed(lib, DefaultPreset(presets) + expanded.value);
      var o := ParseOptions(lib, DefaultPreset(presets) + expanded.value);
      if o.Ok? {
        WellFormedIsTyped(lib, o.value);
      }
    }
  }

  lemma WellFormedIsTyped<F, D>(lib: Library<F, D>, o: Options<F, D>)
    requires WellFormed(lib, o)
    ensures (o.quality.Some? ==> o.quality.value < 256) && (o.jpegQuality.Some? ==> o.jpegQuality.value < 256)
    ensures o.webpQuality.Some? ==> o.webpQuality.value < 256
    ensures o.background.Some? ==> TypedColor(o.background.value)
    ensures o.trim.Some? && o.trim.value.color.Some? ==> TypedColor(o.trim.value.color.value)
  {
  }

  /**
   Two accepted requests, each under presets and an allowlist of its own, feed the key the same bytes exactly
   when they stand for the same query up to the key's two folds.
   */
  lemma SameKeyIff<F(!new), D(!new)>(
    lib: Library<F, D>, unescape: string -> Option<string>, a: seq<string>, b: seq<string>,
    presets: Presets, allowed: Allowed, presets': Presets, allowed': Allowed)
    requires Lawful(lib)
    requires ParseSegments(lib, unescape, a, presets, allowed).Ok?
    requires ParseSegments(lib, unescape, b, presets', allowed').Ok?
    requires Short(Fields(lib, IntoQuery(ParseSegments(lib, unescape, a, presets, allowed).value)))
    requires Short(Fields(lib, IntoQuery(ParseSegments(lib, unescape, b, presets', allowed').value)))
    ensures var q := IntoQuery(ParseSegments(lib, unescape, a, presets, allowed).value);
            var r := IntoQuery(ParseSegments(lib, unescape, b, presets', allowed').value);
            Stream(lib, q) == Stream(lib, r) <==> Canonical(lib, q) == Canonical(lib, r)
  {
    ParsedIsTyped(lib, unescape, a, presets, allowed);
    ParsedIsTyped(lib, unescape, b, presets', allowed');
    assert FloatLaws(lib);
    hide Lawful, ParseSegments, IntoQuery, Short, Fields, Stream, Canonical, Typed, FloatLaws;
    SameStreamIff(lib, IntoQuery(ParseSegments(lib, unescape, a, presets, allowed).value),
      IntoQuery(ParseSegments(lib, unescape, b, presets', allowed').value));
  }

  /** Under any presets and allowlist, moving option segments past segments of other codes leaves the key as it was. */
  lemma ReorderedRequestSharesKey<F(!new), D(!new)>(
    lib: Library<F, D>, unescape: string -> Option<string>, presets: Presets, allowed: Allowed,
    a: seq<string>, b: seq<string>, source: seq<string>)
    requires forall s <- a :: LooksLikeOption(s) && s in b
    requires forall s <- b :: LooksLikeOption(s) && s in a
    requires source == [] || source[0] == "plain" || !LooksLikeOption(source[0])
    requires SameWithinCodes(DefaultPreset(presets) + Written(presets, a), DefaultPreset(presets) + Written(presets, b))
    ensures var ra := ParseSegments(lib, unescape, a + source, presets, allowed);
            var rb := ParseSegments(lib, unescape, b + source, presets, allowed);
            ra.Ok? ==> rb.Ok? && Stream(lib, IntoQuery(ra.value)) == Stream(lib, IntoQuery(rb.value))
  {
    hide ParseSegments, IntoQuery, SameWithinCodes, Stream, Written, LooksLikeOption;
    QueryUpToOrder(lib, unescape, presets, allowed, a, b, source);
  }
}

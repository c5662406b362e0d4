/**
 The signed URL as a whole: the split into signature and signed path, the search for the boundary between
 options and source, preset expansion under an allowlist, and the source itself.
 */
module UrlRequest {
  import opened Common
  import opened Text
  import opened Params
  import opened UrlOptions
  import opened UrlOrder
  import opened UrlPrint
  import opened UrlNormalForm
  import UrlShorthands

  datatype UrlError =
    | Malformed(path: string)
    | BadOption(error: ParseError)
    | EmptySource
    | InvalidSource
    | OptionNotAllowed(code: string)
    | UnknownPreset(name: string)

  // ---------------------------------------------------------------------------------------------
  // Signature and signed path
  // ---------------------------------------------------------------------------------------------

  datatype SignedRequest = SignedRequest(signature: string, signedPath: string, remainder: seq<string>)

  /** The path without its leading slash, if it has one. */
  function Trimmed(path: string): string {
    if |path| > 0 && path[0] == '/' then path[1..] else path
  }

  function SplitPath(path: string): Result<SignedRequest, UrlError> {
    var trimmed := Trimmed(path);
    if '/' !in trimmed then Err(Malformed(path))
    else
      var i := IndexOf(trimmed, '/');
      var remainder := trimmed[i + 1..];
      if remainder == "" then Err(Malformed(path))
      else Ok(SignedRequest(trimmed[..i], "/" + remainder, Split(remainder, '/')))
  }

  /**
   Signature and signed path together are the path minus its leading slash, and nothing of the signed part
   is lost in the segments.
   */
  lemma SplitPathLosesNothing(path: string)
    requires SplitPath(path).Ok?
    ensures var r := SplitPath(path).value;
            && r.signature + r.signedPath == Trimmed(path) && '/' !in r.signature
            && r.signedPath == "/" + Join(r.remainder, '/')
  {
    hide Split, Join;
    var t := Trimmed(path);
    var i := IndexOf(t, '/');
    hide IndexOf;
    JoinOfSplit(t[i + 1..], '/');
    assert t == t[..i] + "/" + t[i + 1..];
  }

  /** A path splits exactly when its first slash, the leading one aside, is not its last character. */
  lemma SplitPathWhen(path: string, i: nat)
    requires var t := Trimmed(path); i < |t| && t[i] == '/' && '/' !in t[..i]
    ensures SplitPath(path).Ok? <==> i < |Trimmed(path)| - 1
  {
    hide Split;
    var t := Trimmed(path);
    FirstIsUnique(t, '/', i, IndexOf(t, '/'));
  }

  lemma FirstIsUnique(s: string, c: char, i: nat, j: nat)
    requires i < |s| && j < |s| && s[i] == c == s[j] && c !in s[..i] && c !in s[..j]
    ensures i == j
  {
    assert forall k | 0 <= k < i :: s[..i][k] != c;
    assert forall k | 0 <= k < j :: s[..j][k] != c;
  }

  // ---------------------------------------------------------------------------------------------
  // Source
  // ---------------------------------------------------------------------------------------------

  datatype Source = Source(url: string, format: ImageFormat)

  const KNOWN_EXTENSIONS: seq<string> := ["jpg", "jpeg", "png", "webp", "avif", "gif", "auto"]

  /** The last position of `c`. */
  function LastIndexOf(s: string, c: char): (i: nat)
    requires c in s
    ensures i < |s| && s[i] == c && c !in s[i + 1..]
  {
    if s[|s| - 1] == c then |s| - 1
    else
      assert s == s[..|s| - 1] + [s[|s| - 1]];
      var i := LastIndexOf(s[..|s| - 1], c);
      assert s[i + 1..] == s[..|s| - 1][i + 1..] + [s[|s| - 1]];
      i
  }

  /** What stands before the final dot, and the format the extension after it names. */
  function SplitExtension(s: string): Option<(string, ImageFormat)> {
    if '.' !in s then None
    else
      var i := LastIndexOf(s, '.');
      var ext := s[i + 1..];
      if ext !in KNOWN_EXTENSIONS then None
      else
        var format :- ReadFormat(ext);
        Some((s[..i], format))
  }

  function Decoded(text: Option<string>, format: ImageFormat): Result<Source, UrlError> {
    if text.None? then Err(InvalidSource)
    else if text.value == "" then Err(EmptySource)
    else Ok(Source(text.value, format))
  }

  /** `unescape` is the percent-decoding of the library. */
  function ParsePlainSource(unescape: string -> Option<string>, rest: seq<string>): Result<Source, UrlError> {
    if rest == [] then Err(EmptySource)
    else
      match SplitExtension(Join(rest, '/'))
      case None => Err(InvalidSource)
      case Some((raw, format)) => Decoded(unescape(raw), format)
  }

  function ParseBase64Source<F, D>(lib: Library<F, D>, segments: seq<string>): Result<Source, UrlError> {
    if |segments| != 1 then Err(InvalidSource)
    else
      match SplitExtension(segments[0])
      case None => Err(InvalidSource)
      case Some((encoded, format)) => Decoded(lib.decode(encoded), format)
  }

  function ParseSource<F, D>(lib: Library<F, D>, unescape: string -> Option<string>, segments: seq<string>)
    : Result<Source, UrlError>
  {
    if segments == [] then Err(EmptySource)
    else if segments[0] == "plain" then ParsePlainSource(unescape, segments[1..])
    else ParseBase64Source(lib, segments)
  }

  // ---------------------------------------------------------------------------------------------
  // Presets and the allowlist
  // ---------------------------------------------------------------------------------------------

  type Presets = map<string, seq<string>>

  /** Absent means that every code is allowed. */
  type Allowed = Option<set<string>>

  predicate IsAllowed(allowed: Allowed, code: string) {
    allowed.Some? ==> code in allowed.value
  }

  predicate LooksLikeOption(segment: string) {
    ':' in segment
  }

  /** The first segment that is `plain` or cannot be an option. */
  function SourceIndex(segments: seq<string>): (i: nat)
    ensures i <= |segments|
  {
    if segments == [] || segments[0] == "plain" || !LooksLikeOption(segments[0]) then 0
    else 1 + SourceIndex(segments[1..])
  }

  /** The segments of the named presets, one after the other. */
  function PresetSegments(presets: Presets, names: seq<string>): Result<seq<string>, UrlError> {
    if names == [] then Ok([])
    else if names[|names| - 1] !in presets then
      var before :- PresetSegments(presets, names[..|names| - 1]);
      Err(UnknownPreset(names[|names| - 1]))
    else
      var before :- PresetSegments(presets, names[..|names| - 1]);
      Ok(before + presets[names[|names| - 1]])
  }

  /** What one segment of the request stands for. */
  function ExpandOne(presets: Presets, allowed: Allowed, segment: string): Result<seq<string>, UrlError> {
    var code := CodeOf(segment);
    if !IsAllowed(allowed, code) then Err(OptionNotAllowed(code))
    else if code == "pr" then PresetSegments(presets, Split(segment, ':')[1..])
    else Ok([segment])
  }

  function ExpandAll(presets: Presets, allowed: Allowed, segments: seq<string>): Result<seq<string>, UrlError> {
    if segments == [] then Ok([])
    else
      var before :- ExpandAll(presets, allowed, segments[..|segments| - 1]);
      var last :- ExpandOne(presets, allowed, segments[|segments| - 1]);
      Ok(before + last)
  }

  function DefaultPreset(presets: Presets): seq<string> {
    if "default" in presets then presets["default"] else []
  }

  datatype Parsed<F, D> = Parsed(options: Options<F, D>, source: Source)

  /** `parse_with_config` on the segments after the signature. */
  function ParseSegments<F, D>(lib: Library<F, D>, unescape: string -> Option<string>, segments: seq<string>,
                               presets: Presets, allowed: Allowed): Result<Parsed<F, D>, UrlError>
  {
    var boundary := SourceIndex(segments);
    var expanded :- ExpandAll(presets, allowed, segments[..boundary]);
    ParseBoth(lib, unescape, DefaultPreset(presets) + expanded, segments[boundary..])
  }

  /** Options and source, one after the other. */
  function ParseBoth<F, D>(lib: Library<F, D>, unescape: string -> Option<string>, options: seq<string>,
                           source: seq<string>): Result<Parsed<F, D>, UrlError>
  {
    match ParseOptions(lib, options)
    case Err(e) => Err(BadOption(e))
    case Ok(o) =>
      var s :- ParseSource(lib, unescape, source);
      Ok(Parsed(o, s))
  }

  lemma {:induction false} ExpandFails(presets: Presets, allowed: Allowed, segments: seq<string>, n: nat)
    requires n <= |segments| && ExpandAll(presets, allowed, segments[..n]).Err?
    ensures ExpandAll(presets, allowed, segments) == ExpandAll(presets, allowed, segments[..n])
    decreases |segments| - n
  {
    if n == |segments| {
      assert segments[..n] == segments;
    } else {
      assert segments[..n + 1][..n] == segments[..n];
      ExpandFails(presets, allowed, segments, n + 1);
    }
  }

  lemma {:induction false} PresetsFail(presets: Presets, names: seq<string>, n: nat)
    requires n <= |names| && PresetSegments(presets, names[..n]).Err?
    ensures PresetSegments(presets, names) == PresetSegments(presets, names[..n])
    decreases |names| - n
  {
    if n == |names| {
      assert names[..n] == names;
    } else {
      assert names[..n + 1][..n] == names[..n];
      PresetsFail(presets, names, n + 1);
    }
  }

  /** Appends the segments of the presets a `pr` segment names. */
  method SplicePresets(presets: Presets, names: seq<string>) returns (r: Result<seq<string>, UrlError>)
    ensures r == PresetSegments(presets, names)
  {
    var spliced: seq<string> := [];
    for j := 0 to |names|
      invariant PresetSegments(presets, names[..j]) == Ok(spliced)
    {
      assert names[..j + 1][..j] == names[..j];
      if names[j] !in presets {
        PresetsFail(presets, names, j + 1);
        return Err(UnknownPreset(names[j]));
      }
      spliced := spliced + presets[names[j]];
    }
    assert names[..|names|] == names;
    r := Ok(spliced);
  }

  /** The loop of `parse_with_config`, pushing onto the expanded list. */
  method Expand(presets: Presets, allowed: Allowed, direct: seq<string>) returns (r: Result<seq<string>, UrlError>)
    ensures r == ExpandAll(presets, allowed, direct)
  {
    hide CodeOf, Split, PresetSegments;
    var expanded: seq<string> := [];
    for i := 0 to |direct|
      invariant ExpandAll(presets, allowed, direct[..i]) == Ok(expanded)
    {
      var seg := direct[i];
      assert direct[..i + 1][..i] == direct[..i];
      var code := CodeOf(seg);
      if !IsAllowed(allowed, code) {
        ExpandFails(presets, allowed, direct, i + 1);
        return Err(OptionNotAllowed(code));
      }
      if code == "pr" {
        var spliced := SplicePresets(presets, Split(seg, ':')[1..]);
        if spliced.Err? {
          ExpandFails(presets, allowed, direct, i + 1);
          return spliced;
        }
        expanded := expanded + spliced.value;
      } else {
        expanded := expanded + [seg];
      }
    }
    assert direct[..|direct|] == direct;
    r := Ok(expanded);
  }

  /** `parse_with_config`: expansion, then the options, then the source. */
  method ParseWithConfig<F, D>(lib: Library<F, D>, unescape: string -> Option<string>, segments: seq<string>,
                               presets: Presets, allowed: Allowed) returns (r: Result<Parsed<F, D>, UrlError>)
    ensures r == ParseSegments(lib, unescape, segments, presets, allowed)
  {
    hide ParseOptions, ParseSource, ExpandAll;
    var boundary := SourceIndex(segments);
    var expanded := Expand(presets, allowed, segments[..boundary]);
    if expanded.Err? {
      return Err(expanded.error);
    }
    var options := Parse(lib, DefaultPreset(presets) + expanded.value);
    if options.Err? {
      return Err(BadOption(options.error));
    }
    var source := ParseSource(lib, unescape, segments[boundary..]);
    if source.Err? {
      return Err(source.error);
    }
    r := Ok(Parsed(options.value, source.value));
  }

  // ---------------------------------------------------------------------------------------------
  // Expansion is inlining
  // ---------------------------------------------------------------------------------------------

  /** What the configuration parser guarantees, and that every preset segment has a colon. */
  predicate Inlinable(presets: Presets) {
    forall name <- presets, s <- presets[name] :: LooksLikeOption(s) && CodeOf(s) != "pr"
  }

  /** The segments of presets by name, written out. */
  function WrittenNames(presets: Presets, names: seq<string>): seq<string> {
    if names == [] then []
    else (if names[0] in presets then presets[names[0]] else []) + WrittenNames(presets, names[1..])
  }

  function WrittenOne(presets: Presets, segment: string): seq<string> {
    if CodeOf(segment) == "pr" then WrittenNames(presets, Split(segment, ':')[1..]) else [segment]
  }

  /** Segments with every `pr` segment replaced by the segments of the presets it names. */
  function Written(presets: Presets, segments: seq<string>): seq<string> {
    if segments == [] then [] else WrittenOne(presets, segments[0]) + Written(presets, segments[1..])
  }

  /** The options of the request with the default preset in front and every `pr` segment replaced by its presets. */
  function WrittenOptions(presets: Presets, segments: seq<string>): seq<string> {
    DefaultPreset(presets) + Written(presets, segments[..SourceIndex(segments)])
  }

  /** The request with its presets written out in it. */
  function Inlined(presets: Presets, segments: seq<string>): seq<string> {
    WrittenOptions(presets, segments) + segments[SourceIndex(segments)..]
  }

  /** Every preset that the segments name is configured. */
  predicate NamesKnown(presets: Presets, segments: seq<string>) {
    forall s <- segments :: CodeOf(s) == "pr" ==> AllKnown(presets, Split(s, ':')[1..])
  }

  predicate AllKnown(presets: Presets, names: seq<string>) {
    forall name <- names :: name in presets
  }

  lemma AllKnownAppend(presets: Presets, names: seq<string>, last: string)
    ensures AllKnown(presets, names + [last]) <==> AllKnown(presets, names) && last in presets
  {
    var all := names + [last];
    assert last in all && forall name <- names :: name in all;
  }

  lemma {:induction false} WrittenNamesAppend(presets: Presets, names: seq<string>, last: string)
    ensures WrittenNames(presets, names + [last])
         == WrittenNames(presets, names) + (if last in presets then presets[last] else [])
    decreases |names|
  {
    var all, end := names + [last], if last in presets then presets[last] else [];
    if names == [] {
      assert all[0] == last && all[1..] == [];
      assert end + [] == end && [] + end == end;
    } else {
      assert all[0] == names[0] && all[1..] == names[1..] + [last];
      WrittenNamesAppend(presets, names[1..], last);
      ConcatAssociative(if names[0] in presets then presets[names[0]] else [], WrittenNames(presets, names[1..]), end);
    }
  }

  lemma {:induction false} WrittenAppend(presets: Presets, segments: seq<string>, last: string)
    ensures Written(presets, segments + [last]) == Written(presets, segments) + WrittenOne(presets, last)
    decreases |segments|
  {
    hide WrittenOne;
    var all, end := segments + [last], WrittenOne(presets, last);
    if segments == [] {
      assert all[0] == last && all[1..] == [];
      assert end + [] == end && [] + end == end;
    } else {
      assert all[0] == segments[0] && all[1..] == segments[1..] + [last];
      WrittenAppend(presets, segments[1..], last);
      ConcatAssociative(WrittenOne(presets, segments[0]), Written(presets, segments[1..]), end);
    }
  }

  lemma {:induction false} PresetSegmentsAreWritten(presets: Presets, names: seq<string>)
    ensures var r := PresetSegments(presets, names);
            && (r.Ok? <==> AllKnown(presets, names))
            && (r.Ok? ==> r.value == WrittenNames(presets, names))
            && (r.Err? ==> r.error.UnknownPreset?)
  {
    hide WrittenNames, AllKnown;
    if names == [] {
      NothingWritten(presets);
    } else {
      var front, last := names[..|names| - 1], names[|names| - 1];
      PresetSegmentsAreWritten(presets, front);
      WrittenNamesAppend(presets, front, last);
      AllKnownAppend(presets, front, last);
      assert names == front + [last];
    }
  }

  lemma NothingWritten(presets: Presets)
    ensures WrittenNames(presets, []) == [] && Written(presets, []) == []
    ensures AllKnown(presets, []) && NamesKnown(presets, [])
  {
  }

  /** The allowlist has the code of every segment. */
  predicate CodesAllowed(allowed: Allowed, segments: seq<string>) {
    forall s <- segments :: IsAllowed(allowed, CodeOf(s))
  }

  lemma CodesAllowedAppend(allowed: Allowed, segments: seq<string>, last: string)
    ensures CodesAllowed(allowed, segments + [last])
       <==> CodesAllowed(allowed, segments) && IsAllowed(allowed, CodeOf(last))
  {
    hide CodeOf;
    var all := segments + [last];
    assert last in all && forall s <- segments :: s in all;
  }

  /**
   The expansion loop writes the presets out, and refuses exactly the requests that name an unknown one or
   use a code outside the allowlist.
   */
  lemma {:induction false} ExpansionWrites(presets: Presets, allowed: Allowed, segments: seq<string>)
    ensures var r := ExpandAll(presets, allowed, segments);
            && (r.Ok? <==> NamesKnown(presets, segments) && CodesAllowed(allowed, segments))
            && (r.Ok? ==> r.value == Written(presets, segments))
            && (r.Err? ==> r.error.UnknownPreset? || (r.error.OptionNotAllowed? && allowed.Some?))
  {
    hide Written, CodeOf, Split, CodesAllowed;
    if segments == [] {
      NothingWritten(presets);
      assert CodesAllowed(allowed, []) by { NothingForbidden(allowed); }
    } else {
      var front, last := segments[..|segments| - 1], segments[|segments| - 1];
      ExpansionWrites(presets, allowed, front);
      WrittenAppend(presets, front, last);
      assert segments == front + [last];
      CodesAllowedAppend(allowed, front, last);
      assert NamesKnown(presets, segments) <==> NamesKnown(presets, front) && NamesKnown(presets, [last]) by {
        NamesKnownSplit(presets, front, last);
      }
      PresetSegmentsAreWritten(presets, Split(last, ':')[1..]);
      hide PresetSegments, WrittenNames, AllKnown;
      assert NamesKnown(presets, [last]) <==> (CodeOf(last) == "pr" ==> AllKnown(presets, Split(last, ':')[1..]));
    }
  }

  /** The name is the first of the list that is not configured. */
  predicate FirstUnknown(presets: Presets, names: seq<string>, name: string) {
    exists i :: 0 <= i < |names| && names[i] == name && name !in presets && AllKnown(presets, names[..i])
  }

  lemma {:induction false} UnknownNameIsFirst(presets: Presets, names: seq<string>)
    ensures match PresetSegments(presets, names)
            case Ok(_) => AllKnown(presets, names)
            case Err(e) => e.UnknownPreset? && FirstUnknown(presets, names, e.name)
  {
    if names != [] {
      var front, last := names[..|names| - 1], names[|names| - 1];
      UnknownNameIsFirst(presets, front);
      AllKnownAppend(presets, front, last);
      assert names == front + [last];
      hide AllKnown;
      var r := PresetSegments(presets, front);
      if r.Err? {
        var i :| 0 <= i < |front| && front[i] == r.error.name && AllKnown(presets, front[..i]);
        assert names[i] == front[i] && names[..i] == front[..i];
      } else if last !in presets {
        assert names[|names| - 1] == last && names[..|names| - 1] == front;
      }
    }
  }

  /** Why a segment is refused: its code is not allowed, or it is allowed and names an unknown preset. */
  predicate RefusedFor(presets: Presets, allowed: Allowed, segment: string, e: UrlError) {
    || (e.OptionNotAllowed? && e.code == CodeOf(segment) && allowed.Some? && e.code !in allowed.value)
    || (e.UnknownPreset? && CodeOf(segment) == "pr" && (allowed.Some? ==> "pr" in allowed.value)
        && FirstUnknown(presets, Split(segment, ':')[1..], e.name))
  }

  /**
   A refused expansion is refused for a segment all of whose predecessors pass: the segments in front of it have
   allowed codes and name configured presets only.
   */
  lemma {:induction false} ExpansionRefusal(presets: Presets, allowed: Allowed, segments: seq<string>)
    ensures match ExpandAll(presets, allowed, segments)
            case Ok(_) => true
            case Err(e) =>
              exists i :: 0 <= i < |segments| && RefusedFor(presets, allowed, segments[i], e)
                          && NamesKnown(presets, segments[..i]) && CodesAllowed(allowed, segments[..i])
  {
    hide CodeOf, Split, NamesKnown, CodesAllowed, FirstUnknown, PresetSegments;
    if segments != [] {
      var front, last := segments[..|segments| - 1], segments[|segments| - 1];
      ExpansionRefusal(presets, allowed, front);
      ExpansionWrites(presets, allowed, front);
      var r := ExpandAll(presets, allowed, front);
      if r.Err? {
        var i :| 0 <= i < |front| && RefusedFor(presets, allowed, front[i], r.error)
                 && NamesKnown(presets, front[..i]) && CodesAllowed(allowed, front[..i]);
        assert segments[i] == front[i] && segments[..i] == front[..i];
      } else if ExpandOne(presets, allowed, last).Err? {
        UnknownNameIsFirst(presets, Split(last, ':')[1..]);
        assert RefusedFor(presets, allowed, segments[|segments| - 1], ExpandOne(presets, allowed, last).error);
        assert segments[..|segments| - 1] == front;
      }
    }
  }

  lemma AllAllowed(segments: seq<string>)
    ensures CodesAllowed(None, segments)
  {
  }

  lemma NothingForbidden(allowed: Allowed)
    ensures CodesAllowed(allowed, [])
  {
  }

  lemma NamesKnownSplit(presets: Presets, front: seq<string>, last: string)
    ensures NamesKnown(presets, front + [last]) <==> NamesKnown(presets, front) && NamesKnown(presets, [last])
  {
    hide CodeOf, Split;
    assert forall s <- front :: s in front + [last];
    assert last in front + [last] && last in [last];
  }

  predicate DirectOption(s: string) {
    LooksLikeOption(s) && CodeOf(s) != "pr"
  }

  predicate AllDirect(segments: seq<string>) {
    forall s <- segments :: DirectOption(s)
  }

  lemma {:induction false} WrittenNamesDirect(presets: Presets, names: seq<string>)
    requires Inlinable(presets)
    ensures AllDirect(WrittenNames(presets, names))
    decreases |names|
  {
    hide CodeOf;
    if names != [] {
      WrittenNamesDirect(presets, names[1..]);
    }
  }

  lemma {:induction false} WrittenDirect(presets: Presets, segments: seq<string>)
    requires Inlinable(presets) && forall s <- segments :: LooksLikeOption(s)
    ensures AllDirect(Written(presets, segments))
    decreases |segments|
  {
    hide CodeOf, WrittenNames, Inlinable;
    if segments != [] {
      assert segments[0] in segments && forall s <- segments[1..] :: s in segments;
      WrittenDirect(presets, segments[1..]);
      WrittenNamesDirect(presets, Split(segments[0], ':')[1..]);
    }
  }

  /** Presets whose segments all have a colon can be written out in any request. */
  lemma InlinableIsDirect(presets: Presets, segments: seq<string>)
    requires Inlinable(presets)
    ensures AllDirect(WrittenOptions(presets, segments))
  {
    hide CodeOf, Written;
    BoundaryIsFirst(segments);
    WrittenDirect(presets, segments[..SourceIndex(segments)]);
  }

  /** Segments that are neither presets nor restricted stand for themselves. */
  lemma {:induction false} DirectExpandsToItself(presets: Presets, segments: seq<string>)
    requires forall s <- segments :: CodeOf(s) != "pr"
    ensures ExpandAll(presets, None, segments) == Ok(segments)
  {
    hide CodeOf;
    if segments != [] {
      var front, last := segments[..|segments| - 1], segments[|segments| - 1];
      assert last in segments;
      DirectExpandsToItself(presets, front);
      assert front + [last] == segments;
    }
  }

  lemma {:induction false} BoundaryAfterOptions(options: seq<string>, rest: seq<string>)
    requires forall s <- options :: LooksLikeOption(s)
    requires rest == [] || rest[0] == "plain" || !LooksLikeOption(rest[0])
    ensures SourceIndex(options + rest) == |options|
    ensures (options + rest)[..|options|] == options && (options + rest)[|options|..] == rest
    decreases |options|
  {
    var all := options + rest;
    if options == [] {
      assert all == rest;
    } else {
      assert all[0] == options[0] && all[1..] == options[1..] + rest;
      assert options[0] in options && ':' !in "plain";
      BoundaryAfterOptions(options[1..], rest);
    }
  }

  lemma {:induction false} BoundaryIsFirst(segments: seq<string>)
    ensures var i := SourceIndex(segments);
            && (forall s <- segments[..i] :: LooksLikeOption(s))
            && (i < |segments| ==> segments[i] == "plain" || !LooksLikeOption(segments[i]))
    decreases |segments|
  {
    if segments != [] && segments[0] != "plain" && LooksLikeOption(segments[0]) {
      BoundaryIsFirst(segments[1..]);
      var i := SourceIndex(segments);
      assert segments[..i] == [segments[0]] + segments[1..][..i - 1];
    }
  }

  /**
   With no allowlist, expanding presets is parsing the request with the presets written out in it, provided
   every segment written out has a colon; a request that names an unknown preset is refused for that.
   */
  lemma ExpansionIsInlining<F, D>(lib: Library<F, D>, unescape: string -> Option<string>, segments: seq<string>,
                                  presets: Presets)
    ensures var r := ParseSegments(lib, unescape, segments, presets, None);
            if !NamesKnown(presets, segments[..SourceIndex(segments)]) then r.Err? && r.error.UnknownPreset?
            else AllDirect(WrittenOptions(presets, segments)) ==>
                   r == ParseSegments(lib, unescape, Inlined(presets, segments), map[], None)
  {
    hide ParseOptions, ParseSource, ExpandAll, CodeOf, Written, NamesKnown;
    var i := SourceIndex(segments);
    var direct, source := segments[..i], segments[i..];
    BoundaryIsFirst(segments);
    ExpansionWrites(presets, None, direct);
    AllAllowed(direct);
    var written := WrittenOptions(presets, segments);
    if NamesKnown(presets, direct) && AllDirect(written) {
      BoundaryAfterOptions(written, source);
      DirectExpandsToItself(map[], written);
      assert DefaultPreset(map[]) + written == written;
    }
  }

  /** Written out, the options end where they did before exactly when every segment written out has a colon. */
  lemma InliningKeepsBoundary(presets: Presets, segments: seq<string>)
    ensures SourceIndex(Inlined(presets, segments)) == |WrittenOptions(presets, segments)|
       <==> forall s <- WrittenOptions(presets, segments) :: LooksLikeOption(s)
  {
    hide WrittenOptions;
    var written, source := WrittenOptions(presets, segments), segments[SourceIndex(segments)..];
    var all := Inlined(presets, segments);
    BoundaryIsFirst(segments);
    BoundaryIsFirst(all);
    if forall s <- written :: LooksLikeOption(s) {
      BoundaryAfterOptions(written, source);
    }
    assert all[..|written|] == written;
  }

  /** A segment without a colon is no option, except `fl`, which flips nothing. */
  lemma ColonlessOption<F, D>(lib: Library<F, D>, s: string)
    requires ':' !in s
    ensures Decode(lib, s).Ok? <==> s == "fl"
  {
    hide DecodeArgs, ReadCode, CodeText;
    SplitWithout(s, ':');
    assert [s][1..] == [] && CodeOf(s) == s;
    var code := ReadCode(s);
    if code.Some? {
      CodeTextOfRead(s, code.value);
      if DecodeArgs(lib, code.value, []).Some? {
        UrlShorthands.ArityHolds(lib, code.value, []);
        assert code.value.FL? && CodeText(FL) == "fl" by { FlipText(); }
      }
    }
    FlipText();
    FlipsNothing(lib);
  }

  lemma FlipText()
    ensures CodeText(FL) == "fl" && ReadCode("fl") == Some(FL)
  {
  }

  lemma FlipsNothing<F, D>(lib: Library<F, D>)
    ensures DecodeArgs(lib, FL, []) == Some(SetFlip(None, None))
  {
  }

  /** So a request that writes out any other segment without a colon is refused. */
  lemma ColonlessPresetIsRefused<F, D>(
    lib: Library<F, D>, unescape: string -> Option<string>, segments: seq<string>, presets: Presets)
    requires NamesKnown(presets, segments[..SourceIndex(segments)])
    requires exists s <- WrittenOptions(presets, segments) :: !LooksLikeOption(s) && s != "fl"
    ensures var r := ParseSegments(lib, unescape, segments, presets, None); r.Err? && r.error.BadOption?
  {
    hide ParseSource, ExpandAll, Written, NamesKnown, Decode, CodeOf;
    ExpansionWrites(presets, None, segments[..SourceIndex(segments)]);
    AllAllowed(segments[..SourceIndex(segments)]);
    var written := WrittenOptions(presets, segments);
    var s :| s in written && !LooksLikeOption(s) && s != "fl";
    ColonlessOption(lib, s);
    DecodesIffEach(lib, written);
  }

  lemma {:induction false} DecodePrefix<F, D>(lib: Library<F, D>, segments: seq<string>, k: nat)
    requires k <= |segments|
    ensures DecodeAll(lib, segments[..k]).Err? ==> DecodeAll(lib, segments) == DecodeAll(lib, segments[..k])
    ensures DecodeAll(lib, segments).Ok? ==> DecodeAll(lib, segments[..k]).Ok?
    decreases |segments|
  {
    hide Decode;
    if k > 0 {
      assert segments[..k][1..] == segments[1..][..k - 1];
      DecodePrefix(lib, segments[1..], k - 1);
    }
  }

  /** What the configuration guarantees: no preset names another. */
  predicate NoNesting(presets: Presets) {
    forall name <- presets, s <- presets[name] :: CodeOf(s) != "pr"
  }

  lemma {:induction false} WrittenNamesPlain(presets: Presets, names: seq<string>)
    requires NoNesting(presets)
    ensures forall s <- WrittenNames(presets, names) :: CodeOf(s) != "pr"
    decreases |names|
  {
    hide CodeOf;
    if names != [] {
      WrittenNamesPlain(presets, names[1..]);
    }
  }

  lemma {:induction false} WrittenPlain(presets: Presets, segments: seq<string>)
    requires NoNesting(presets)
    ensures forall s <- Written(presets, segments) :: CodeOf(s) != "pr"
    decreases |segments|
  {
    hide CodeOf, WrittenNames, NoNesting;
    if segments != [] {
      WrittenPlain(presets, segments[1..]);
      WrittenNamesPlain(presets, Split(segments[0], ':')[1..]);
    }
  }

  lemma WrittenOptionsPlain(presets: Presets, segments: seq<string>)
    requires NoNesting(presets)
    ensures forall s <- WrittenOptions(presets, segments) :: CodeOf(s) != "pr"
  {
    hide CodeOf, Written;
    WrittenPlain(presets, segments[..SourceIndex(segments)]);
  }

  lemma {:induction false} BoundaryWithin(written: seq<string>, source: seq<string>)
    requires SourceIndex(written) < |written|
    ensures SourceIndex(written + source) == SourceIndex(written)
    decreases |written|
  {
    var all := written + source;
    assert all[0] == written[0] && all[1..] == written[1..] + source;
    if written[0] != "plain" && LooksLikeOption(written[0]) {
      BoundaryWithin(written[1..], source);
    }
  }

  lemma SourceRefusals<F, D>(lib: Library<F, D>, unescape: string -> Option<string>, segments: seq<string>)
    ensures var r := ParseSource(lib, unescape, segments); r.Err? ==> r.error.EmptySource? || r.error.InvalidSource?
    ensures segments != [] && segments[0] == "fl" ==> ParseSource(lib, unescape, segments) == Err(InvalidSource)
  {
    hide SplitExtension;
    assert SplitExtension("fl").None? by { NoExtension(); }
  }

  lemma NoExtension()
    ensures SplitExtension("fl").None?
  {
  }

  /** The parse under presets, by the segments written out. */
  lemma ParseWritten<F, D>(
    lib: Library<F, D>, unescape: string -> Option<string>, segments: seq<string>, presets: Presets)
    requires NamesKnown(presets, segments[..SourceIndex(segments)])
    ensures ParseSegments(lib, unescape, segments, presets, None)
         == ParseBoth(lib, unescape, WrittenOptions(presets, segments), segments[SourceIndex(segments)..])
  {
    hide ParseOptions, ParseSource, ExpandAll, Written, NamesKnown;
    ExpansionWrites(presets, None, segments[..SourceIndex(segments)]);
    AllAllowed(segments[..SourceIndex(segments)]);
  }

  /** The parse of the request with its presets written out, when some segment written out has no colon. */
  lemma ParseInlined<F, D>(
    lib: Library<F, D>, unescape: string -> Option<string>, written: seq<string>, source: seq<string>)
    requires (forall s <- written :: CodeOf(s) != "pr") && SourceIndex(written) < |written|
    ensures var k := SourceIndex(written);
            ParseSegments(lib, unescape, written + source, map[], None)
            == ParseBoth(lib, unescape, written[..k], written[k..] + source)
  {
    hide ParseBoth, ExpandAll, CodeOf, SourceIndex;
    var k := SourceIndex(written);
    BoundaryWithin(written, source);
    SliceWithin(written, source, k);
    var front := written[..k];
    assert forall s <- front :: CodeOf(s) != "pr" by { hide *; assert forall s <- front :: s in written; }
    DirectExpandsToItself(map[], front);
    EmptyDefault(front);
  }

  lemma SliceWithin<T>(a: seq<T>, b: seq<T>, k: nat)
    requires k <= |a|
    ensures (a + b)[..k] == a[..k] && (a + b)[k..] == a[k..] + b
  {
  }

  lemma EmptyDefault(options: seq<string>)
    ensures DefaultPreset(map[]) + options == options
  {
  }

  /**
   Exactly when expansion is inlining, refusals included. With no allowlist and every named preset known,
   the two parses agree if every segment written out has a colon, or a segment before the first one without
   does not decode, or all of them decode (so the ones without a colon are `fl`) and the source is invalid.
   */
  lemma InliningIff<F, D>(
    lib: Library<F, D>, unescape: string -> Option<string>, segments: seq<string>, presets: Presets)
    requires NoNesting(presets) && NamesKnown(presets, segments[..SourceIndex(segments)])
    ensures var written := WrittenOptions(presets, segments);
            var k := SourceIndex(written);
            ParseSegments(lib, unescape, segments, presets, None)
              == ParseSegments(lib, unescape, Inlined(presets, segments), map[], None)
            <==>
            || (forall s <- written :: LooksLikeOption(s))
            || DecodeAll(lib, written[..k]).Err?
            || (DecodeAll(lib, written).Ok?
                && ParseSource(lib, unescape, segments[SourceIndex(segments)..]) == Err(InvalidSource))
  {
    hide ParseSegments, ParseSource, Decode, CodeOf, WrittenOptions, NamesKnown, LooksLikeOption, AssignAll,
         ResolveCrop;
    var written, source := WrittenOptions(presets, segments), segments[SourceIndex(segments)..];
    var k := SourceIndex(written);
    WrittenOptionsPlain(presets, segments);
    BoundaryIsFirst(written);
    if forall s <- written :: LooksLikeOption(s) {
      assert AllDirect(written);
      ExpansionIsInlining(lib, unescape, segments, presets);
    } else {
      assert written[..|written|] == written;
      assert k < |written|;
      ParseWritten(lib, unescape, segments, presets);
      ParseInlined(lib, unescape, written, source);
      DecodePrefix(lib, written, k);
      SourceRefusals(lib, unescape, written[k..] + source);
      FirstColonless(written);
      ColonlessOption(lib, written[k]);
      DecodesIffEach(lib, written);
      assert written[k] in written && (written[k..] + source)[0] == written[k];
    }
  }

  lemma FirstColonless(written: seq<string>)
    requires SourceIndex(written) < |written|
    ensures ':' !in written[SourceIndex(written)]
  {
    BoundaryIsFirst(written);
    assert ':' !in "plain";
  }

  /**
   The request under any presets and allowlist it passes: the segments of the preset named `default`, if there
   is one, then its own with every `pr` written out. The allowlist says nothing about what presets hold.
   */
  lemma ParsePassed<F, D>(
    lib: Library<F, D>, unescape: string -> Option<string>, presets: Presets, allowed: Allowed,
    options: seq<string>, source: seq<string>)
    requires forall s <- options :: LooksLikeOption(s)
    requires source == [] || source[0] == "plain" || !LooksLikeOption(source[0])
    requires NamesKnown(presets, options) && CodesAllowed(allowed, options)
    ensures "default" in presets ==>
              ParseSegments(lib, unescape, options + source, presets, allowed)
              == ParseBoth(lib, unescape, presets["default"] + Written(presets, options), source)
    ensures "default" !in presets ==>
              ParseSegments(lib, unescape, options + source, presets, allowed)
              == ParseBoth(lib, unescape, Written(presets, options), source)
  {
    hide ParseBoth, ExpandAll, CodeOf, Written, NamesKnown, CodesAllowed;
    BoundaryAfterOptions(options, source);
    ExpansionWrites(presets, allowed, options);
    assert [] + Written(presets, options) == Written(presets, options);
  }

  lemma {:induction false} WrittenNamesWithout(presets: Presets, fewer: Presets, names: seq<string>)
    requires forall name <- names ::
               (name in presets <==> name in fewer) && (name in presets ==> presets[name] == fewer[name])
    ensures WrittenNames(presets, names) == WrittenNames(fewer, names)
    decreases |names|
  {
    if names != [] {
      assert names[0] in names && forall name <- names[1..] :: name in names;
      WrittenNamesWithout(presets, fewer, names[1..]);
    }
  }

  /** No segment names the preset. */
  predicate NamesNot(options: seq<string>, name: string) {
    forall s <- options :: CodeOf(s) == "pr" ==> name !in Split(s, ':')[1..]
  }

  lemma {:induction false} WrittenWithout(presets: Presets, name: string, options: seq<string>)
    requires NamesNot(options, name)
    ensures Written(presets - {name}, options) == Written(presets, options)
    ensures NamesKnown(presets - {name}, options) <==> NamesKnown(presets, options)
    decreases |options|
  {
    hide CodeOf, Split, WrittenNames;
    var fewer := presets - {name};
    forall s | s in options && CodeOf(s) == "pr"
      ensures AllKnown(fewer, Split(s, ':')[1..]) <==> AllKnown(presets, Split(s, ':')[1..])
    {
      var names := Split(s, ':')[1..];
      assert forall n <- names :: n in fewer <==> n in presets;
    }
    if options != [] {
      assert options[0] in options && forall s <- options[1..] :: s in options;
      WrittenWithout(presets, name, options[1..]);
      if CodeOf(options[0]) == "pr" {
        WrittenNamesWithout(presets, fewer, Split(options[0], ':')[1..]);
      }
    }
  }

  /**
   Configuring a `default` preset is writing its segments in front of the options of every request: with direct
   options as its segments, parsing under the registry equals parsing that longer request under the registry
   without it.
   */
  lemma DefaultIsPrepended<F, D>(
    lib: Library<F, D>, unescape: string -> Option<string>, presets: Presets, options: seq<string>, source: seq<string>)
    requires "default" in presets && AllDirect(presets["default"])
    requires forall s <- options :: LooksLikeOption(s)
    requires source == [] || source[0] == "plain" || !LooksLikeOption(source[0])
    requires NamesKnown(presets, options) && NamesNot(options, "default")
    ensures ParseSegments(lib, unescape, options + source, presets, None)
         == ParseSegments(lib, unescape, presets["default"] + options + source, presets - {"default"}, None)
  {
    hide ParseSegments, ParseBoth, CodeOf, Written, NamesKnown, CodesAllowed;
    var front, fewer := presets["default"], presets - {"default"};
    AllAllowed(options);
    AllAllowed(front + options);
    ParsePassed(lib, unescape, presets, None, options, source);
    WrittenWithout(presets, "default", options);
    WrittenInFront(fewer, front, options);
    assert forall s <- front + options :: LooksLikeOption(s);
    ParsePassed(lib, unescape, fewer, None, front + options, source);
  }

  lemma {:induction false} WrittenInFront(presets: Presets, front: seq<string>, options: seq<string>)
    requires AllDirect(front)
    ensures Written(presets, front + options) == front + Written(presets, options)
    ensures NamesKnown(presets, front + options) <==> NamesKnown(presets, options)
    decreases |front|
  {
    hide CodeOf, Split, WrittenNames, AllKnown;
    var all := front + options;
    assert forall s <- options :: s in all;
    if front == [] {
      assert all == options;
    } else {
      assert front[0] in front && forall s <- front[1..] :: s in front;
      assert all[0] == front[0] && all[1..] == front[1..] + options;
      WrittenInFront(presets, front[1..], options);
      assert all == [front[0]] + all[1..];
    }
  }

  /** Where either parse succeeds, they agree exactly when every segment written out is a plain option with a colon. */
  lemma AcceptedInliningIff<F, D>(
    lib: Library<F, D>, unescape: string -> Option<string>, segments: seq<string>, presets: Presets)
    requires NoNesting(presets) && NamesKnown(presets, segments[..SourceIndex(segments)])
    ensures var r, q := ParseSegments(lib, unescape, segments, presets, None),
                        ParseSegments(lib, unescape, Inlined(presets, segments), map[], None);
            r.Ok? || q.Ok? ==> (r == q <==> AllDirect(WrittenOptions(presets, segments)))
  {
    hide ParseSegments, ParseSource, Decode, CodeOf, WrittenOptions, NamesKnown, LooksLikeOption, AssignAll,
         ResolveCrop, Inlined;
    var written := WrittenOptions(presets, segments);
    WrittenOptionsPlain(presets, segments);
    InliningIff(lib, unescape, segments, presets);
    ParseWritten(lib, unescape, segments, presets);
    DecodePrefix(lib, written, SourceIndex(written));
  }

  /** Without a colon it can fail: a preset that says `plain` is refused, but written out it starts a source. */
  lemma InliningNeedsColons<F, D>(lib: Library<F, D>, unescape: string -> Option<string>)
    requires unescape("a").Some? && unescape("a").value != ""
    ensures var presets := map["p" := ["plain"]];
            var segments := ["pr:p", "a.png"];
            && NamesKnown(presets, segments[..SourceIndex(segments)])
            && ParseSegments(lib, unescape, segments, presets, None).Err?
            && ParseSegments(lib, unescape, Inlined(presets, segments), map[], None).Ok?
  {
    var presets := map["p" := ["plain"]];
    var segments := ["pr:p", "a.png"];
    PresetSegmentSplits();
    assert segments[1..] == ["a.png"] && ':' !in "a.png" && ':' in "pr:p" && ':' !in "plain";
    assert SourceIndex(["a.png"]) == 0;
    assert SourceIndex(segments) == 1;
    assert segments[..1] == ["pr:p"];
    assert ["pr:p"][..0] == [] && ["p"][..0] == [];
    assert PresetSegments(presets, ["p"]) == Ok([] + ["plain"]);
    assert CodeOf("pr:p") == "pr" && Split("pr:p", ':')[1..] == ["p"];
    assert [] + ["plain"] == ["plain"];
    assert ExpandOne(presets, None, "pr:p") == Ok(["plain"]);
    assert ExpandAll(presets, None, ["pr:p"]) == Ok([] + ["plain"]);
    ExpansionWrites(presets, None, ["pr:p"]);
    PlainIsNoOption(lib);
    var inlined := Inlined(presets, segments);
    assert inlined == ["plain", "a.png"];
    assert SourceIndex(inlined) == 0 && inlined[..0] == [];
    assert ExpandAll(map[], None, []) == Ok([]);
    assert ParseOptions(lib, []).Ok?;
    assert inlined[0..] == inlined && inlined[1..] == ["a.png"];
    PngExtension();
  }

  lemma PresetSegmentSplits()
    ensures Split("pr:p", ':') == ["pr", "p"]
  {
    assert "pr:p" == Join(["pr", "p"], ':') by {
      assert ["pr", "p"][1..] == ["p"];
    }
    SplitOfJoin(["pr", "p"], ':');
  }

  lemma PlainIsNoOption<F, D>(lib: Library<F, D>)
    ensures ParseOptions(lib, [] + ([] + ["plain"])).Err?
  {
    var s := [] + ([] + ["plain"]);
    assert s == ["plain"];
    SplitWithout("plain", ':');
    assert Decode(lib, "plain").Err?;
  }

  lemma PngExtension()
    ensures SplitExtension(Join(["a.png"], '/')) == Some(("a", Png))
  {
    ExtensionSplits("a", "png");
    assert "a" + "." + "png" == "a.png";
  }

  // ---------------------------------------------------------------------------------------------
  // Rendering a request and reading it back
  // ---------------------------------------------------------------------------------------------

  /** How the source is written: the literal form with its raw text, or the base64 form. */
  datatype SourceText = Plain(raw: string, ext: string) | Base64(url: string, ext: string)

  function RenderSource<F, D>(lib: Library<F, D>, s: SourceText): seq<string> {
    match s
    case Plain(raw, ext) => ["plain"] + Split(raw + "." + ext, '/')
    case Base64(url, ext) => [lib.encode(url) + "." + ext]
  }

  function RenderPath(signature: string, options: seq<string>, source: seq<string>): string {
    "/" + Join([signature] + (options + source), '/')
  }

  lemma ExtensionsAreClean(ext: string)
    ensures ReadFormat(ext).Some? <==> ext in KNOWN_EXTENSIONS
    ensures ext in KNOWN_EXTENSIONS ==> forall c <- ext :: c != '.' && c != '/' && c != ':'
  {
  }

  lemma {:induction false} LastSeparator(head: string, c: char, tail: string)
    requires c !in tail
    ensures c in head + [c] + tail
    ensures LastIndexOf(head + [c] + tail, c) == |head|
    ensures (head + [c] + tail)[..|head|] == head && (head + [c] + tail)[|head| + 1..] == tail
    decreases |tail|
  {
    var s := head + [c] + tail;
    assert s[|head|] == c && s[..|head|] == head && s[|head| + 1..] == tail;
    if tail != "" {
      var front := tail[..|tail| - 1];
      assert s[|s| - 1] == tail[|tail| - 1] && tail[|tail| - 1] in tail;
      assert s[..|s| - 1] == head + [c] + front;
      LastSeparator(head, c, front);
    }
  }

  lemma ExtensionSplits(base: string, ext: string)
    requires ext in KNOWN_EXTENSIONS
    ensures ReadFormat(ext).Some? && SplitExtension(base + "." + ext) == Some((base, ReadFormat(ext).value))
  {
    ExtensionsAreClean(ext);
    hide ReadFormat, LastIndexOf;
    LastSeparator(base, '.', ext);
    assert base + "." + ext == base + ['.'] + ext;
  }

  /** The text is a base and an extension that names the format, and the base reads as the URL. */
  ghost predicate StandsFor(read: string -> Option<string>, text: string, url: string, format: ImageFormat) {
    exists base, ext :: text == base + "." + ext && ReadFormat(ext) == Some(format) && read(base) == Some(url)
  }

  lemma SplitsAtExtension(base: string, ext: string, format: ImageFormat)
    requires ReadFormat(ext) == Some(format)
    ensures SplitExtension(base + "." + ext) == Some((base, format))
  {
    ExtensionsAreClean(ext);
    ExtensionSplits(base, ext);
  }

  lemma ExtensionRejoins(text: string)
    requires SplitExtension(text).Some?
    ensures var (base, format) := SplitExtension(text).value;
            exists ext :: text == base + "." + ext && ReadFormat(ext) == Some(format)
  {
    hide ReadFormat;
    var i := LastIndexOf(text, '.');
    assert text == text[..i] + "." + text[i + 1..];
  }

  lemma StandsForExactly(read: string -> Option<string>, text: string, url: string, format: ImageFormat)
    ensures StandsFor(read, text, url, format)
       <==> exists base :: SplitExtension(text) == Some((base, format)) && read(base) == Some(url)
  {
    hide ReadFormat, SplitExtension;
    if base, ext :| text == base + "." + ext && ReadFormat(ext) == Some(format) && read(base) == Some(url) {
      SplitsAtExtension(base, ext, format);
    }
    if SplitExtension(text).Some? {
      ExtensionRejoins(text);
    }
  }

  /** Exactly the plain sources that are accepted, and as what. */
  lemma PlainAcceptedExactly<F, D>(
    lib: Library<F, D>, unescape: string -> Option<string>, rest: seq<string>, s: Source)
    ensures ParseSource(lib, unescape, ["plain"] + rest) == Ok(s)
       <==> rest != [] && s.url != "" && StandsFor(unescape, Join(rest, '/'), s.url, s.format)
  {
    hide Join, ReadFormat, SplitExtension, StandsFor;
    assert (["plain"] + rest)[1..] == rest;
    StandsForExactly(unescape, Join(rest, '/'), s.url, s.format);
  }

  /** Exactly the encoded sources that are accepted, and as what: one segment, decoded by the library. */
  lemma EncodedAcceptedExactly<F, D>(
    lib: Library<F, D>, unescape: string -> Option<string>, segments: seq<string>, s: Source)
    requires segments != [] && segments[0] != "plain"
    ensures ParseSource(lib, unescape, segments) == Ok(s)
       <==> |segments| == 1 && s.url != "" && StandsFor(lib.decode, segments[0], s.url, s.format)
  {
    hide ReadFormat, SplitExtension, StandsFor;
    StandsForExactly(lib.decode, segments[0], s.url, s.format);
  }

  /** The text stands for the empty URL, in whatever format. */
  ghost predicate StandsForNothing(read: string -> Option<string>, text: string) {
    exists format :: StandsFor(read, text, "", format)
  }

  lemma NothingExactly(read: string -> Option<string>, text: string)
    ensures StandsForNothing(read, text)
       <==> SplitExtension(text).Some? && read(SplitExtension(text).value.0) == Some("")
  {
    hide SplitExtension, StandsFor;
    if f :| StandsFor(read, text, "", f) {
      StandsForExactly(read, text, "", f);
    }
    if SplitExtension(text).Some? {
      StandsForExactly(read, text, "", SplitExtension(text).value.1);
    }
  }

  /**
   Which error a refused source gives: it is empty if there is no segment, or none behind `plain`, or its text
   stands for the empty URL; everything else is invalid.
   */
  lemma SourceErrors<F, D>(lib: Library<F, D>, unescape: string -> Option<string>, segments: seq<string>)
    ensures ParseSource(lib, unescape, segments) == Err(EmptySource)
       <==> || segments == [] || segments == ["plain"]
            || (segments[0] == "plain" && StandsForNothing(unescape, Join(segments[1..], '/')))
            || (segments[0] != "plain" && |segments| == 1 && StandsForNothing(lib.decode, segments[0]))
    ensures ParseSource(lib, unescape, segments).Err? ==>
              ParseSource(lib, unescape, segments).error in {EmptySource, InvalidSource}
  {
    hide Join, SplitExtension, StandsForNothing;
    if segments != [] {
      NothingExactly(unescape, Join(segments[1..], '/'));
      NothingExactly(lib.decode, segments[0]);
      assert segments[1..] == [] ==> segments == [segments[0]];
    }
  }

  /** What a source text stands for, if it stands for anything. */
  function Meaning(unescape: string -> Option<string>, s: SourceText): Option<Source> {
    var format :- ReadFormat(s.ext);
    var url :- if s.Plain? then unescape(s.raw) else Some(s.url);
    if url == "" then None else Some(Source(url, format))
  }

  /** Either form of the source is read back, and is found right behind the options. */
  lemma SourceReadsBack<F(!new), D(!new)>(lib: Library<F, D>, unescape: string -> Option<string>, s: SourceText)
    requires Lawful(lib) && Meaning(unescape, s).Some?
    ensures ParseSource(lib, unescape, RenderSource(lib, s)) == Ok(Meaning(unescape, s).value)
    ensures var segments := RenderSource(lib, s);
            && segments != [] && (segments[0] == "plain" || !LooksLikeOption(segments[0]))
            && (forall p <- segments :: '/' !in p)
  {
    hide SplitExtension;
    ExtensionsAreClean(s.ext);
    match s
    case Plain(raw, ext) =>
      ExtensionSplits(raw, ext);
      JoinOfSplit(raw + "." + ext, '/');
      SplitPieces(raw + "." + ext, '/');
      assert RenderSource(lib, s)[1..] == Split(raw + "." + ext, '/');
      assert '/' !in "plain";
    case Base64(url, ext) =>
      ExtensionSplits(lib.encode(url), ext);
      var text := lib.encode(url) + "." + ext;
      assert RenderSource(lib, s) == [text] && '.' in text && '.' !in "plain";
  }

  /**
   A rendered path splits into the signature, the signed path and the segments it was made of, and the
   boundary search finds the source.
   */
  lemma RenderedPathSplits(signature: string, options: seq<string>, source: seq<string>)
    requires '/' !in signature
    requires forall s <- options :: LooksLikeOption(s) && '/' !in s
    requires source != [] && (source[0] == "plain" || !LooksLikeOption(source[0]))
    requires forall s <- source :: '/' !in s
    requires Join(options + source, '/') != ""
    ensures SplitPath(RenderPath(signature, options, source))
         == Ok(SignedRequest(signature, "/" + Join(options + source, '/'), options + source))
    ensures SourceIndex(options + source) == |options|
    ensures (options + source)[..|options|] == options && (options + source)[|options|..] == source
  {
    hide IndexOf;
    var segments := options + source;
    var path := RenderPath(signature, options, source);
    JoinStep(signature, segments, '/');
    var trimmed := signature + ['/'] + Join(segments, '/');
    assert path[1..] == trimmed;
    FirstSeparator(signature, '/', Join(segments, '/'));
    SplitOfJoin(segments, '/');
    BoundaryAfterOptions(options, source);
  }

  lemma {:induction false} JoinChars(parts: seq<string>, sep: char, c: char)
    ensures c in Join(parts, sep) ==> c == sep || exists p <- parts :: c in p
    ensures |parts| >= 2 ==> sep in Join(parts, sep)
    decreases |parts|
  {
    if |parts| >= 2 {
      JoinChars(parts[1..], sep, c);
      assert parts == [parts[0]] + parts[1..];
      assert Join(parts, sep)[|parts[0]|] == sep;
    }
  }

  /** Printed option segments can stand in a path: a colon, no slash, and not a preset. */
  lemma PrintedSegments<F(!new), D(!new)>(lib: Library<F, D>, us: seq<Update<F, D>>)
    requires Lawful(lib) && forall u <- us :: ValidUpdate(lib, u)
    ensures forall s <- PrintAll(lib, us) :: LooksLikeOption(s) && '/' !in s && CodeOf(s) != "pr"
  {
    hide PrintArgs, CodeText, Lawful, ValidUpdate, CodeOf, Join;
    forall i | 0 <= i < |us|
      ensures var s := PrintUpdate(lib, us[i]); LooksLikeOption(s) && '/' !in s && CodeOf(s) != "pr"
    {
      var u := us[i];
      var parts := [CodeText(u.Code())] + PrintArgs(lib, u);
      ArgsClean(lib, u);
      CodeTextClean(u.Code());
      JoinChars(parts, ':', '/');
      DecodesPrinted(lib, u);
      DecodedCode(lib, PrintUpdate(lib, u));
      NoPresetCode(u.Code());
    }
  }

  lemma NoPresetCode(code: Code)
    ensures CodeText(code) != "pr"
  {
  }

  /**
   The whole request round trip: for any signature, well-formed options and source, the rendered path
   splits, and its remainder parses to exactly those options and that source.
   */
  lemma RequestRoundTrip<F(!new), D(!new)>(
    lib: Library<F, D>, unescape: string -> Option<string>, signature: string, o: Options<F, D>, s: SourceText)
    requires Lawful(lib) && WellFormed(lib, o) && '/' !in signature && Meaning(unescape, s).Some?
    ensures var path := RenderPath(signature, Print(lib, o), RenderSource(lib, s));
            && SplitPath(path).Ok? && SplitPath(path).value.signature == signature
            && ParseSegments(lib, unescape, SplitPath(path).value.remainder, map[], None)
               == Ok(Parsed(o, Meaning(unescape, s).value))
  {
    hide Lawful, WellFormed, ParseOptions, ParseSource, RenderSource, Meaning, UpdatesFor, PrintAll, CodeOf, SplitPath,
         RenderPath, SourceIndex, ExpandAll;
    var options, source := Print(lib, o), RenderSource(lib, s);
    AllUpdatesValid(lib, o);
    PrintedSegments(lib, UpdatesFor(lib, o, ALL_CODES));
    SourceReadsBack(lib, unescape, s);
    SourceIsNotBlank(lib, unescape, options, s);
    RenderedPathSplits(signature, options, source);
    DirectExpandsToItself(map[], options);
    ParseOfPrint(lib, o);
    assert DefaultPreset(map[]) + options == options;
  }

  lemma SourceIsNotBlank<F, D>(
    lib: Library<F, D>, unescape: string -> Option<string>, options: seq<string>, s: SourceText)
    requires Meaning(unescape, s).Some?
    ensures Join(options + RenderSource(lib, s), '/') != ""
  {
    var source := RenderSource(lib, s);
    assert |source| >= 1 && source[0] != "";
    var all := options + source;
    if |all| >= 2 {
      JoinChars(all, '/', '/');
    } else {
      assert all == source;
    }
  }

  // ---------------------------------------------------------------------------------------------
  // The resize query
  // ---------------------------------------------------------------------------------------------

  /** The query a parsed request becomes; a watermark needs its opacity, the other slots only modify it. */
  function IntoQuery<F, D>(p: Parsed<F, D>): Query<F, D> {
    var o := p.options;
    Query(
      p.source.url, o.width, o.height, o.resizeType, p.source.format, o.blurSigma, o.grayscale,
      UnwrapOr(o.enlarge, false), o.quality, o.jpegQuality, o.webpQuality, o.webpLossless, o.jpegProgressive,
      o.jpegNoSubsampling, o.maxBytes, o.background, UnwrapOr(o.autorotate, true), UnwrapOr(o.stripMetadata, true),
      o.crop, o.gravity, o.rotate, o.flipHorizontal, o.flipVertical, o.trim, UnwrapOr(o.extend, false), o.padding,
      o.zoomX, o.zoomY, o.dpr, o.minWidth, o.minHeight,
      if o.watermarkOpacity.None? then None
      else Some(Watermark(o.watermarkOpacity.value, o.watermarkPosition, o.watermarkX, o.watermarkY, o.watermarkScale,
                          o.watermarkUrl, o.watermarkSize, o.watermarkRotate, o.watermarkShadow)))
  }

  /** The options with the defaults that the query fills in, and without the slots of a watermark that is off. */
  function Effective<F, D>(lib: Library<F, D>, o: Options<F, D>): Options<F, D> {
    var filled := o.(enlarge := Some(UnwrapOr(o.enlarge, false)), autorotate := Some(UnwrapOr(o.autorotate, true)),
                     stripMetadata := Some(UnwrapOr(o.stripMetadata, true)), extend := Some(UnwrapOr(o.extend, false)));
    if o.watermarkOpacity.Some? then filled
    else
      filled.(watermarkPosition := Center, watermarkX := lib.zeroF, watermarkY := lib.zeroF,
              watermarkScale := lib.zeroF, watermarkUrl := None, watermarkSize := None, watermarkRotate := lib.zeroF,
              watermarkShadow := None)
  }

  /** The request that a query stands for. */
  function OfQuery<F, D>(lib: Library<F, D>, q: Query<F, D>): Parsed<F, D> {
    var w := if q.watermark.Some? then q.watermark.value
             else Watermark(lib.zeroF, Center, lib.zeroF, lib.zeroF, lib.zeroF, None, None, lib.zeroF, None);
    Parsed(
      Options(
        q.width, q.height, q.resizeType, q.blurSigma, q.grayscale, Some(q.enlarge), q.quality, q.jpegQuality,
        q.webpQuality, q.webpLossless, q.jpegProgressive, q.jpegNoSubsampling, q.maxBytes, q.background,
        Some(q.autorotate), Some(q.stripMetadata), q.crop, q.gravity, q.rotate, q.flipHorizontal, q.flipVertical,
        q.trim, Some(q.extend), q.padding, q.zoomX, q.zoomY, q.dpr, q.minWidth, q.minHeight,
        if q.watermark.Some? then Some(w.opacity) else None, w.position, w.xOffset, w.yOffset, w.scale, w.url, w.size,
        w.rotate, w.shadow),
      Source(q.url, q.format))
  }

  lemma EffectiveFromQuery<F, D>(lib: Library<F, D>, p: Parsed<F, D>)
    ensures OfQuery(lib, IntoQuery(p)) == Parsed(Effective(lib, p.options), p.source)
  {
  }

  lemma QueryOfEffective<F, D>(lib: Library<F, D>, p: Parsed<F, D>)
    ensures IntoQuery(Parsed(Effective(lib, p.options), p.source)) == IntoQuery(p)
  {
    var o := p.options;
    FilledTwice(o.enlarge, false);
    FilledTwice(o.autorotate, true);
    FilledTwice(o.stripMetadata, true);
    FilledTwice(o.extend, false);
    hide UnwrapOr;
  }

  lemma FilledTwice<T>(x: Option<T>, default: T)
    ensures UnwrapOr(Some(UnwrapOr(x, default)), default) == UnwrapOr(x, default)
  {
  }

  /** The query keeps all of the request but the four defaults and the slots of a watermark without opacity. */
  lemma IntoQueryKeeps<F, D>(lib: Library<F, D>, p: Parsed<F, D>, q: Parsed<F, D>)
    ensures OfQuery(lib, IntoQuery(p)) == Parsed(Effective(lib, p.options), p.source)
    ensures IntoQuery(p) == IntoQuery(q)
       <==> p.source == q.source && Effective(lib, p.options) == Effective(lib, q.options)
  {
    hide IntoQuery, Effective, OfQuery;
    EffectiveFromQuery(lib, p);
    EffectiveFromQuery(lib, q);
    QueryOfEffective(lib, p);
    QueryOfEffective(lib, q);
  }

  lemma {:induction false} WrittenIsItself(presets: Presets, segments: seq<string>)
    requires forall s <- segments :: CodeOf(s) != "pr"
    ensures Written(presets, segments) == segments
    decreases |segments|
  {
    hide CodeOf, WrittenNames;
    if segments != [] {
      assert segments[0] in segments;
      WrittenIsItself(presets, segments[1..]);
      assert segments == [segments[0]] + segments[1..];
    }
  }

  /** The same segments, in some order, pass the same configuration. */
  lemma SamePasses(presets: Presets, allowed: Allowed, a: seq<string>, b: seq<string>)
    requires forall s <- a :: s in b
    requires forall s <- b :: s in a
    ensures NamesKnown(presets, a) <==> NamesKnown(presets, b)
    ensures CodesAllowed(allowed, a) <==> CodesAllowed(allowed, b)
  {
    hide CodeOf, AllKnown, Split;
  }

  /** A refusal by the configuration, before any option is read. */
  predicate Refused(e: UrlError) {
    e.OptionNotAllowed? || e.UnknownPreset?
  }

  /**
   Under any presets and allowlist: two requests with the same option segments in two orders become the same
   query, or are both refused at the same stage, if written out, with the default preset in front, they
   differ only in order across codes.
   */
  lemma QueryUpToOrder<F, D>(lib: Library<F, D>, unescape: string -> Option<string>, presets: Presets, allowed: Allowed,
                             a: seq<string>, b: seq<string>, source: seq<string>)
    requires forall s <- a :: LooksLikeOption(s) && s in b
    requires forall s <- b :: LooksLikeOption(s) && s in a
    requires source == [] || source[0] == "plain" || !LooksLikeOption(source[0])
    requires SameWithinCodes(DefaultPreset(presets) + Written(presets, a), DefaultPreset(presets) + Written(presets, b))
    ensures var ra := ParseSegments(lib, unescape, a + source, presets, allowed);
            var rb := ParseSegments(lib, unescape, b + source, presets, allowed);
            && (ra.Ok? <==> rb.Ok?)
            && (ra.Ok? ==> IntoQuery(ra.value) == IntoQuery(rb.value))
            && (ra.Err? ==>
                  && (ra.error.BadOption? <==> rb.error.BadOption?) && (Refused(ra.error) <==> Refused(rb.error))
                  && (!ra.error.BadOption? && !Refused(ra.error) ==> ra == rb))
  {
    hide ParseOptions, ParseSource, SameWithinCodes, IntoQuery, SourceIndex, ExpandAll, CodeOf, Written, NamesKnown,
         CodesAllowed;
    BoundaryAfterOptions(a, source);
    BoundaryAfterOptions(b, source);
    ExpansionWrites(presets, allowed, a);
    ExpansionWrites(presets, allowed, b);
    SamePasses(presets, allowed, a, b);
    ParseUpToOrder(lib, DefaultPreset(presets) + Written(presets, a), DefaultPreset(presets) + Written(presets, b));
    SourceRefusals(lib, unescape, source);
  }

  /** Segments that name no preset meet those conditions when they differ only in order across codes. */
  lemma DirectReordering(presets: Presets, a: seq<string>, b: seq<string>)
    requires forall s <- a + b :: CodeOf(s) != "pr"
    requires SameWithinCodes(a, b)
    ensures (forall s <- a :: s in b) && (forall s <- b :: s in a)
    ensures SameWithinCodes(DefaultPreset(presets) + Written(presets, a), DefaultPreset(presets) + Written(presets, b))
  {
    hide CodeOf, WithCode, DefaultPreset;
    assert forall s <- a :: s in a + b;
    assert forall s <- b :: s in a + b;
    WrittenIsItself(presets, a);
    WrittenIsItself(presets, b);
    forall s
      ensures s in a <==> s in b
    {
      WithCodeHas(a, CodeOf(s), s);
      WithCodeHas(b, CodeOf(s), s);
    }
    forall text
      ensures WithCode(DefaultPreset(presets) + a, text) == WithCode(DefaultPreset(presets) + b, text)
    {
      WithCodeAppend(DefaultPreset(presets), a, text);
      WithCodeAppend(DefaultPreset(presets), b, text);
    }
  }
}

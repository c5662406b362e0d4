/**
 The configuration of the grammar: the `PRESETS` text, a comma-separated list of `name=segment/segment`
 entries, and the `ALLOWED_PROCESSING_OPTIONS` text, a comma-separated list of option codes. White space
 around every name, segment and code is dropped, and so is a blank entry.
 */
module UrlPresets {
  import opened Common
  import opened Text
  import opened UrlOptions
  import opened UrlRequest

  // ---------------------------------------------------------------------------------------------
  // Trimming
  // ---------------------------------------------------------------------------------------------

  /** The characters with the Unicode property `White_Space`. */
  predicate IsSpace(c: char) {
    var n := c as int;
    || 0x9 <= n <= 0xD || n == 0x20 || n == 0x85 || n == 0xA0 || n == 0x1680 || 0x2000 <= n <= 0x200A
    || n == 0x2028 || n == 0x2029 || n == 0x202F || n == 0x205F || n == 0x3000
  }

  predicate AllSpace(s: string) {
    forall c <- s :: IsSpace(c)
  }

  function TrimStart(s: string): string {
    if s != "" && IsSpace(s[0]) then TrimStart(s[1..]) else s
  }

  function TrimEnd(s: string): string {
    if s != "" && IsSpace(s[|s| - 1]) then TrimEnd(s[..|s| - 1]) else s
  }

  function Trim(s: string): string {
    TrimEnd(TrimStart(s))
  }

  /** Text that starts and ends with something other than white space. */
  predicate Tight(s: string) {
    s != "" && !IsSpace(s[0]) && !IsSpace(s[|s| - 1])
  }

  lemma {:induction false} TrimStartDrops(left: string, s: string)
    requires AllSpace(left) && (s == "" || !IsSpace(s[0]))
    ensures TrimStart(left + s) == s
  {
    hide IsSpace;
    if left == "" {
      assert left + s == s;
    } else {
      assert left[0] in left && (left + s)[1..] == left[1..] + s;
      TrimStartDrops(left[1..], s);
    }
  }

  lemma {:induction false} TrimEndDrops(s: string, right: string)
    requires AllSpace(right) && (s == "" || !IsSpace(s[|s| - 1]))
    ensures TrimEnd(s + right) == s
  {
    hide IsSpace;
    if right == "" {
      assert s + right == s;
    } else {
      var all, n := s + right, |right|;
      assert right[n - 1] in right && all[|all| - 1] == right[n - 1];
      assert all[..|all| - 1] == s + right[..n - 1];
      TrimEndDrops(s, right[..n - 1]);
    }
  }

  /** Trimming drops exactly the white space around a text. */
  lemma TrimOfPadded(left: string, s: string, right: string)
    requires AllSpace(left) && AllSpace(right) && (s == "" || Tight(s))
    ensures Trim(left + s + right) == s
  {
    hide IsSpace, TrimStart, TrimEnd;
    if s == "" {
      var spaces := left + right;
      assert left + s + right == spaces;
      TrimStartDrops(spaces, "");
      assert spaces + "" == spaces && "" + "" == "";
      TrimEndDrops("", "");
    } else {
      ConcatAssociative(left, s, right);
      TrimStartDrops(left, s + right);
      TrimEndDrops(s, right);
    }
  }

  lemma {:induction false} TrimStartTight(s: string)
    ensures var t := TrimStart(s); (t == "" || !IsSpace(t[0])) && forall c <- t :: c in s
  {
    hide IsSpace;
    if s != "" && IsSpace(s[0]) {
      TrimStartTight(s[1..]);
    }
  }

  lemma {:induction false} TrimEndTight(s: string)
    requires s == "" || !IsSpace(s[0])
    ensures var t := TrimEnd(s); (t == "" || Tight(t)) && forall c <- t :: c in s
  {
    hide IsSpace;
    if s != "" && IsSpace(s[|s| - 1]) {
      TrimEndTight(s[..|s| - 1]);
    }
  }

  lemma TrimIsTight(s: string)
    ensures (Trim(s) == "" || Tight(Trim(s))) && forall c <- Trim(s) :: c in s
  {
    hide IsSpace, TrimStart, TrimEnd;
    TrimStartTight(s);
    TrimEndTight(TrimStart(s));
  }

  /** The pieces that are not blank, trimmed. */
  function Kept(pieces: seq<string>): seq<string> {
    if pieces == [] then []
    else (if Trim(pieces[0]) == "" then [] else [Trim(pieces[0])]) + Kept(pieces[1..])
  }

  lemma {:induction false} KeptAreTight(pieces: seq<string>, sep: char)
    requires forall p <- pieces :: sep !in p
    ensures forall t <- Kept(pieces) :: Tight(t) && sep !in t
  {
    hide Trim, Tight;
    if pieces != [] {
      TrimIsTight(pieces[0]);
      assert pieces[0] in pieces;
      KeptAreTight(pieces[1..], sep);
    }
  }

  /** White space is exactly the characters that the Unicode property list gives as `White_Space`. */
  lemma SpacesAre(c: char)
    ensures IsSpace(c)
       <==> c in {'\t', '\n', '\U{000B}', '\U{000C}', '\r', ' ', '\U{0085}', '\U{00A0}', '\U{1680}', '\U{2028}',
                  '\U{2029}', '\U{202F}', '\U{205F}', '\U{3000}'}
            || '\U{2000}' <= c <= '\U{200A}'
  {
  }

  /** A text with the white space around it; a blank text stands for nothing. */
  datatype Padded = Padded(left: string, text: string, right: string) {
    function Render(): string {
      left + text + right
    }

    predicate Valid() {
      AllSpace(left) && AllSpace(right) && (text == "" || Tight(text))
    }
  }

  function RenderEach(ps: seq<Padded>): seq<string> {
    seq(|ps|, i requires 0 <= i < |ps| => ps[i].Render())
  }

  function TextsOf(ps: seq<Padded>): seq<string> {
    if ps == [] then [] else (if ps[0].text == "" then [] else [ps[0].text]) + TextsOf(ps[1..])
  }

  lemma {:induction false} KeptOfRendered(ps: seq<Padded>)
    requires forall p <- ps :: p.Valid()
    ensures Kept(RenderEach(ps)) == TextsOf(ps)
  {
    hide Trim, Padded.Valid;
    if ps != [] {
      var p := ps[0];
      assert p.Valid();
      TrimOfValid(p);
      KeptOfRendered(ps[1..]);
      assert RenderEach(ps)[1..] == RenderEach(ps[1..]);
    }
  }

  lemma TrimOfValid(p: Padded)
    requires p.Valid()
    ensures Trim(p.Render()) == p.text
  {
    hide AllSpace, Tight;
    TrimOfPadded(p.left, p.text, p.right);
  }

  // ---------------------------------------------------------------------------------------------
  // The preset registry
  // ---------------------------------------------------------------------------------------------

  datatype PresetError = MissingEquals | EmptyName | NoOptions | NestedPreset | DuplicateName

  /** One entry that is not blank: its name and its segments. */
  function ReadEntry(entry: string): Result<(string, seq<string>), PresetError> {
    if '=' !in entry then Err(MissingEquals)
    else
      var i := IndexOf(entry, '=');
      var name, segments := Trim(entry[..i]), Kept(Split(entry[i + 1..], '/'));
      if name == "" then Err(EmptyName)
      else if segments == [] then Err(NoOptions)
      else if exists s <- segments :: CodeOf(s) == "pr" then Err(NestedPreset)
      else Ok((name, segments))
  }

  /** The presets with one more entry, which may be blank. */
  function AddEntry(presets: Presets, piece: string): Result<Presets, PresetError> {
    var entry := Trim(piece);
    if entry == "" then Ok(presets)
    else
      var e :- ReadEntry(entry);
      if e.0 in presets then Err(DuplicateName) else Ok(presets[e.0 := e.1])
  }

  function AddAll(presets: Presets, pieces: seq<string>): Result<Presets, PresetError>
    decreases |pieces|
  {
    if pieces == [] then Ok(presets)
    else
      var next :- AddEntry(presets, pieces[0]);
      AddAll(next, pieces[1..])
  }

  function Registry(raw: string): Result<Presets, PresetError> {
    AddAll(map[], Split(raw, ','))
  }

  /** `PresetRegistry::parse`: the loop over the entries, inserting into the map. */
  method ParseRegistry(raw: string) returns (r: Result<Presets, PresetError>)
    ensures r == Registry(raw)
  {
    hide ReadEntry, Trim;
    var presets: Presets := map[];
    var pieces := Split(raw, ',');
    assert pieces[0..] == pieces;
    for i := 0 to |pieces|
      invariant AddAll(map[], pieces) == AddAll(presets, pieces[i..])
    {
      assert pieces[i..][1..] == pieces[i + 1..];
      var entry := Trim(pieces[i]);
      if entry == "" {
        continue;
      }
      var read := ReadEntry(entry);
      if read.Err? {
        return Err(read.error);
      }
      var (name, segments) := read.value;
      if name in presets {
        return Err(DuplicateName);
      }
      presets := presets[name := segments];
    }
    r := Ok(presets);
  }

  /** What the rest of the grammar relies on: trimmed names, at least one segment each, none of them a `pr`. */
  predicate Sound(presets: Presets) {
    forall name <- presets ::
      && Tight(name) && '=' !in name && presets[name] != []
      && forall s <- presets[name] :: Tight(s) && '/' !in s && CodeOf(s) != "pr"
  }

  lemma EntryIsSound(entry: string)
    ensures var e := ReadEntry(entry);
            e.Ok? ==>
              && Tight(e.value.0) && '=' !in e.value.0 && e.value.1 != []
              && forall s <- e.value.1 :: Tight(s) && '/' !in s && CodeOf(s) != "pr"
  {
    hide Trim, Kept, CodeOf, Tight, Split;
    if '=' in entry {
      var i := IndexOf(entry, '=');
      TrimIsTight(entry[..i]);
      SplitPieces(entry[i + 1..], '/');
      KeptAreTight(Split(entry[i + 1..], '/'), '/');
    }
  }

  lemma {:induction false} AddAllIsSound(presets: Presets, pieces: seq<string>)
    requires Sound(presets)
    ensures var r := AddAll(presets, pieces); r.Ok? ==> Sound(r.value)
    decreases |pieces|
  {
    hide Trim, ReadEntry, Tight, CodeOf;
    if pieces != [] {
      EntryIsSound(Trim(pieces[0]));
      var next := AddEntry(presets, pieces[0]);
      if next.Ok? {
        AddAllIsSound(next.value, pieces[1..]);
      }
    }
  }

  /**
   A registry that parses is sound; so a request that names configured presets, all of whose segments have
   a colon, parses as if the presets were written out in it.
   */
  lemma RegistryIsSound(raw: string)
    ensures var r := Registry(raw);
            r.Ok? ==>
              && Sound(r.value) && NoNesting(r.value)
              && ((forall name <- r.value, s <- r.value[name] :: LooksLikeOption(s)) ==> Inlinable(r.value))
  {
    hide Tight, CodeOf, Split;
    AddAllIsSound(map[], Split(raw, ','));
  }

  // ---------------------------------------------------------------------------------------------
  // Writing a registry and reading it back
  // ---------------------------------------------------------------------------------------------

  /** One entry as an operator writes it, with white space wherever it may stand, or a blank between commas. */
  datatype Item =
    | Blank(space: string)
    | Entry(left: string, name: string, gap: string, options: seq<Padded>, right: string)
  {
    function Core(): string
      requires Entry?
    {
      name + gap + ['='] + Join(RenderEach(options), '/')
    }

    function Render(): string {
      if Blank? then space else left + Core() + right
    }

    predicate Valid() {
      && ',' !in Render()
      && if Blank? then AllSpace(space)
         else
           && AllSpace(left) && AllSpace(gap) && AllSpace(right)
           && Tight(name) && '=' !in name
           && options != [] && TextsOf(options) != [] && Tight(Core())
           && (forall p <- options :: p.Valid() && '/' !in p.text)
           && (forall s <- TextsOf(options) :: CodeOf(s) != "pr")
    }
  }

  function RenderItems(items: seq<Item>): seq<string> {
    seq(|items|, i requires 0 <= i < |items| => items[i].Render())
  }

  lemma SpaceHolds(s: string)
    requires AllSpace(s)
    ensures '=' !in s && '/' !in s
  {
  }

  lemma NoSlash(ps: seq<Padded>)
    requires forall p <- ps :: p.Valid() && '/' !in p.text
    ensures forall s <- RenderEach(ps) :: '/' !in s
  {
    hide AllSpace, Tight;
    forall i | 0 <= i < |ps|
      ensures '/' !in ps[i].Render()
    {
      assert ps[i] in ps;
      SpaceHolds(ps[i].left);
      SpaceHolds(ps[i].right);
    }
  }

  lemma EntryOfParts(name: string, gap: string, pieces: seq<string>)
    requires Tight(name) && '=' !in name && AllSpace(gap)
    requires pieces != [] && (forall p <- pieces :: '/' !in p)
    requires Kept(pieces) != [] && forall s <- Kept(pieces) :: CodeOf(s) != "pr"
    ensures ReadEntry(name + gap + ['='] + Join(pieces, '/')) == Ok((name, Kept(pieces)))
  {
    assert name != "";
    hide AllSpace, Tight, Trim, Kept, Split, Join, IndexOf, CodeOf;
    SpaceHolds(gap);
    FirstSeparator(name + gap, '=', Join(pieces, '/'));
    SpaceIsNothing();
    TrimOfPadded("", name, gap);
    assert "" + name + gap == name + gap;
    SplitOfJoin(pieces, '/');
  }

  /** A written entry is read as its name and its segments, whatever white space was put in. */
  lemma EntryReadsBack(item: Item)
    requires item.Entry? && item.Valid()
    ensures Trim(item.Render()) == item.Core()
    ensures ReadEntry(item.Core()) == Ok((item.name, TextsOf(item.options)))
  {
    hide AllSpace, Tight, Trim, Kept, Join, TextsOf, CodeOf, Padded.Valid, ReadEntry;
    TrimOfPadded(item.left, item.Core(), item.right);
    NoSlash(item.options);
    KeptOfRendered(item.options);
    EntryOfParts(item.name, item.gap, RenderEach(item.options));
  }

  lemma SpaceIsNothing()
    ensures AllSpace("")
  {
  }

  lemma BlankTrims(space: string)
    requires AllSpace(space)
    ensures Trim(space) == ""
  {
    hide AllSpace, Trim;
    SpaceIsNothing();
    TrimOfPadded(space, "", "");
    assert space + "" + "" == space;
  }

  /** No two entries share a name. */
  predicate Distinct(items: seq<Item>) {
    forall i, j | 0 <= i < j < |items| :: items[i].Entry? && items[j].Entry? ==> items[i].name != items[j].name
  }

  /** The map that entries on top of a map define, the later of two equal names winning. */
  function Defined(presets: Presets, items: seq<Item>): Presets
    decreases |items|
  {
    if items == [] then presets
    else if items[0].Blank? then Defined(presets, items[1..])
    else Defined(presets[items[0].name := TextsOf(items[0].options)], items[1..])
  }

  predicate Fresh(presets: Presets, items: seq<Item>) {
    forall item <- items :: item.Entry? ==> item.name !in presets
  }

  lemma {:induction false} AddAllOfItems(presets: Presets, items: seq<Item>)
    requires forall item <- items :: item.Valid()
    ensures AddAll(presets, RenderItems(items))
         == if Distinct(items) && Fresh(presets, items) then Ok(Defined(presets, items)) else Err(DuplicateName)
    decreases |items|
  {
    hide Item.Valid, Item.Render, Item.Core, TextsOf, Trim, ReadEntry;
    if items != [] {
      var item, others := items[0], items[1..];
      assert item.Valid() && items == [item] + others;
      assert RenderItems(items)[1..] == RenderItems(others);
      if item.Blank? {
        BlankReadsBack(item);
        AddAllOfItems(presets, others);
      } else {
        EntryReadsBack(item);
        TightIsNotBlank(item);
        AddAllOfItems(presets[item.name := TextsOf(item.options)], others);
      }
      FreshDistinct(presets, items, if item.Blank? then presets else presets[item.name := TextsOf(item.options)]);
    }
  }

  lemma BlankReadsBack(item: Item)
    requires item.Blank? && item.Valid()
    ensures Trim(item.Render()) == ""
  {
    BlankTrims(item.space);
  }

  lemma TightIsNotBlank(item: Item)
    requires item.Entry? && item.Valid()
    ensures item.Core() != ""
  {
  }

  lemma FreshDistinct(presets: Presets, items: seq<Item>, next: Presets)
    requires items != []
    requires next.Keys == presets.Keys + (if items[0].Entry? then {items[0].name} else {})
    ensures Distinct(items) && Fresh(presets, items)
       <==> (items[0].Entry? ==> items[0].name !in presets) && Distinct(items[1..]) && Fresh(next, items[1..])
  {
    var others := items[1..];
    assert items == [items[0]] + others;
    if Distinct(items) && Fresh(presets, items) {
      assert items[0] in items;
      forall item | item in others && item.Entry?
        ensures item.name !in next
      {
        var j :| 0 <= j < |others| && others[j] == item;
        assert items[j + 1] == item && item in items;
      }
      forall i, j | 0 <= i < j < |others| && others[i].Entry? && others[j].Entry?
        ensures others[i].name != others[j].name
      {
        assert items[i + 1] == others[i] && items[j + 1] == others[j];
      }
    }
    if (items[0].Entry? ==> items[0].name !in presets) && Distinct(others) && Fresh(next, others) {
      forall i, j | 0 <= i < j < |items| && items[i].Entry? && items[j].Entry?
        ensures items[i].name != items[j].name
      {
        assert items[j] == others[j - 1] && others[j - 1] in others;
        if i > 0 {
          assert items[i] == others[i - 1];
        }
      }
    }
  }

  /** A written registry parses exactly when no name repeats, and then to what the entries define. */
  lemma RegistryReadsBack(items: seq<Item>)
    requires items != [] && forall item <- items :: item.Valid()
    ensures Registry(Join(RenderItems(items), ','))
         == if Distinct(items) then Ok(Defined(map[], items)) else Err(DuplicateName)
  {
    hide AddAll, Item.Render, Distinct;
    forall i | 0 <= i < |items|
      ensures ',' !in items[i].Render()
    {
      assert items[i] in items;
    }
    hide Item.Valid;
    SplitOfJoin(RenderItems(items), ',');
    AddAllOfItems(map[], items);
  }

  /** The preset for which expansion is not inlining is one that an operator can configure. */
  lemma ColonlessIsConfigurable()
    ensures Registry("p=plain") == Ok(map["p" := ["plain"]])
  {
    PlainEntry();
    hide Item.Valid, Item.Render, Item.Core, Registry, TextsOf;
    var item := Entry("", "p", "", [Padded("", "plain", "")], "");
    assert RenderItems([item]) == ["p=plain"] && Join(["p=plain"], ',') == "p=plain";
    RegistryReadsBack([item]);
    assert [item][1..] == [];
  }

  lemma PlainTexts()
    ensures var options := [Padded("", "plain", "")];
            && RenderEach(options) == ["plain"] && TextsOf(options) == ["plain"]
            && Join(RenderEach(options), '/') == "plain"
  {
    var option := Padded("", "plain", "");
    assert option.Render() == "plain" && RenderEach([option]) == ["plain"];
    assert [option][1..] == [];
  }

  lemma PlainEntry()
    ensures var item := Entry("", "p", "", [Padded("", "plain", "")], "");
            item.Render() == "p=plain" && item.Valid() && TextsOf(item.options) == ["plain"]
  {
    PlainTexts();
    PlainIsNoPreset();
    hide CodeOf, Split, TextsOf, Join, RenderEach, IsSpace;
    var item := Entry("", "p", "", [Padded("", "plain", "")], "");
    assert "p" + "" + ['='] + "plain" == "p=plain" && "" + "p=plain" + "" == "p=plain";
    assert item.Core() == "p=plain";
    assert Tight("p=plain") && Tight("plain") && Tight("p") && AllSpace("") by { NoSpaces(); }
  }

  lemma NoSpaces()
    ensures Tight("p=plain") && Tight("plain") && Tight("p") && AllSpace("")
  {
  }

  lemma PlainIsNoPreset()
    ensures CodeOf("plain") != "pr"
  {
    SplitWithout("plain", ':');
  }

  // ---------------------------------------------------------------------------------------------
  // The allowlist
  // ---------------------------------------------------------------------------------------------

  /** `AllowedOptions::parse`. */
  function AllowedFrom(raw: string): Allowed {
    var codes := Kept(Split(raw, ','));
    if codes == [] then None else Some(set c | c in codes)
  }

  /** A written allowlist allows the codes it lists and no other, and everything when it lists none. */
  lemma AllowlistReadsBack(codes: seq<Padded>, code: string)
    requires codes != [] && forall p <- codes :: p.Valid() && ',' !in p.Render()
    ensures IsAllowed(AllowedFrom(Join(RenderEach(codes), ',')), code)
       <==> (forall p <- codes :: p.text == "") || (code != "" && exists p <- codes :: p.text == code)
  {
    hide Padded.Valid, Padded.Render, Kept;
    assert forall s <- RenderEach(codes) :: ',' !in s;
    SplitOfJoin(RenderEach(codes), ',');
    KeptOfRendered(codes);
    TextsOfHas(codes, code);
    if TextsOf(codes) != [] {
      TextsOfHas(codes, TextsOf(codes)[0]);
    } else {
      forall p | p in codes
        ensures p.text == ""
      {
        TextsOfHas(codes, p.text);
      }
    }
  }

  lemma {:induction false} TextsOfHas(ps: seq<Padded>, text: string)
    ensures text in TextsOf(ps) <==> text != "" && exists p <- ps :: p.text == text
  {
    if ps != [] {
      TextsOfHas(ps[1..], text);
      assert ps == [ps[0]] + ps[1..];
    }
  }
}

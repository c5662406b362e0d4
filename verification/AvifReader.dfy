/**
 The AVIF metadata reader itself: which boxes it scans, how the primary item's properties become one
 orientation, and how the `Exif` item's extents become a TIFF block. Every method is proved against a
 function of the file, and one budget is threaded through all the scans.
 */
module AvifReader {
  import opened Common
  import opened AvifBoxes
  import opened AvifTables
  import opened Orientation

  const META: BoxType := [0x6D, 0x65, 0x74, 0x61]
  const IINF: BoxType := [0x69, 0x69, 0x6E, 0x66]
  const ILOC: BoxType := [0x69, 0x6C, 0x6F, 0x63]
  const IPRP: BoxType := [0x69, 0x70, 0x72, 0x70]
  const PITM: BoxType := [0x70, 0x69, 0x74, 0x6D]
  const IPCO: BoxType := [0x69, 0x70, 0x63, 0x6F]
  const IPMA: BoxType := [0x69, 0x70, 0x6D, 0x61]
  const IROT: BoxType := [0x69, 0x72, 0x6F, 0x74]
  const IMIR: BoxType := [0x69, 0x6D, 0x69, 0x72]
  const INFE: BoxType := [0x69, 0x6E, 0x66, 0x65]

  const MAX_EXIF_LEN: nat := 1024 * 1024

  const TIFF_LITTLE: Bytes := [0x49, 0x49, 0x2A, 0x00]
  const TIFF_BIG: Bytes := [0x4D, 0x4D, 0x00, 0x2A]

  datatype Metadata = Metadata(orientation: Orientation, exif: Option<Bytes>)

  const NOTHING: Metadata := Metadata(NoTransforms, None)

  // ---------------------------------------------------------------------------------------------
  // Orientation
  // ---------------------------------------------------------------------------------------------

  /** The property a box of `ipco` holds, if it is an `irot` or `imir` with at least one byte. */
  function PropertyOf(b: Box): Option<Property> {
    if b.kind == IROT && b.content != [] then Some(Rotate(b.content[0] % 4))
    else if b.kind == IMIR && b.content != [] then Some(Mirror(b.content[0] % 2))
    else None
  }

  /** The recognised properties of a list of boxes, each with its 1-based index counted from `first`. */
  function PropertiesFrom(boxes: seq<Box>, first: nat): seq<(nat, Property)> {
    if boxes == [] then []
    else
      var others := PropertiesFrom(boxes[1..], first + 1);
      var p := PropertyOf(boxes[0]);
      if p.Some? then [(first, p.value)] + others else others
  }

  /** Walks `ipco`; every box advances the index, recognised or not. */
  method CollectProperties(content: Bytes, depth: nat, budget: nat)
    returns (properties: seq<(nat, Property)>, left: nat)
    requires budget < TWO_32
    ensures properties == PropertiesFrom(WalkAt(content, depth, budget).boxes, 1)
    ensures left == WalkAt(content, depth, budget).budget
  {
    hide ReadBoxHeader, FormOf, PropertyOf;
    properties, left := [], budget;
    if depth > MAX_NESTING_DEPTH {
      return;
    }
    var rest, index := content, 0;
    ghost var visited: seq<Box> := [];
    while rest != []
      invariant index + left == budget && index == |visited|
      invariant Walk(content, budget).boxes == visited + Walk(rest, left).boxes
      invariant Walk(content, budget).budget == Walk(rest, left).budget
      invariant properties == PropertiesFrom(visited, 1)
      decreases |rest|
    {
      if left == 0 {
        break;
      }
      var header := ReadBoxHeader(rest);
      if header.None? {
        break;
      }
      left := left - 1;
      assert index + 1 < TWO_32;
      index := index + 1;
      var h := header.value;
      var b := Box(FormOf(rest), h.kind, rest[h.headerLen..h.total]);
      var p := PropertyOf(b);
      if p.Some? {
        properties := properties + [(index, p.value)];
      }
      PropertiesSnoc(visited, b, 1);
      visited := visited + [b];
      rest := rest[h.total..];
    }
    assert visited + [] == visited;
  }

  lemma {:induction false} PropertiesSnoc(boxes: seq<Box>, b: Box, first: nat)
    ensures PropertiesFrom(boxes + [b], first)
         == PropertiesFrom(boxes, first)
            + (if PropertyOf(b).Some? then [(first + |boxes|, PropertyOf(b).value)] else [])
    decreases |boxes|
  {
    hide PropertyOf;
    if boxes == [] {
      assert boxes + [b] == [b];
      assert PropertiesFrom([], first + 1) == [];
    } else {
      var others, all := boxes[1..], boxes + [b];
      assert all[1..] == others + [b] && all[0] == boxes[0];
      PropertiesSnoc(others, b, first + 1);
    }
  }

  function Lookup(properties: seq<(nat, Property)>, index: nat): Option<Property> {
    if properties == [] then None
    else if properties[0].0 == index then Some(properties[0].1)
    else Lookup(properties[1..], index)
  }

  /** The properties a list of indices selects, in the order of the indices; unknown indices are skipped. */
  function Selected(properties: seq<(nat, Property)>, indices: seq<nat>): seq<Property> {
    if indices == [] then []
    else
      var front, last := indices[..|indices| - 1], indices[|indices| - 1];
      var p := Lookup(properties, last);
      if p.Some? then Selected(properties, front) + [p.value] else Selected(properties, front)
  }

  /** Finds the property with an index, `properties.iter().find(..)`. */
  method FindProperty(properties: seq<(nat, Property)>, index: nat) returns (p: Option<Property>)
    ensures p == Lookup(properties, index)
  {
    for i := 0 to |properties|
      invariant Lookup(properties, index) == Lookup(properties[i..], index)
    {
      if properties[i].0 == index {
        return Some(properties[i].1);
      }
    }
    p := None;
  }

  datatype OrientationScan = OrientationScan(orientation: Option<Orientation>, visited: nat, budget: nat)

  /** The orientation of the primary item, with the number of boxes the scans visited. */
  function ScanOrientation(pitm: Option<Bytes>, iprp: Option<Bytes>, budget: nat): OrientationScan {
    if pitm.None? || PrimaryItemId(pitm.value).None? || iprp.None? then OrientationScan(None, 0, budget)
    else
      var scan := WalkAt(iprp.value, 2, budget);
      var ipco, ipma := FirstOf(scan.boxes, IPCO), FirstOf(scan.boxes, IPMA);
      if ipco.None? then OrientationScan(None, |scan.boxes|, scan.budget)
      else
        var items := WalkAt(ipco.value, 3, scan.budget);
        var visited := |scan.boxes| + |items.boxes|;
        if ipma.None? then OrientationScan(None, visited, items.budget)
        else
          match AssociatedIndices(ipma.value, PrimaryItemId(pitm.value).value)
          case None => OrientationScan(None, visited, items.budget)
          case Some(indices) =>
            var transform := Compose(Selected(PropertiesFrom(items.boxes, 1), indices));
            OrientationScan(Some(transform.IntoOrientation()), visited, items.budget)
  }

  method ResolveOrientation(pitm: Option<Bytes>, iprp: Option<Bytes>, budget: nat)
    returns (orientation: Option<Orientation>, left: nat)
    requires budget < TWO_32
    requires pitm.Some? ==> |pitm.value| < TWO_64
    requires iprp.Some? ==> |iprp.value| < TWO_64
    ensures var scan := ScanOrientation(pitm, iprp, budget);
            orientation == scan.orientation && left == scan.budget
  {
    hide Walk, AssociatedIndices, PrimaryItemId;
    left := budget;
    if pitm.None? {
      return None, left;
    }
    var primary := ParsePrimaryItemId(pitm.value);
    if primary.None? || iprp.None? {
      return None, left;
    }
    var boxes;
    boxes, left := WalkBoxes(iprp.value, 2, budget);
    var ipco := FirstContent(boxes, IPCO);
    var ipma := FirstContent(boxes, IPMA);
    if ipco.None? {
      return None, left;
    }
    var properties;
    properties, left := CollectProperties(ipco.value, 3, left);
    if ipma.None? {
      return None, left;
    }
    FirstOfIsPart(boxes, IPMA);
    WalkedContents(iprp.value, 2, budget);
    var indices := ParseAssociations(ipma.value, primary.value);
    if indices.None? {
      return None, left;
    }
    var transform := IDENTITY;
    for i := 0 to |indices.value|
      invariant transform == Compose(Selected(properties, indices.value[..i]))
    {
      assert indices.value[..i + 1][..i] == indices.value[..i];
      var property := FindProperty(properties, indices.value[i]);
      if property.Some? {
        ghost var before := Selected(properties, indices.value[..i]);
        assert (before + [property.value])[..|before|] == before;
        transform := transform.Then(StepOf(property.value));
      }
    }
    assert indices.value[..|indices.value|] == indices.value;
    orientation := Some(transform.IntoOrientation());
  }

  /** Keeps the first content of a type, as the closure passed to the scan does. */
  method FirstContent(boxes: seq<Box>, kind: BoxType) returns (found: Option<Bytes>)
    ensures found == FirstOf(boxes, kind)
  {
    found := None;
    for i := 0 to |boxes|
      invariant FirstOf(boxes, kind) == if found.Some? then found else FirstOf(boxes[i..], kind)
    {
      if found.None? && boxes[i].kind == kind {
        found := Some(boxes[i].content);
      }
    }
  }

  lemma {:induction false} FirstOfIsPart(boxes: seq<Box>, kind: BoxType)
    ensures FirstOf(boxes, kind).Some? ==> exists b <- boxes :: b.content == FirstOf(boxes, kind).value
    ensures FirstOf(boxes, kind).Some? <==> exists b <- boxes :: b.kind == kind
    decreases |boxes|
  {
    if boxes != [] {
      FirstOfIsPart(boxes[1..], kind);
      assert boxes == [boxes[0]] + boxes[1..];
    }
  }

  /** No visited box is longer than the data it was found in. */
  lemma {:induction false} WalkedContents(data: Bytes, depth: nat, budget: nat)
    ensures forall b <- WalkAt(data, depth, budget).boxes :: |b.content| <= |data|
    decreases |data|
  {
    hide ReadBoxHeader, FormOf;
    if depth <= MAX_NESTING_DEPTH && data != [] && budget != 0 && ReadBoxHeader(data).Some? {
      WalkedContents(data[ReadBoxHeader(data).value.total..], depth, budget - 1);
    }
  }

  // ---------------------------------------------------------------------------------------------
  // EXIF
  // ---------------------------------------------------------------------------------------------

  /** The id of the first `infe` box that declares an `Exif` item. */
  function FirstExifItem(boxes: seq<Box>): Option<nat> {
    if boxes == [] then None
    else if boxes[0].kind == INFE && ExifItemId(boxes[0].content).Some? then ExifItemId(boxes[0].content)
    else FirstExifItem(boxes[1..])
  }

  /** The `infe` boxes of `iinf` content: what follows the version, the flags and the entry count. */
  function InfeStream(content: Bytes): Option<Bytes> {
    var version :- UintAt(content, 0, 1);
    var _ :- BytesAt(content, 1, 3);
    var width := if version == 0 then 2 else 4;
    var _ :- UintAt(content, 4, width);
    Some(content[4 + width..])
  }

  method FindExifItemId(content: Bytes, depth: nat, budget: nat) returns (found: Option<nat>, left: nat)
    requires |content| < TWO_64
    ensures InfeStream(content).None? ==> found == None && left == budget
    ensures InfeStream(content).Some? ==>
              && found == FirstExifItem(WalkAt(InfeStream(content).value, depth, budget).boxes)
              && left == WalkAt(InfeStream(content).value, depth, budget).budget
  {
    hide Walk, ExifItemId;
    found, left := None, budget;
    var cursor := new Cursor(content);
    var version := cursor.ReadFixed(1);
    if version.None? { return; }
    var flags := cursor.ReadBytes(3);
    if flags.None? { return; }
    var count := cursor.ReadFixed(if version.value == 0 then 2 else 4);
    if count.None? { return; }
    var rest := cursor.Remainder();
    var boxes;
    boxes, left := WalkBoxes(rest, depth, budget);
    WalkedContents(rest, depth, budget);
    for i := 0 to |boxes|
      modifies {}
      invariant FirstExifItem(boxes) == if found.Some? then found else FirstExifItem(boxes[i..])
    {
      if found.None? && boxes[i].kind == INFE {
        found := ParseInfeExifItemId(boxes[i].content);
      }
    }
  }

  /** The bytes an extent names: a file range whose ends are 64-bit sums that must not overflow. */
  function ExtentBytes(file: Bytes, base: nat, e: Extent): Option<Bytes> {
    if base + e.offset >= TWO_64 || base + e.offset + e.length >= TWO_64 then None
    else BytesAt(file, base + e.offset, e.length)
  }

  /** The concatenated extents, provided they exist and stay within the size cap. */
  function Payload(file: Bytes, base: nat, extents: seq<Extent>): Option<Bytes> {
    if extents == [] then Some([])
    else
      var before :- Payload(file, base, extents[..|extents| - 1]);
      var last :- ExtentBytes(file, base, extents[|extents| - 1]);
      if |before| + |last| > MAX_EXIF_LEN then None else Some(before + last)
  }

  predicate StartsWith(data: Bytes, prefix: Bytes) {
    |data| >= |prefix| && data[..|prefix|] == prefix
  }

  /** The TIFF block of a payload: past the 4-byte offset field and the distance it holds. */
  function TiffOf(payload: Bytes): Option<Bytes> {
    if |payload| < 4 || 4 + BigEndian(payload[..4]) > |payload| then None
    else
      var tiff := payload[4 + BigEndian(payload[..4])..];
      if StartsWith(tiff, TIFF_LITTLE) || StartsWith(tiff, TIFF_BIG) then Some(tiff) else None
  }

  function TiffAt(file: Bytes, location: Location): Option<Bytes> {
    if location.construction != 0 then None
    else
      var payload :- Payload(file, location.base, location.extents);
      TiffOf(payload)
  }

  lemma {:induction false} PayloadPrefix(file: Bytes, base: nat, extents: seq<Extent>, n: nat)
    requires n <= |extents| && Payload(file, base, extents[..n]).None?
    ensures Payload(file, base, extents).None?
    decreases |extents| - n
  {
    if n == |extents| {
      assert extents[..n] == extents;
    } else {
      assert extents[..n + 1][..n] == extents[..n];
      PayloadPrefix(file, base, extents, n + 1);
    }
  }

  method ExtractExifTiff(file: Bytes, location: Location) returns (tiff: Option<Bytes>)
    requires |file| < TWO_64
    ensures tiff == TiffAt(file, location)
  {
    hide TiffOf;
    if location.construction != 0 {
      return None;
    }
    var payload: Bytes := [];
    var extents := location.extents;
    for i := 0 to |extents|
      invariant Payload(file, location.base, extents[..i]) == Some(payload)
    {
      assert extents[..i + 1][..i] == extents[..i];
      var extent := ExtentBytes(file, location.base, extents[i]);
      if extent.None? || |payload| + |extent.value| > MAX_EXIF_LEN {
        PayloadPrefix(file, location.base, extents, i + 1);
        return None;
      }
      payload := payload + extent.value;
    }
    assert extents[..|extents|] == extents;
    tiff := TiffOf(payload);
  }

  /** `tiff` ends the concatenated extents, at least four bytes in. */
  predicate EndsPayload(file: Bytes, base: nat, extents: seq<Extent>, tiff: Bytes) {
    var payload := Payload(file, base, extents);
    && payload.Some? && |tiff| <= |payload.value| - 4 <= MAX_EXIF_LEN - 4
    && payload.value[|payload.value| - |tiff|..] == tiff
  }

  /** Whatever is recovered is a suffix of the concatenated extents, at most four bytes under the cap. */
  lemma ExifIsSuffixOfExtents(file: Bytes, location: Location)
    requires TiffAt(file, location).Some?
    ensures EndsPayload(file, location.base, location.extents, TiffAt(file, location).value)
  {
    PayloadCapped(file, location.base, location.extents);
  }

  lemma {:induction false} PayloadCapped(file: Bytes, base: nat, extents: seq<Extent>)
    ensures var payload := Payload(file, base, extents);
            payload.Some? ==> |payload.value| <= MAX_EXIF_LEN
  {
  }

  datatype ExifScan = ExifScan(exif: Option<Bytes>, visited: nat, budget: nat)

  function ScanExif(file: Bytes, iinf: Option<Bytes>, iloc: Option<Bytes>, budget: nat): ExifScan {
    if iinf.None? || InfeStream(iinf.value).None? then ExifScan(None, 0, budget)
    else
      var scan := WalkAt(InfeStream(iinf.value).value, 2, budget);
      var item := FirstExifItem(scan.boxes);
      var location := if item.None? || iloc.None? then None else LocationOf(iloc.value, item.value);
      ExifScan(if location.None? then None else TiffAt(file, location.value), |scan.boxes|, scan.budget)
  }

  method ExtractExifPayload(file: Bytes, iinf: Option<Bytes>, iloc: Option<Bytes>, budget: nat)
    returns (exif: Option<Bytes>, left: nat)
    requires |file| < TWO_64
    requires iinf.Some? ==> |iinf.value| < TWO_64
    requires iloc.Some? ==> |iloc.value| < TWO_64
    ensures var scan := ScanExif(file, iinf, iloc, budget); exif == scan.exif && left == scan.budget
  {
    hide Walk, LocationOf, TiffAt, InfeStream;
    left := budget;
    if iinf.None? {
      return None, left;
    }
    var item;
    item, left := FindExifItemId(iinf.value, 2, budget);
    if item.None? || iloc.None? {
      return None, left;
    }
    var location := FindIlocEntry(iloc.value, item.value);
    if location.None? {
      return None, left;
    }
    exif := ExtractExifTiff(file, location.value);
  }

  // ---------------------------------------------------------------------------------------------
  // parse
  // ---------------------------------------------------------------------------------------------

  datatype Parsed = Parsed(metadata: Metadata, visited: nat, budget: nat)

  /** What a file's metadata is, and how many boxes all the scans of the parse visit together. */
  function ParseFile(file: Bytes): Parsed {
    var top := WalkAt(file, 0, MAX_BOXES_VISITED);
    var meta := FirstOf(top.boxes, META);
    if meta.None? || |meta.value| < 4 then Parsed(NOTHING, |top.boxes|, top.budget)
    else
      var inner := WalkAt(meta.value[4..], 1, top.budget);
      var o := ScanOrientation(FirstOf(inner.boxes, PITM), FirstOf(inner.boxes, IPRP), inner.budget);
      var e := ScanExif(file, FirstOf(inner.boxes, IINF), FirstOf(inner.boxes, ILOC), o.budget);
      Parsed(Metadata(UnwrapOr(o.orientation, NoTransforms), e.exif),
             |top.boxes| + |inner.boxes| + o.visited + e.visited, e.budget)
  }

  method Parse(file: Bytes) returns (metadata: Metadata)
    requires |file| < TWO_64
    ensures metadata == ParseFile(file).metadata
  {
    hide Walk, ScanOrientation, ScanExif;
    var budget := MAX_BOXES_VISITED;
    var meta;
    meta, budget := FindFirstBox(file, 0, budget, META);
    if meta.None? || |meta.value| < 4 {
      return NOTHING;
    }
    FirstOfIsPart(WalkAt(file, 0, MAX_BOXES_VISITED).boxes, META);
    WalkedContents(file, 0, MAX_BOXES_VISITED);
    WalkAtSpends(file, 0, MAX_BOXES_VISITED);
    ghost var outer := budget;
    var boxes;
    boxes, budget := WalkBoxes(meta.value[4..], 1, budget);
    WalkedContents(meta.value[4..], 1, outer);
    WalkAtSpends(meta.value[4..], 1, outer);
    var iinf := FirstContent(boxes, IINF);
    var iloc := FirstContent(boxes, ILOC);
    var iprp := FirstContent(boxes, IPRP);
    var pitm := FirstContent(boxes, PITM);
    FirstOfIsPart(boxes, IINF);
    FirstOfIsPart(boxes, ILOC);
    FirstOfIsPart(boxes, IPRP);
    FirstOfIsPart(boxes, PITM);
    var orientation;
    orientation, budget := ResolveOrientation(pitm, iprp, budget);
    var exif;
    exif, budget := ExtractExifPayload(file, iinf, iloc, budget);
    metadata := Metadata(UnwrapOr(orientation, NoTransforms), exif);
  }

  lemma WalkAtSpends(data: Bytes, depth: nat, budget: nat)
    ensures |WalkAt(data, depth, budget).boxes| + WalkAt(data, depth, budget).budget == budget
  {
    if depth <= MAX_NESTING_DEPTH {
      WalkSpendsBudget(data, budget);
    }
  }

  /** One parse visits at most 4096 boxes over all its nested scans, whatever the file. */
  lemma ParseVisitsWithinBudget(file: Bytes)
    ensures ParseFile(file).visited + ParseFile(file).budget == 4096
  {
    hide Walk, FirstOf, PrimaryItemId, AssociatedIndices, InfeStream, FirstExifItem, LocationOf, TiffAt;
    forall data: Bytes, depth: nat, budget: nat
      ensures |WalkAt(data, depth, budget).boxes| + WalkAt(data, depth, budget).budget == budget
    {
      WalkAtSpends(data, depth, budget);
    }
  }

  /** Any EXIF a parse recovers is at most the cap less its four-byte offset field. */
  lemma ParsedExifIsCapped(file: Bytes)
    requires ParseFile(file).metadata.exif.Some?
    ensures |ParseFile(file).metadata.exif.value| <= 1_048_576 - 4
  {
    hide WalkAt, FirstOf, ScanOrientation, InfeStream, FirstExifItem, LocationOf, TiffAt, Payload;
    forall location | TiffAt(file, location).Some?
      ensures |TiffAt(file, location).value| <= MAX_EXIF_LEN - 4
    {
      ExifIsSuffixOfExtents(file, location);
    }
  }

  /** Any EXIF a parse recovers starts with one of the two TIFF byte-order marks. */
  lemma ParsedExifHasMark(file: Bytes)
    requires ParseFile(file).metadata.exif.Some?
    ensures var exif := ParseFile(file).metadata.exif.value;
            |exif| >= 4 && (exif[..4] == [0x49, 0x49, 0x2A, 0x00] || exif[..4] == [0x4D, 0x4D, 0x00, 0x2A])
  {
    hide WalkAt, FirstOf, ScanOrientation, InfeStream, FirstExifItem, LocationOf, TiffAt;
    forall location | TiffAt(file, location).Some?
      ensures var exif := TiffAt(file, location).value;
              |exif| >= 4 && (exif[..4] == [0x49, 0x49, 0x2A, 0x00] || exif[..4] == [0x4D, 0x4D, 0x00, 0x2A])
    {
      TiffHasMark(file, location);
    }
  }

  lemma TiffHasMark(file: Bytes, location: Location)
    requires TiffAt(file, location).Some?
    ensures var exif := TiffAt(file, location).value;
            |exif| >= 4 && (exif[..4] == [0x49, 0x49, 0x2A, 0x00] || exif[..4] == [0x4D, 0x4D, 0x00, 0x2A])
  {
    hide Payload, BigEndian;
  }

  /** Any EXIF a parse recovers is a suffix of concatenated ranges of the file. */
  lemma ParsedExifIsSuffix(file: Bytes)
    requires ParseFile(file).metadata.exif.Some?
    ensures exists base, extents :: EndsPayload(file, base, extents, ParseFile(file).metadata.exif.value)
  {
    hide WalkAt, FirstOf, ScanOrientation, InfeStream, FirstExifItem, LocationOf, TiffAt, Payload, EndsPayload;
    forall location | TiffAt(file, location).Some?
      ensures EndsPayload(file, location.base, location.extents, TiffAt(file, location).value)
    {
      ExifIsSuffixOfExtents(file, location);
    }
  }
}

/**
 The round trip of the AVIF reader: any well-formed container tree, written out with its EXIF payload
 placed after the `meta` box, is read back as the primary item's composed orientation and the TIFF block.
 */
module AvifRoundTrip {
  import opened Common
  import opened AvifBoxes
  import opened AvifTables
  import opened Orientation
  import opened AvifReader

  // ---------------------------------------------------------------------------------------------
  // The tree and its bytes
  // ---------------------------------------------------------------------------------------------

  /** The bytes of an ASCII text. */
  function Letters(text: string): Bytes
    requires forall i | 0 <= i < |text| :: text[i] < 128 as char
  {
    seq<Byte>(|text|, i requires 0 <= i < |text| => text[i] as int as Byte)
  }

  /** The four letters of every box type the reader looks for, the two byte-order marks, and its three limits. */
  lemma NamesAndLimits()
    ensures META == Letters("meta") && PITM == Letters("pitm") && IPRP == Letters("iprp") && IPCO == Letters("ipco")
    ensures IPMA == Letters("ipma") && IINF == Letters("iinf") && INFE == Letters("infe") && ILOC == Letters("iloc")
    ensures EXIF == Letters("Exif") && IROT == Letters("irot") && IMIR == Letters("imir")
    ensures TIFF_LITTLE == Letters("II*") + [0] && TIFF_BIG == Letters("MM") + [0] + Letters("*")
    ensures MAX_NESTING_DEPTH == 8 && MAX_BOXES_VISITED == 4096 && MAX_EXIF_LEN == 1_048_576
  {
  }

  /**
   A box of the property list. `irot` holds its quarter turns in the low two bits of its first byte, `imir` its
   axis in the low bit; the bits above and the bytes behind are reserved. Any other box, and an empty one, holds
   no property.
   */
  datatype PropertyPart =
    | RotatePart(form: Form, reserved: nat, steps: nat, trailing: Bytes)
    | MirrorPart(form: Form, reserved: nat, axis: nat, trailing: Bytes)
    | OtherPropertyPart(box: Box)
  {
    predicate Valid() {
      match this
      case RotatePart(_, reserved, steps, _) => reserved < 64 && steps < 4
      case MirrorPart(_, reserved, axis, _) => reserved < 128 && axis < 2
      case OtherPropertyPart(box) => box.content == [] || box.kind !in {Letters("irot"), Letters("imir")}
    }

    function ToBox(): Box
      requires Valid()
    {
      match this
      case RotatePart(form, reserved, steps, trailing) => Box(form, Letters("irot"), [4 * reserved + steps] + trailing)
      case MirrorPart(form, reserved, axis, trailing) => Box(form, Letters("imir"), [2 * reserved + axis] + trailing)
      case OtherPropertyPart(box) => box
    }

    function Value(): Option<Property> {
      match this
      case RotatePart(_, _, steps, _) => Some(Rotate(steps))
      case MirrorPart(_, _, axis, _) => Some(Mirror(axis))
      case OtherPropertyPart(_) => None
    }
  }

  /** A child of `meta`, in file order; the four tables may be mixed with any other boxes. */
  datatype MetaChild =
    | PitmChild(form: Form)
    | IprpChild(form: Form)
    | IinfChild(form: Form)
    | IlocChild(form: Form)
    | OtherChild(box: Box)

  datatype IprpChild = IpcoPart(form: Form) | IpmaPart(form: Form) | OtherPart(box: Box)

  datatype ItemEntry = InfeEntry(form: Form, infe: Infe) | OtherEntry(box: Box)

  /** One extent's share of the payload, and the extent index the box stores for it. */
  datatype Chunk = Chunk(index: nat, bytes: Bytes)

  datatype Tree = Tree(
    before: seq<Box>,
    metaForm: Form,
    metaFlags: Bytes,
    children: seq<MetaChild>,
    pitm: Pitm,
    iprp: seq<IprpChild>,
    properties: seq<PropertyPart>,
    ipma: Ipma,
    iinfVersion: Byte,
    iinfFlags: Bytes,
    declaredEntries: nat,
    entries: seq<ItemEntry>,
    iloc: Iloc,
    exifEntry: nat,
    throughBase: bool,
    gap: Bytes,
    chunks: seq<Chunk>,
    filler: Bytes,
    tiff: Bytes,
    after: Bytes)

  function Joined(chunks: seq<Chunk>): Bytes {
    if chunks == [] then [] else Joined(chunks[..|chunks| - 1]) + chunks[|chunks| - 1].bytes
  }

  /** Consecutive extents for the chunks, the first one at `start`. */
  function PlacedExtents(chunks: seq<Chunk>, start: nat): (e: seq<IlocExtent>)
    ensures |e| == |chunks|
  {
    if chunks == [] then []
    else
      var front, last := chunks[..|chunks| - 1], chunks[|chunks| - 1];
      PlacedExtents(front, start) + [IlocExtent(last.index, start + |Joined(front)|, |last.bytes|)]
  }

  /**
   The `iloc` table when the payload starts at `position`; the offset is stored in the base or the extents.
   A table without the entry stays as it is.
   */
  function PlacedIloc(t: Tree, position: nat): Iloc {
    if t.exifEntry >= |t.iloc.items| then t.iloc
    else
      var item := t.iloc.items[t.exifEntry];
      var base, start := if t.throughBase then position else 0, if t.throughBase then 0 else position;
      t.iloc.(items := t.iloc.items[t.exifEntry := item.(base := base, extents := PlacedExtents(t.chunks, start))])
  }

  /** The boxes of `ipco`. */
  function ListBoxes(parts: seq<PropertyPart>): (boxes: seq<Box>)
    requires forall p <- parts :: p.Valid()
    ensures |boxes| == |parts|
  {
    seq(|parts|, i requires 0 <= i < |parts| => parts[i].ToBox())
  }

  function PropertyBoxes(t: Tree): seq<Box>
    requires |t.ipma.flags| == 3 && forall p <- t.properties :: p.Valid()
  {
    seq(|t.iprp|, i requires 0 <= i < |t.iprp| =>
      match t.iprp[i]
      case IpcoPart(form) => Box(form, IPCO, SerialiseBoxes(ListBoxes(t.properties)))
      case IpmaPart(form) => Box(form, IPMA, t.ipma.Serialise())
      case OtherPart(box) => box)
  }

  function EntryBoxes(t: Tree): seq<Box> {
    seq(|t.entries|, i requires 0 <= i < |t.entries| =>
      match t.entries[i]
      case InfeEntry(form, infe) => Box(form, INFE, infe.Serialise())
      case OtherEntry(box) => box)
  }

  function IinfContent(t: Tree): Bytes {
    [t.iinfVersion] + t.iinfFlags + ToBigEndian(t.declaredEntries, if t.iinfVersion == 0 then 2 else 4)
    + SerialiseBoxes(EntryBoxes(t))
  }

  /** The fields whose sizes the writer must know before it can write anything. */
  predicate Shaped(t: Tree) {
    && |t.ipma.flags| == 3 && (forall p <- t.properties :: p.Valid())
    && var w := t.iloc.widths;
       w.version < 256 && w.offset <= 8 && w.length <= 8 && w.base <= 8 && w.index <= 8
  }

  function ChildBox(t: Tree, child: MetaChild, position: nat): Box
    requires Shaped(t)
  {
    match child
    case PitmChild(form) => Box(form, PITM, t.pitm.Serialise())
    case IprpChild(form) => Box(form, IPRP, SerialiseBoxes(PropertyBoxes(t)))
    case IinfChild(form) => Box(form, IINF, IinfContent(t))
    case IlocChild(form) => Box(form, ILOC, PlacedIloc(t, position).Serialise())
    case OtherChild(box) => box
  }

  function ChildBoxes(t: Tree, position: nat): seq<Box>
    requires Shaped(t)
  {
    seq(|t.children|, i requires 0 <= i < |t.children| => ChildBox(t, t.children[i], position))
  }

  function MetaBox(t: Tree, position: nat): Box
    requires Shaped(t)
  {
    Box(t.metaForm, META, t.metaFlags + SerialiseBoxes(ChildBoxes(t, position)))
  }

  /** Where the payload lands: measured with a placeholder offset in the `meta` box. */
  function Position(t: Tree): nat
    requires Shaped(t)
  {
    |SerialiseBoxes(t.before)| + |SerialiseBox(MetaBox(t, 0))| + |t.gap|
  }

  function Tail(t: Tree): Bytes {
    t.gap + Joined(t.chunks) + t.after
  }

  function File(t: Tree): Bytes
    requires Shaped(t)
  {
    SerialiseBoxes(t.before + [MetaBox(t, Position(t))]) + Tail(t)
  }

  // ---------------------------------------------------------------------------------------------
  // Well-formed trees and what they mean
  // ---------------------------------------------------------------------------------------------

  /** The item the `iinf` entries declare as `Exif`. */
  function DeclaredExif(entries: seq<ItemEntry>): Option<nat> {
    if entries == [] then None
    else if entries[0].InfeEntry? && entries[0].infe.kind == EXIF then Some(entries[0].infe.item)
    else DeclaredExif(entries[1..])
  }

  predicate WellFormedTop(t: Tree)
    requires Shaped(t)
  {
    && Bounded(t.before) && (forall b <- t.before :: b.kind != META)
    && !t.metaForm.ToEnd? && |t.metaFlags| == 4 && Encodable(MetaBox(t, Position(t)))
    && |File(t)| < TWO_64
  }

  /** Some child of `meta` is the table of the type. */
  predicate HasTable(t: Tree, kind: BoxType) {
    exists c <- t.children ::
      if kind == PITM then c.PitmChild? else if kind == IPRP then c.IprpChild?
      else if kind == IINF then c.IinfChild? else c.IlocChild?
  }

  predicate CompleteChildren(t: Tree)
    requires Shaped(t)
  {
    && Complete(ChildBoxes(t, Position(t)))
    && forall c <- t.children :: c.OtherChild? ==> c.box.kind !in {PITM, IPRP, IINF, ILOC}
  }

  predicate WellFormedChildren(t: Tree)
    requires Shaped(t)
  {
    CompleteChildren(t) && HasTable(t, PITM) && HasTable(t, IPRP) && HasTable(t, IINF) && HasTable(t, ILOC)
  }

  predicate WellFormedProperties(t: Tree)
    requires Shaped(t)
  {
    && t.pitm.Encodable() && t.ipma.Encodable()
    && Complete(ListBoxes(t.properties)) && Complete(PropertyBoxes(t))
    && (exists p <- t.iprp :: p.IpcoPart?) && (exists p <- t.iprp :: p.IpmaPart?)
    && forall p <- t.iprp :: p.OtherPart? ==> p.box.kind !in {IPCO, IPMA}
  }

  /** Entries other than version 2 and 3 `infe` boxes are free, provided they do not look like one. */
  predicate WellFormedEntries(t: Tree) {
    && |t.iinfFlags| == 3 && t.declaredEntries < Capacity(if t.iinfVersion == 0 then 2 else 4)
    && Complete(EntryBoxes(t))
    && (forall e <- t.entries :: e.InfeEntry? ==> e.infe.Encodable())
    && (forall e <- t.entries :: e.OtherEntry? ==>
          e.box.kind != INFE || e.box.content == [] || e.box.content[0] !in {2, 3})
  }

  predicate WellFormedItems(t: Tree) {
    WellFormedEntries(t) && DeclaredExif(t.entries).Some?
  }

  predicate WellFormedLocations(t: Tree)
    requires Shaped(t)
  {
    && PlacedIloc(t, Position(t)).Encodable() && t.exifEntry < |t.iloc.items|
    && Some(t.iloc.items[t.exifEntry].item) == DeclaredExif(t.entries)
    && t.iloc.items[t.exifEntry].construction == 0
    && forall i | 0 <= i < t.exifEntry :: t.iloc.items[i].item != t.iloc.items[t.exifEntry].item
  }

  /** The payload: the distance to the TIFF block, whatever fills it, and the block. */
  predicate WellFormedPayload(t: Tree) {
    && |t.filler| < TWO_32
    && Joined(t.chunks) == ToBigEndian(|t.filler|, 4) + t.filler + t.tiff
    && |Joined(t.chunks)| <= MAX_EXIF_LEN
    && (StartsWith(t.tiff, Letters("II*") + [0]) || StartsWith(t.tiff, Letters("MM") + [0] + Letters("*")))
  }

  /** Every box of the tree, and every box the tail happens to look like, is paid for. */
  predicate WithinBudget(t: Tree) {
    |t.before| + 1 + BoxCount(Tail(t)) + |t.children| + |t.iprp| + |t.properties| + |t.entries|
      <= MAX_BOXES_VISITED
  }

  predicate WellFormed(t: Tree) {
    && Shaped(t) && WellFormedTop(t) && WellFormedChildren(t) && WellFormedProperties(t)
    && WellFormedItems(t) && WellFormedLocations(t) && WellFormedPayload(t) && WithinBudget(t)
  }

  /**
   No EXIF payload to be found: a table is missing, no entry declares an EXIF item, or the item has no
   location in the file.
   */
  predicate WithoutExif(t: Tree)
    requires Shaped(t)
  {
    || !HasTable(t, IINF) || !HasTable(t, ILOC)
    || (WellFormedEntries(t)
        && (DeclaredExif(t.entries).None?
            || (PlacedIloc(t, Position(t)).Encodable()
                && var location := FirstItem(PlacedIloc(t, Position(t)).items, DeclaredExif(t.entries).value);
                   location.None? || location.value.construction != 0)))
  }

  /** Trees without EXIF, with or without the two tables of the orientation. */
  predicate WellFormedBare(t: Tree) {
    && Shaped(t) && WellFormedTop(t) && CompleteChildren(t)
    && (HasTable(t, PITM) && HasTable(t, IPRP) ==> WellFormedProperties(t))
    && WithoutExif(t) && WithinBudget(t)
  }

  /** The properties at 1-based positions of the property list, in order; other boxes have no effect. */
  function Chosen(parts: seq<PropertyPart>, indices: seq<nat>): seq<Property> {
    if indices == [] then []
    else
      var before, last := Chosen(parts, indices[..|indices| - 1]), indices[|indices| - 1];
      if 1 <= last <= |parts| && parts[last - 1].Value().Some? then before + [parts[last - 1].Value().value] else before
  }

  /** The transformative properties the tree associates with its primary item, in order. */
  function PrimaryProperties(t: Tree): seq<Property> {
    match FirstEntry(t.ipma.entries, t.pitm.item)
    case None => []
    case Some(indices) => Chosen(t.properties, indices)
  }

  // ---------------------------------------------------------------------------------------------
  // The offset does not move the payload
  // ---------------------------------------------------------------------------------------------

  lemma {:induction false} ExtentsSize(extents: seq<IlocExtent>, w: Widths)
    ensures |SerialiseExtents(extents, w)| == |extents| * w.ExtentTotal()
    decreases |extents|
  {
    if extents != [] {
      ExtentsSize(extents[1..], w);
      ExtentTotals(|extents|, w.ExtentTotal());
    }
  }

  lemma {:induction false} ItemsSize(a: seq<IlocItem>, b: seq<IlocItem>, w: Widths)
    requires |a| == |b|
    requires forall i | 0 <= i < |a| :: |SerialiseItem(a[i], w)| == |SerialiseItem(b[i], w)|
    ensures |SerialiseItems(a, w)| == |SerialiseItems(b, w)|
    decreases |a|
  {
    hide SerialiseItem;
    if a != [] {
      forall i | 0 <= i < |a| - 1
        ensures |SerialiseItem(a[1..][i], w)| == |SerialiseItem(b[1..][i], w)|
      {
        assert a[1..][i] == a[i + 1] && b[1..][i] == b[i + 1];
      }
      ItemsSize(a[1..], b[1..], w);
    }
  }

  lemma {:induction false} BoxesSize(a: seq<Box>, b: seq<Box>)
    requires |a| == |b|
    requires forall i | 0 <= i < |a| :: a[i].form == b[i].form && |a[i].content| == |b[i].content|
    ensures |SerialiseBoxes(a)| == |SerialiseBoxes(b)|
    decreases |a|
  {
    hide SerialiseBox;
    if a != [] {
      SerialisedSize(a[0]);
      SerialisedSize(b[0]);
      BoxesSize(a[1..], b[1..]);
    }
  }

  lemma PlacedIlocSize(t: Tree, p: nat, q: nat)
    requires Shaped(t)
    ensures |PlacedIloc(t, p).Serialise()| == |PlacedIloc(t, q).Serialise()|
  {
    hide SerialiseItems, SerialiseExtents, PlacedExtents;
    var a, b := PlacedIloc(t, p), PlacedIloc(t, q);
    var w := t.iloc.widths;
    forall i | 0 <= i < |a.items|
      ensures |SerialiseItem(a.items[i], w)| == |SerialiseItem(b.items[i], w)|
    {
      ExtentsSize(a.items[i].extents, w);
      ExtentsSize(b.items[i].extents, w);
    }
    ItemsSize(a.items, b.items, w);
  }

  /** The length of the `meta` box does not depend on the payload offset stored in it. */
  lemma MetaLengthIgnoresOffset(t: Tree, p: nat, q: nat)
    requires Shaped(t)
    ensures |SerialiseBox(MetaBox(t, p))| == |SerialiseBox(MetaBox(t, q))|
  {
    hide SerialiseBox, SerialiseBoxes, PropertyBoxes, EntryBoxes, PlacedIloc, IinfContent, Iloc.Serialise;
    PlacedIlocSize(t, p, q);
    BoxesSize(ChildBoxes(t, p), ChildBoxes(t, q));
    SerialisedSize(MetaBox(t, p));
    SerialisedSize(MetaBox(t, q));
  }

  // ---------------------------------------------------------------------------------------------
  // Orientation
  // ---------------------------------------------------------------------------------------------

  /** Looking an index up in the collected properties is looking at that position of the list. */
  lemma {:induction false} LookupIsPosition(boxes: seq<Box>, first: nat, index: nat)
    ensures Lookup(PropertiesFrom(boxes, first), index)
         == if first <= index < first + |boxes| then PropertyOf(boxes[index - first]) else None
    decreases |boxes|
  {
    hide PropertyOf;
    if boxes != [] {
      LookupIsPosition(boxes[1..], first + 1, index);
      var others := PropertiesFrom(boxes[1..], first + 1);
      var p := PropertyOf(boxes[0]);
      if p.Some? {
        var all := [(first, p.value)] + others;
        assert all[1..] == others && all[0] == (first, p.value);
      }
    }
  }

  /** A written property reads back, whatever its reserved bits and trailing bytes, and no other box reads as one. */
  lemma PropertyReadsBack(part: PropertyPart)
    requires part.Valid()
    ensures PropertyOf(part.ToBox()) == part.Value()
  {
    NamesAndLimits();
    hide Letters;
    assert Letters("irot")[1] != Letters("imir")[1] by { LettersDiffer(); }
  }

  lemma LettersDiffer()
    ensures Letters("irot")[1] != Letters("imir")[1]
  {
  }

  lemma {:induction false} SelectedIsChosen(parts: seq<PropertyPart>, indices: seq<nat>)
    requires forall p <- parts :: p.Valid()
    ensures Selected(PropertiesFrom(ListBoxes(parts), 1), indices) == Chosen(parts, indices)
    decreases |indices|
  {
    hide PropertyOf, PropertiesFrom;
    if indices != [] {
      var last := indices[|indices| - 1];
      SelectedIsChosen(parts, indices[..|indices| - 1]);
      LookupIsPosition(ListBoxes(parts), 1, last);
      if 1 <= last <= |parts| {
        assert parts[last - 1] in parts;
        PropertyReadsBack(parts[last - 1]);
      }
    }
  }

  /** The content of the first box of a kind, when every box of that kind has the same content. */
  lemma {:induction false} FirstOfKind(boxes: seq<Box>, kind: BoxType, content: Bytes)
    requires exists b <- boxes :: b.kind == kind
    requires forall b <- boxes :: b.kind == kind ==> b.content == content
    ensures FirstOf(boxes, kind) == Some(content)
  {
    FirstOfIsPart(boxes, kind);
    FirstOfHasKind(boxes, kind);
  }

  lemma {:induction false} FirstOfHasKind(boxes: seq<Box>, kind: BoxType)
    ensures FirstOf(boxes, kind).Some? ==>
              exists b <- boxes :: b.kind == kind && b.content == FirstOf(boxes, kind).value
    decreases |boxes|
  {
    if boxes != [] && boxes[0].kind != kind {
      FirstOfHasKind(boxes[1..], kind);
      assert forall b <- boxes[1..] :: b in boxes;
    }
  }

  lemma PropertyTable(t: Tree, kind: BoxType)
    requires Shaped(t) && WellFormedProperties(t)
    requires kind == IPCO || kind == IPMA
    ensures FirstOf(PropertyBoxes(t), kind)
         == Some(if kind == IPCO then SerialiseBoxes(ListBoxes(t.properties)) else t.ipma.Serialise())
  {
    hide SerialiseBoxes, Ipma.Serialise, Ipma.Encodable, Complete;
    var boxes := PropertyBoxes(t);
    var i :| 0 <= i < |t.iprp| && (if kind == IPCO then t.iprp[i].IpcoPart? else t.iprp[i].IpmaPart?);
    assert boxes[i].kind == kind && boxes[i] in boxes;
    forall b | b in boxes && b.kind == kind
      ensures b.content == if kind == IPCO then SerialiseBoxes(ListBoxes(t.properties)) else t.ipma.Serialise()
    {
      var j :| 0 <= j < |boxes| && boxes[j] == b;
      assert t.iprp[j] in t.iprp;
    }
    FirstOfKind(boxes, kind, if kind == IPCO then SerialiseBoxes(ListBoxes(t.properties)) else t.ipma.Serialise());
  }

  lemma OrientationRead(t: Tree, budget: nat)
    requires Shaped(t) && WellFormedProperties(t)
    requires |t.iprp| + |t.properties| <= budget
    ensures var scan := ScanOrientation(Some(t.pitm.Serialise()), Some(SerialiseBoxes(PropertyBoxes(t))), budget);
            && UnwrapOr(scan.orientation, NoTransforms) == Compose(PrimaryProperties(t)).IntoOrientation()
            && scan.budget == budget - |t.iprp| - |t.properties|
  {
    hide SerialiseBoxes, Walk, Complete, Chosen, Selected, PropertiesFrom, AssociatedIndices, PrimaryItemId, FirstEntry,
         Ipma.Serialise, Pitm.Serialise, FirstOf, PropertyBoxes;
    PrimaryItemIdOfSerialised(t.pitm, []);
    assert t.pitm.Serialise() + [] == t.pitm.Serialise();
    PropertyCount(t);
    WalkOfContainer(PropertyBoxes(t), budget);
    PropertyTable(t, IPCO);
    PropertyTable(t, IPMA);
    WalkOfContainer(ListBoxes(t.properties), budget - |t.iprp|);
    AssociatedIndicesOfSerialised(t.ipma, [], t.pitm.item);
    assert t.ipma.Serialise() + [] == t.ipma.Serialise();
    var indices := FirstEntry(t.ipma.entries, t.pitm.item);
    if indices.Some? {
      SelectedIsChosen(t.properties, indices.value);
    }
  }

  lemma PropertyCount(t: Tree)
    requires Shaped(t)
    ensures |PropertyBoxes(t)| == |t.iprp|
  {
  }

  // ---------------------------------------------------------------------------------------------
  // EXIF
  // ---------------------------------------------------------------------------------------------

  /** A box whose version byte is neither 2 nor 3 declares nothing. */
  lemma OtherVersionDeclaresNothing(content: Bytes)
    requires content == [] || content[0] !in {2, 3}
    ensures ExifItemId(content).None?
  {
    if content != [] {
      SingleByte(content, 0, content[0]);
    }
  }

  lemma {:induction false} ExifItemRead(t: Tree, from: nat)
    requires WellFormedEntries(t) && from <= |t.entries|
    ensures FirstExifItem(EntryBoxes(t)[from..]) == DeclaredExif(t.entries[from..])
    decreases |t.entries| - from
  {
    hide ExifItemId, Complete, Infe.Serialise, Infe.Encodable;
    if from < |t.entries| {
      var entry, box := t.entries[from], EntryBoxes(t)[from];
      assert entry in t.entries;
      assert EntryBoxes(t)[from..][1..] == EntryBoxes(t)[from + 1..];
      assert t.entries[from..][1..] == t.entries[from + 1..];
      ExifItemRead(t, from + 1);
      if entry.InfeEntry? {
        ExifItemIdOfSerialised(entry.infe);
      } else if box.kind == INFE {
        OtherVersionDeclaresNothing(box.content);
      }
    }
  }

  lemma InfeStreamRead(t: Tree)
    requires WellFormedEntries(t)
    ensures InfeStream(IinfContent(t)) == Some(SerialiseBoxes(EntryBoxes(t)))
  {
    hide EntryBoxes, SerialiseBoxes, Complete, DeclaredExif;
    var data := IinfContent(t);
    var width := if t.iinfVersion == 0 then 2 else 4;
    SingleByte(data, 0, t.iinfVersion);
    assert At(data, 4, ToBigEndian(t.declaredEntries, width));
    UintAtWritten(data, 4, t.declaredEntries, width);
    assert data[4 + width..] == SerialiseBoxes(EntryBoxes(t));
  }

  lemma {:induction false} FirstItemAt(items: seq<IlocItem>, k: nat)
    requires k < |items| && forall i | 0 <= i < k :: items[i].item != items[k].item
    ensures FirstItem(items, items[k].item)
         == Some(Location(items[k].construction, items[k].base, ExtentsOf(items[k].extents)))
    decreases k
  {
    hide ExtentsOf;
    if k > 0 {
      assert items[1..][k - 1] == items[k];
      forall i | 0 <= i < k - 1
        ensures items[1..][i].item != items[1..][k - 1].item
      {
        assert items[1..][i] == items[i + 1];
      }
      FirstItemAt(items[1..], k - 1);
    }
  }

  /** Consecutive extents over the place where the chunks stand give the chunks back, joined. */
  lemma {:induction false} PayloadOfPlaced(file: Bytes, base: nat, start: nat, chunks: seq<Chunk>)
    requires |file| < TWO_64 && |Joined(chunks)| <= MAX_EXIF_LEN
    requires At(file, base + start, Joined(chunks))
    ensures Payload(file, base, ExtentsOf(PlacedExtents(chunks, start))) == Some(Joined(chunks))
  {
    hide At, BytesAt;
    if chunks != [] {
      var front, last := chunks[..|chunks| - 1], chunks[|chunks| - 1];
      AtSplit(file, base + start, Joined(front), last.bytes);
      PayloadOfPlaced(file, base, start, front);
      var placed := PlacedExtents(chunks, start);
      var extent := Extent(start + |Joined(front)|, |last.bytes|);
      assert ExtentsOf(placed)[..|placed| - 1] == ExtentsOf(PlacedExtents(front, start));
      assert ExtentsOf(placed)[|placed| - 1] == extent;
      assert base + (start + |Joined(front)|) == base + start + |Joined(front)|;
      AtIsBytesAt(file, base + start + |Joined(front)|, last.bytes);
      AtWithin(file, base + start + |Joined(front)|, last.bytes);
      assert ExtentBytes(file, base, extent) == Some(last.bytes);
    }
  }

  lemma AtWithin(data: Bytes, pos: nat, bytes: Bytes)
    requires At(data, pos, bytes)
    ensures pos + |bytes| <= |data|
  {
  }

  lemma TiffOfPayload(t: Tree)
    requires WellFormedPayload(t)
    ensures TiffOf(Joined(t.chunks)) == Some(t.tiff)
  {
    NamesAndLimits();
    hide Joined, StartsWith, Letters;
    Capacities();
    var payload := Joined(t.chunks);
    assert payload[..4] == ToBigEndian(|t.filler|, 4);
    BigEndianOfWritten(|t.filler|, 4);
    assert payload[4 + |t.filler|..] == t.tiff;
  }

  lemma PayloadInFile(t: Tree)
    requires Shaped(t)
    ensures At(File(t), Position(t), Joined(t.chunks))
  {
    hide Joined, MetaBox, SerialiseBox;
    var meta := MetaBox(t, Position(t));
    MetaLengthIgnoresOffset(t, Position(t), 0);
    var front := SerialiseBoxes(t.before + [meta]);
    SerialiseSplit(t.before, [meta]);
    assert SerialiseBoxes([meta]) == SerialiseBox(meta) + [];
    assert |front| + |t.gap| == Position(t);
    var file := File(t);
    assert file[|front| + |t.gap|..|front| + |t.gap| + |Joined(t.chunks)|] == Joined(t.chunks);
  }

  lemma ExifRead(t: Tree, budget: nat)
    requires Shaped(t) && |File(t)| < TWO_64
    requires WellFormedItems(t) && WellFormedLocations(t) && WellFormedPayload(t)
    requires |t.entries| <= budget
    ensures var scan := ScanExif(File(t), Some(IinfContent(t)), Some(PlacedIloc(t, Position(t)).Serialise()), budget);
            scan.exif == Some(t.tiff)
  {
    hide Walk, File, Position, IinfContent, InfeStream, LocationOf, Iloc.Serialise, Iloc.Encodable, FirstExifItem,
         Payload, ExtentsOf, FirstItem, DeclaredExif, TiffOf, Joined, SerialiseBoxes, Complete, PlacedExtents,
         EntryBoxes;
    InfeStreamRead(t);
    EntryCount(t);
    WalkOfContainer(EntryBoxes(t), budget);
    ExifItemRead(t, 0);
    assert EntryBoxes(t)[0..] == EntryBoxes(t) && t.entries[0..] == t.entries;
    var placed := PlacedIloc(t, Position(t));
    LocationOfSerialised(placed, [], placed.items[t.exifEntry].item);
    assert placed.Serialise() + [] == placed.Serialise();
    FirstItemAt(placed.items, t.exifEntry);
    PayloadInFile(t);
    var base, start := if t.throughBase then Position(t) else 0, if t.throughBase then 0 else Position(t);
    PayloadOfPlaced(File(t), base, start, t.chunks);
    TiffOfPayload(t);
  }

  lemma EntryCount(t: Tree)
    ensures |EntryBoxes(t)| == |t.entries|
  {
  }

  // ---------------------------------------------------------------------------------------------
  // The whole file
  // ---------------------------------------------------------------------------------------------

  /** What `meta` holds under one of the four types. */
  function TableOf(t: Tree, kind: BoxType, position: nat): Bytes
    requires Shaped(t) && kind in {PITM, IPRP, IINF, ILOC}
  {
    if kind == PITM then t.pitm.Serialise()
    else if kind == IPRP then SerialiseBoxes(PropertyBoxes(t))
    else if kind == IINF then IinfContent(t)
    else PlacedIloc(t, position).Serialise()
  }

  lemma ChildMissing(t: Tree, kind: BoxType)
    requires Shaped(t) && CompleteChildren(t) && kind in {PITM, IPRP, IINF, ILOC} && !HasTable(t, kind)
    ensures FirstOf(ChildBoxes(t, Position(t)), kind) == None
  {
    hide SerialiseBoxes, PropertyBoxes, IinfContent, PlacedIloc, Iloc.Serialise, Pitm.Serialise, Complete, Position;
    var boxes := ChildBoxes(t, Position(t));
    forall b | b in boxes
      ensures b.kind != kind
    {
      var j :| 0 <= j < |boxes| && boxes[j] == b;
      assert t.children[j] in t.children;
    }
    FirstOfHasKind(boxes, kind);
  }

  lemma ChildRead(t: Tree, kind: BoxType)
    requires Shaped(t) && CompleteChildren(t) && kind in {PITM, IPRP, IINF, ILOC} && HasTable(t, kind)
    ensures FirstOf(ChildBoxes(t, Position(t)), kind) == Some(TableOf(t, kind, Position(t)))
  {
    hide SerialiseBoxes, PropertyBoxes, IinfContent, PlacedIloc, Iloc.Serialise, Pitm.Serialise, Complete, Position;
    var boxes := ChildBoxes(t, Position(t));
    var i :| 0 <= i < |t.children| &&
             (if kind == PITM then t.children[i].PitmChild? else if kind == IPRP then t.children[i].IprpChild?
              else if kind == IINF then t.children[i].IinfChild? else t.children[i].IlocChild?);
    assert boxes[i].kind == kind && boxes[i] in boxes;
    forall b | b in boxes && b.kind == kind
      ensures b.content == TableOf(t, kind, Position(t))
    {
      var j :| 0 <= j < |boxes| && boxes[j] == b;
      assert t.children[j] in t.children;
    }
    FirstOfKind(boxes, kind, TableOf(t, kind, Position(t)));
  }

  lemma {:induction false} BoxesTakeBytes(data: Bytes, budget: nat)
    ensures |Walk(data, budget).boxes| <= |data|
    decreases |data|
  {
    hide ReadBoxHeader, FormOf;
    if data != [] && budget != 0 && ReadBoxHeader(data).Some? {
      BoxesTakeBytes(data[ReadBoxHeader(data).value.total..], budget - 1);
    }
  }

  /** A scan that can afford every box of its data visits `BoxCount` of them. */
  lemma AffordableScan(data: Bytes, budget: nat)
    requires BoxCount(data) <= budget
    ensures Walk(data, budget).budget == budget - BoxCount(data)
  {
    hide Walk;
    var larger := if |data| > budget then |data| else budget;
    BoxesTakeBytes(data, larger);
    WalkWithinBudget(data, |data|, larger);
    WalkWithinBudget(data, budget, larger);
  }

  lemma FirstOfAppended(before: seq<Box>, b: Box, others: seq<Box>, kind: BoxType)
    requires b.kind == kind && forall x <- before :: x.kind != kind
    ensures FirstOf(before + [b] + others, kind) == Some(b.content)
    decreases |before|
  {
    var all := before + [b] + others;
    if before == [] {
      assert all[0] == b;
    } else {
      assert all[0] == before[0] && all[1..] == before[1..] + [b] + others;
      FirstOfAppended(before[1..], b, others, kind);
    }
  }

  lemma TopRead(t: Tree)
    requires Shaped(t) && WellFormedTop(t) && WithinBudget(t)
    ensures var top := Walk(File(t), MAX_BOXES_VISITED);
            && FirstOf(top.boxes, META) == Some(MetaBox(t, Position(t)).content)
            && top.budget == MAX_BOXES_VISITED - |t.before| - 1 - BoxCount(Tail(t))
  {
    hide Walk, MetaBox, Position, Tail, SerialiseBoxes, BoxCount, FirstOf;
    var meta := MetaBox(t, Position(t));
    MetaIsMeta(t, Position(t));
    var boxes := t.before + [meta];
    assert Bounded(boxes);
    WalkOfSerialised(boxes, Tail(t), MAX_BOXES_VISITED);
    AffordableScan(Tail(t), MAX_BOXES_VISITED - |boxes|);
    FirstOfAppended(t.before, meta, Walk(Tail(t), MAX_BOXES_VISITED - |boxes|).boxes, META);
  }

  lemma MetaIsMeta(t: Tree, position: nat)
    requires Shaped(t)
    ensures MetaBox(t, position).kind == META && MetaBox(t, position).form == t.metaForm
  {
  }

  /**
   The round trip. Parsing the file of a well-formed tree gives exactly the composed orientation of the
   primary item's properties, and exactly the TIFF block.
   */
  lemma ParseOfFile(t: Tree)
    requires WellFormed(t)
    ensures ParseFile(File(t)).metadata
         == Metadata(Compose(PrimaryProperties(t)).IntoOrientation(), Some(t.tiff))
  {
    hide Walk, File, Position, ChildBoxes, SerialiseBoxes, BoxCount, FirstOf, ScanOrientation, ScanExif,
         PrimaryProperties, Compose, CompleteChildren, HasTable, WellFormedProperties, WellFormedItems,
         WellFormedLocations, WellFormedPayload, Iloc.Serialise, Pitm.Serialise, IinfContent, PropertyBoxes, PlacedIloc;
    var position := Position(t);
    var children := ChildBoxes(t, position);
    TopRead(t);
    var content := MetaBox(t, position).content;
    assert content[4..] == SerialiseBoxes(children);
    var budget := MAX_BOXES_VISITED - |t.before| - 1 - BoxCount(Tail(t));
    ChildCount(t, position);
    WalkOfContainer(children, budget);
    ChildRead(t, PITM);
    ChildRead(t, IPRP);
    ChildRead(t, IINF);
    ChildRead(t, ILOC);
    OrientationRead(t, budget - |t.children|);
    ExifRead(t, budget - |t.children| - |t.iprp| - |t.properties|);
  }

  lemma ChildCount(t: Tree, position: nat)
    requires Shaped(t)
    ensures |ChildBoxes(t, position)| == |t.children|
    ensures position == Position(t) && CompleteChildren(t) ==> Complete(ChildBoxes(t, position))
  {
  }

  /** What the EXIF scan finds in the tables of a tree without EXIF. */
  lemma NoExifRead(t: Tree, budget: nat)
    requires Shaped(t) && CompleteChildren(t) && WithoutExif(t) && |t.entries| <= budget
    ensures var boxes := ChildBoxes(t, Position(t));
            ScanExif(File(t), FirstOf(boxes, IINF), FirstOf(boxes, ILOC), budget).exif == None
  {
    hide Walk, File, Position, IinfContent, InfeStream, LocationOf, Iloc.Serialise, Iloc.Encodable, FirstExifItem,
         Payload, ExtentsOf, FirstItem, DeclaredExif, TiffOf, Joined, SerialiseBoxes, Complete, EntryBoxes,
         PlacedExtents,
         FirstOf, ChildBoxes, CompleteChildren, HasTable, WellFormedEntries;
    if !HasTable(t, IINF) {
      ChildMissing(t, IINF);
    } else if !HasTable(t, ILOC) {
      ChildMissing(t, ILOC);
    } else {
      ChildRead(t, IINF);
      ChildRead(t, ILOC);
      InfeStreamRead(t);
      EntryCount(t);
      assert Complete(EntryBoxes(t)) by { EntriesComplete(t); }
      WalkOfContainer(EntryBoxes(t), budget);
      ExifItemRead(t, 0);
      assert EntryBoxes(t)[0..] == EntryBoxes(t) && t.entries[0..] == t.entries;
      if DeclaredExif(t.entries).Some? {
        var placed := PlacedIloc(t, Position(t));
        LocationOfSerialised(placed, [], DeclaredExif(t.entries).value);
        assert placed.Serialise() + [] == placed.Serialise();
      }
    }
  }

  lemma EntriesComplete(t: Tree)
    requires WellFormedEntries(t)
    ensures Complete(EntryBoxes(t))
  {
  }

  /**
   The same for files without EXIF, for want of a table, an item or a location: parsing gives no payload, and
   the composed orientation, or none where one of its two tables is missing.
   */
  lemma ParseWithoutExif(t: Tree)
    requires WellFormedBare(t)
    ensures ParseFile(File(t)).metadata
         == Metadata(if HasTable(t, PITM) && HasTable(t, IPRP) then Compose(PrimaryProperties(t)).IntoOrientation()
                     else NoTransforms,
                     None)
  {
    hide Walk, File, Position, ChildBoxes, SerialiseBoxes, BoxCount, FirstOf, ScanExif, PrimaryProperties, Compose,
         WellFormedProperties, WithoutExif, Iloc.Serialise, Pitm.Serialise, IinfContent, PropertyBoxes, PlacedIloc,
         CompleteChildren, HasTable, WellFormedTop, ScanOrientation;
    var position := Position(t);
    var children := ChildBoxes(t, position);
    TopRead(t);
    var content := MetaBox(t, position).content;
    assert |t.metaFlags| == 4 by { FourFlags(t); }
    assert content[4..] == SerialiseBoxes(children);
    var budget := MAX_BOXES_VISITED - |t.before| - 1 - BoxCount(Tail(t));
    ChildCount(t, position);
    WalkOfContainer(children, budget);
    OrientationOrNone(t, budget - |t.children|);
    var o := ScanOrientation(FirstOf(children, PITM), FirstOf(children, IPRP), budget - |t.children|);
    NoExifRead(t, o.budget);
  }

  lemma FourFlags(t: Tree)
    requires Shaped(t) && WellFormedTop(t)
    ensures |t.metaFlags| == 4
  {
  }

  lemma OrientationOrNone(t: Tree, budget: nat)
    requires Shaped(t) && CompleteChildren(t) && |t.iprp| + |t.properties| <= budget
    requires HasTable(t, PITM) && HasTable(t, IPRP) ==> WellFormedProperties(t)
    ensures var boxes := ChildBoxes(t, Position(t));
            var scan := ScanOrientation(FirstOf(boxes, PITM), FirstOf(boxes, IPRP), budget);
            && UnwrapOr(scan.orientation, NoTransforms)
               == (if HasTable(t, PITM) && HasTable(t, IPRP) then Compose(PrimaryProperties(t)).IntoOrientation()
                   else NoTransforms)
            && budget - |t.iprp| - |t.properties| <= scan.budget
  {
    hide Walk, Position, ChildBoxes, SerialiseBoxes, FirstOf, PrimaryProperties, Compose, WellFormedProperties,
         Pitm.Serialise, PropertyBoxes, CompleteChildren, HasTable, PrimaryItemId, AssociatedIndices, WalkAt;
    if HasTable(t, PITM) && HasTable(t, IPRP) {
      ChildRead(t, PITM);
      ChildRead(t, IPRP);
      OrientationRead(t, budget);
    } else if !HasTable(t, PITM) {
      ChildMissing(t, PITM);
    } else {
      ChildMissing(t, IPRP);
    }
  }

  lemma {:induction false} ChosenValid(parts: seq<PropertyPart>, indices: seq<nat>)
    requires forall p <- parts :: p.Valid()
    ensures forall p <- Chosen(parts, indices) :: p.Valid()
  {
    if indices != [] {
      var last := indices[|indices| - 1];
      assert 1 <= last <= |parts| ==> parts[last - 1] in parts;
      ChosenValid(parts, indices[..|indices| - 1]);
    }
  }

  /**
   What the parsed orientation means: applied to any image, it does what the primary item's `irot` and
   `imir` properties do one after the other.
   */
  lemma ParsedOrientationActs<T>(t: Tree, g: Grid<T>)
    requires WellFormed(t) && g.Valid()
    ensures ApplyOrientation(ParseFile(File(t)).metadata.orientation, g) == ApplyProperties(PrimaryProperties(t), g)
  {
    assert Shaped(t) && forall p <- t.properties :: p.Valid();
    hide WellFormed, ParseFile, File, ApplyOrientation, ApplyProperties, Chosen, Compose;
    ParseOfFile(t);
    var indices := FirstEntry(t.ipma.entries, t.pitm.item);
    if indices.Some? {
      ChosenValid(t.properties, indices.value);
    }
    OrientationOfProperties(PrimaryProperties(t), g);
  }
}

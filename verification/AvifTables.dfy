/**
 The item tables of an AVIF `meta` box: the primary item (`pitm`), the property associations (`ipma`),
 the item information entries (`infe`) and the item locations (`iloc`).

 For each table there is the reader, as a method over a `Cursor` proved against a function on positions,
 and the serialiser. The lemmas at the end of each part say that the reader undoes the serialiser.
 */
module AvifTables {
  import opened Common
  import opened AvifBoxes

  /** `bytes` stand in `data` at `pos`. */
  predicate At(data: Bytes, pos: nat, bytes: Bytes) {
    pos + |bytes| <= |data| && data[pos..pos + |bytes|] == bytes
  }

  lemma AtSplit(data: Bytes, pos: nat, a: Bytes, b: Bytes)
    requires At(data, pos, a + b)
    ensures At(data, pos, a) && At(data, pos + |a|, b)
  {
    var ab := a + b;
    assert data[pos..pos + |a|] == ab[..|a|] == a;
    assert data[pos + |a|..pos + |a| + |b|] == ab[|a|..] == b;
  }

  lemma UintAtWritten(data: Bytes, pos: nat, n: nat, width: nat)
    requires width <= 8 && n < Capacity(width)
    requires At(data, pos, ToBigEndian(n, width))
    ensures UintAt(data, pos, width) == Some(n)
  {
    BigEndianOfWritten(n, width);
    hide Capacity, ToBigEndian, BigEndian;
    if width > 0 {
      assert BytesAt(data, pos, width) == Some(ToBigEndian(n, width));
    }
  }

  // ---------------------------------------------------------------------------------------------
  // pitm
  // ---------------------------------------------------------------------------------------------

  function PrimaryItemId(content: Bytes): Option<nat> {
    var version :- UintAt(content, 0, 1);
    var _ :- BytesAt(content, 1, 3);
    UintAt(content, 4, if version == 0 then 2 else 4)
  }

  method ParsePrimaryItemId(content: Bytes) returns (id: Option<nat>)
    requires |content| < TWO_64
    ensures id == PrimaryItemId(content)
  {
    var cursor := new Cursor(content);
    var version := cursor.ReadFixed(1);
    if version.None? { return None; }
    var flags := cursor.ReadBytes(3);
    if flags.None? { return None; }
    if version.value == 0 {
      id := cursor.ReadFixed(2);
    } else {
      id := cursor.ReadFixed(4);
    }
  }

  /** A `pitm` box; `flags` are its three flag bytes. */
  datatype Pitm = Pitm(version: Byte, flags: Bytes, item: nat) {
    predicate Encodable() {
      |flags| == 3 && item < Capacity(if version == 0 then 2 else 4)
    }

    function Serialise(): Bytes {
      [version] + flags + ToBigEndian(item, if version == 0 then 2 else 4)
    }
  }

  lemma PrimaryItemIdOfSerialised(p: Pitm, trailing: Bytes)
    requires p.Encodable()
    ensures PrimaryItemId(p.Serialise() + trailing) == Some(p.item)
  {
    var data := p.Serialise() + trailing;
    assert data[0..1] == [p.version];
    assert BigEndian([p.version]) == p.version;
    var width := if p.version == 0 then 2 else 4;
    assert At(data, 4, ToBigEndian(p.item, width));
    UintAtWritten(data, 4, p.item, width);
  }

  // ---------------------------------------------------------------------------------------------
  // ipma
  // ---------------------------------------------------------------------------------------------

  /** How many values an index field has below its essential bit: 7 bits, or 15 for large indices. */
  function IndexRange(large: bool): nat {
    if large then 0x8000 else 0x80
  }

  function IndexWidth(large: bool): nat {
    if large then 2 else 1
  }

  /** A narrow association field is one byte with the essential bit on top, a wide one two bytes. */
  lemma AssociationFields()
    ensures IndexWidth(false) == 1 && IndexRange(false) == 0x80 && 2 * IndexRange(false) == Capacity(IndexWidth(false))
    ensures IndexWidth(true) == 2 && IndexRange(true) == 0x8000 && 2 * IndexRange(true) == Capacity(IndexWidth(true))
  {
    Capacities();
  }

  /** `count` association fields from `pos`, each without its essential bit. */
  function IndicesAt(data: Bytes, pos: nat, count: nat, large: bool): Option<seq<nat>>
    decreases count
  {
    if count == 0 then Some([])
    else
      var field :- UintAt(data, pos, IndexWidth(large));
      Prepend([field % IndexRange(large)], IndicesAt(data, pos + IndexWidth(large), count - 1, large))
  }

  /** The indices of the first of `entries` entries from `pos` whose item is `target`. */
  function EntryScan(data: Bytes, pos: nat, entries: nat, wide: bool, large: bool, target: nat): Option<seq<nat>>
    decreases entries
  {
    if entries == 0 then None
    else
      var idWidth := if wide then 4 else 2;
      var item :- UintAt(data, pos, idWidth);
      var count :- UintAt(data, pos + idWidth, 1);
      var indices :- IndicesAt(data, pos + idWidth + 1, count, large);
      if item == target then Some(indices)
      else EntryScan(data, pos + idWidth + 1 + count * IndexWidth(large), entries - 1, wide, large, target)
  }

  function AssociatedIndices(content: Bytes, target: nat): Option<seq<nat>> {
    var version :- UintAt(content, 0, 1);
    var flags :- UintAt(content, 1, 3);
    var entries :- UintAt(content, 4, 4);
    EntryScan(content, 8, entries, version >= 1, flags % 2 == 1, target)
  }

  /** `prefix` in front of a sequence that may be missing. */
  function Prepend<T>(prefix: seq<T>, o: Option<seq<T>>): Option<seq<T>> {
    if o.None? then None else Some(prefix + o.value)
  }

  lemma PrependNothing<T>(o: Option<seq<T>>)
    ensures Prepend([], o) == o
  {
    if o.Some? {
      assert [] + o.value == o.value;
    }
  }

  lemma PrependStep<T>(prefix: seq<T>, x: T, o: Option<seq<T>>)
    ensures Prepend(prefix, Prepend([x], o)) == Prepend(prefix + [x], o)
  {
    if o.Some? {
      ConcatAssociative(prefix, [x], o.value);
    }
  }

  /** Reads `count` association fields; the loop body of `parse_primary_item_associations`. */
  method ReadIndices(cursor: Cursor, count: nat, large: bool) returns (indices: Option<seq<nat>>)
    requires cursor.Valid()
    modifies cursor
    ensures cursor.Valid()
    ensures indices == IndicesAt(cursor.data, old(cursor.pos), count, large)
    ensures indices.Some? ==> cursor.pos == old(cursor.pos) + count * IndexWidth(large)
  {
    ghost var start := cursor.pos;
    var read: seq<nat> := [];
    PrependNothing(IndicesAt(cursor.data, start, count, large));
    for i := 0 to count
      invariant cursor.Valid() && cursor.pos == start + i * IndexWidth(large)
      invariant IndicesAt(cursor.data, start, count, large)
             == Prepend(read, IndicesAt(cursor.data, cursor.pos, count - i, large))
    {
      var field := cursor.ReadFixed(if large then 2 else 1);
      if field.None? {
        return None;
      }
      PrependStep(read, field.value % IndexRange(large), IndicesAt(cursor.data, cursor.pos, count - i - 1, large));
      read := read + [field.value % (if large then 0x8000 else 0x80)];
    }
    assert read + [] == read;
    indices := Some(read);
  }

  /**
   Finds the entry of an item. Entries before it are read in full, because only their own fields say
   where the next one starts.
   */
  method ParseAssociations(content: Bytes, target: nat) returns (r: Option<seq<nat>>)
    requires |content| < TWO_64
    ensures r == AssociatedIndices(content, target)
  {
    hide UintAt, IndicesAt;
    var cursor := new Cursor(content);
    var version := cursor.ReadFixed(1);
    if version.None? { return None; }
    var flags := cursor.ReadFixed(3);
    if flags.None? { return None; }
    var wide, large := version.value >= 1, flags.value % 2 == 1;
    var entries := cursor.ReadFixed(4);
    if entries.None? { return None; }
    for i := 0 to entries.value
      invariant cursor.Valid() && cursor.data == content
      invariant AssociatedIndices(content, target)
             == EntryScan(content, cursor.pos, entries.value - i, wide, large, target)
    {
      var item := cursor.ReadFixed(if wide then 4 else 2);
      if item.None? { return None; }
      var count := cursor.ReadFixed(1);
      if count.None? { return None; }
      var indices := ReadIndices(cursor, count.value, large);
      if indices.None? { return None; }
      if item.value == target {
        return indices;
      }
    }
    r := None;
  }

  datatype Association = Association(essential: bool, index: nat)

  datatype IpmaEntry = IpmaEntry(item: nat, associations: seq<Association>)

  /** An `ipma` box: version 1 and up has wide item ids, an odd flags value has large indices. */
  datatype Ipma = Ipma(version: Byte, flags: Bytes, entries: seq<IpmaEntry>) {
    predicate Wide() {
      version >= 1
    }

    predicate Large()
      requires |flags| == 3
    {
      flags[2] % 2 == 1
    }

    predicate Encodable() {
      && |flags| == 3
      && |entries| < TWO_32
      && forall e <- entries :: EntryEncodable(e, Wide(), Large())
    }

    function Serialise(): Bytes
      requires |flags| == 3
    {
      [version] + flags + ToBigEndian(|entries|, 4) + SerialiseEntries(entries, Wide(), Large())
    }
  }

  predicate EntryEncodable(e: IpmaEntry, wide: bool, large: bool) {
    && e.item < Capacity(if wide then 4 else 2)
    && |e.associations| < 256
    && forall a <- e.associations :: a.index < IndexRange(large)
  }

  function SerialiseAssociations(associations: seq<Association>, large: bool): Bytes {
    if associations == [] then []
    else
      var a := associations[0];
      ToBigEndian((if a.essential then IndexRange(large) else 0) + a.index, IndexWidth(large))
      + SerialiseAssociations(associations[1..], large)
  }

  function SerialiseEntry(e: IpmaEntry, wide: bool, large: bool): Bytes {
    ToBigEndian(e.item, if wide then 4 else 2)
    + (ToBigEndian(|e.associations|, 1) + SerialiseAssociations(e.associations, large))
  }

  function SerialiseEntries(entries: seq<IpmaEntry>, wide: bool, large: bool): Bytes {
    if entries == [] then []
    else SerialiseEntry(entries[0], wide, large) + SerialiseEntries(entries[1..], wide, large)
  }

  function IndicesOf(associations: seq<Association>): seq<nat> {
    seq(|associations|, i requires 0 <= i < |associations| => associations[i].index)
  }

  /** What the table says about an item: the indices of its first entry. */
  function FirstEntry(entries: seq<IpmaEntry>, target: nat): Option<seq<nat>> {
    if entries == [] then None
    else if entries[0].item == target then Some(IndicesOf(entries[0].associations))
    else FirstEntry(entries[1..], target)
  }

  lemma {:induction false} IndicesOfSerialised(data: Bytes, pos: nat, associations: seq<Association>, large: bool)
    requires forall a <- associations :: a.index < IndexRange(large)
    requires At(data, pos, SerialiseAssociations(associations, large))
    decreases |associations|
    ensures IndicesAt(data, pos, |associations|, large) == Some(IndicesOf(associations))
    ensures |SerialiseAssociations(associations, large)| == |associations| * IndexWidth(large)
  {
    hide At, UintAt;
    if associations != [] {
      Capacities();
      assert associations[0] in associations;
      var a, others := associations[0], associations[1..];
      var field := (if a.essential then IndexRange(large) else 0) + a.index;
      var written := ToBigEndian(field, IndexWidth(large));
      AtSplit(data, pos, written, SerialiseAssociations(others, large));
      UintAtWritten(data, pos, field, IndexWidth(large));
      IndicesOfSerialised(data, pos + IndexWidth(large), others, large);
      assert IndicesOf(associations) == [a.index] + IndicesOf(others);
    }
  }

  lemma {:induction false} EntryScanOfSerialised(
    data: Bytes, pos: nat, entries: seq<IpmaEntry>, wide: bool, large: bool, target: nat)
    requires forall e <- entries :: EntryEncodable(e, wide, large)
    requires At(data, pos, SerialiseEntries(entries, wide, large))
    decreases |entries|
    ensures EntryScan(data, pos, |entries|, wide, large, target) == FirstEntry(entries, target)
  {
    hide At, UintAt, IndicesAt, IndicesOf, ToBigEndian, Capacity, SerialiseAssociations;
    if entries != [] {
      Capacities();
      assert EntryEncodable(entries[0], wide, large);
      var e, others := entries[0], entries[1..];
      var idWidth := if wide then 4 else 2;
      var id, count := ToBigEndian(e.item, idWidth), ToBigEndian(|e.associations|, 1);
      var fields := SerialiseAssociations(e.associations, large);
      assert SerialiseEntry(e, wide, large) == id + (count + fields);
      AtSplit(data, pos, id + (count + fields), SerialiseEntries(others, wide, large));
      AtSplit(data, pos, id, count + fields);
      AtSplit(data, pos + idWidth, count, fields);
      UintAtWritten(data, pos, e.item, idWidth);
      UintAtWritten(data, pos + idWidth, |e.associations|, 1);
      IndicesOfSerialised(data, pos + idWidth + 1, e.associations, large);
      EntryScanOfSerialised(data, pos + |id + (count + fields)|, others, wide, large, target);
    }
  }

  /** The association reader finds exactly the first entry of the item, in narrow and wide tables. */
  lemma AssociatedIndicesOfSerialised(t: Ipma, trailing: Bytes, target: nat)
    requires t.Encodable()
    ensures AssociatedIndices(t.Serialise() + trailing, target) == FirstEntry(t.entries, target)
  {
    var data := t.Serialise() + trailing;
    var entries := SerialiseEntries(t.entries, t.Wide(), t.Large());
    assert data[0..1] == [t.version] && BigEndian([t.version]) == t.version;
    assert data[1..4] == t.flags && BigEndian(t.flags) % 2 == t.flags[2] % 2;
    assert At(data, 4, ToBigEndian(|t.entries|, 4));
    assert At(data, 8, entries);
    Capacities();
    UintAtWritten(data, 4, |t.entries|, 4);
    EntryScanOfSerialised(data, 8, t.entries, t.Wide(), t.Large(), target);
  }

  // ---------------------------------------------------------------------------------------------
  // infe
  // ---------------------------------------------------------------------------------------------

  const EXIF: BoxType := [0x45, 0x78, 0x69, 0x66]

  /** The item id of an `infe` entry that declares an `Exif` item; only versions 2 and 3 carry a type. */
  function ExifItemId(content: Bytes): Option<nat> {
    var version :- UintAt(content, 0, 1);
    var _ :- BytesAt(content, 1, 3);
    if version != 2 && version != 3 then None
    else
      var width := if version == 2 then 2 else 4;
      var item :- UintAt(content, 4, width);
      var _ :- BytesAt(content, 4 + width, 2);
      var kind :- BytesAt(content, 6 + width, 4);
      if kind == EXIF then Some(item) else None
  }

  method ParseInfeExifItemId(content: Bytes) returns (id: Option<nat>)
    requires |content| < TWO_64
    ensures id == ExifItemId(content)
  {
    var cursor := new Cursor(content);
    var version := cursor.ReadFixed(1);
    if version.None? { return None; }
    var flags := cursor.ReadBytes(3);
    if flags.None? { return None; }
    var item: Option<nat>;
    if version.value == 2 {
      item := cursor.ReadFixed(2);
    } else if version.value == 3 {
      item := cursor.ReadFixed(4);
    } else {
      return None;
    }
    if item.None? { return None; }
    var protection := cursor.ReadBytes(2);
    if protection.None? { return None; }
    var kind := cursor.ReadBytes(4);
    if kind.None? { return None; }
    id := if kind.value == EXIF then item else None;
  }

  /** An `infe` entry of version 2 or 3; `rest` is whatever follows the item type (its name, say). */
  datatype Infe = Infe(wide: bool, flags: Bytes, item: nat, protection: Bytes, kind: BoxType, rest: Bytes) {
    predicate Encodable() {
      |flags| == 3 && |protection| == 2 && item < Capacity(if wide then 4 else 2)
    }

    function Serialise(): Bytes {
      [if wide then 3 else 2] + flags + ToBigEndian(item, if wide then 4 else 2) + protection + kind + rest
    }
  }

  lemma ExifItemIdOfSerialised(i: Infe)
    requires i.Encodable()
    ensures ExifItemId(i.Serialise()) == if i.kind == EXIF then Some(i.item) else None
  {
    var data := i.Serialise();
    var width := if i.wide then 4 else 2;
    assert data[0..1] == [if i.wide then 3 else 2];
    assert BigEndian(data[0..1]) == if i.wide then 3 else 2;
    assert At(data, 4, ToBigEndian(i.item, width));
    UintAtWritten(data, 4, i.item, width);
    assert data[4 + width..6 + width] == i.protection;
    assert data[6 + width..10 + width] == i.kind;
  }

  // ---------------------------------------------------------------------------------------------
  // iloc
  // ---------------------------------------------------------------------------------------------

  datatype Extent = Extent(offset: nat, length: nat)

  datatype Location = Location(construction: nat, base: nat, extents: seq<Extent>)

  /** The field widths an `iloc` box declares once, for all its entries. */
  datatype Widths = Widths(version: nat, offset: nat, length: nat, base: nat, index: nat) {
    function Id(): nat {
      if version < 2 then 2 else 4
    }

    predicate HasMethod() {
      version == 1 || version == 2
    }

    function Method(): nat {
      if HasMethod() then 2 else 0
    }

    /** The width of an extent's index field; there is none outside versions 1 and 2. */
    function ExtentIndex(): nat {
      if HasMethod() then index else 0
    }

    function ExtentTotal(): nat {
      ExtentIndex() + offset + length
    }
  }

  /** The fields whose widths the version decides: the item id, the construction method, the extent index. */
  lemma WidthsByVersion(w: Widths)
    ensures w.version == 0 ==> (w.Id(), w.Method(), w.ExtentIndex()) == (2, 0, 0)
    ensures w.version == 1 ==> (w.Id(), w.Method(), w.ExtentIndex()) == (2, 2, w.index)
    ensures w.version == 2 ==> (w.Id(), w.Method(), w.ExtentIndex()) == (4, 2, w.index)
    ensures w.version > 2 ==> (w.Id(), w.Method(), w.ExtentIndex()) == (4, 0, 0)
    ensures w.ExtentTotal() == w.ExtentIndex() + w.offset + w.length
  {
  }

  function ExtentAt(data: Bytes, pos: nat, w: Widths): Option<Extent> {
    var _ :- UintAt(data, pos, w.ExtentIndex());
    var offset :- UintAt(data, pos + w.ExtentIndex(), w.offset);
    var length :- UintAt(data, pos + w.ExtentIndex() + w.offset, w.length);
    Some(Extent(offset, length))
  }

  function ExtentsAt(data: Bytes, pos: nat, count: nat, w: Widths): Option<seq<Extent>>
    decreases count
  {
    if count == 0 then Some([])
    else
      var extent :- ExtentAt(data, pos, w);
      Prepend([extent], ExtentsAt(data, pos + w.ExtentTotal(), count - 1, w))
  }

  function ExtentsLength(count: nat, w: Widths): nat {
    count * w.ExtentTotal()
  }

  datatype LocatedItem = LocatedItem(item: nat, location: Location, next: nat)

  /** The entry at `pos`, and where the next one starts. */
  function ItemAt(data: Bytes, pos: nat, w: Widths): Option<LocatedItem> {
    var item :- UintAt(data, pos, w.Id());
    var m := pos + w.Id();
    var construction :- UintAt(data, m, w.Method());
    var _ :- BytesAt(data, m + w.Method(), 2);
    var b := m + w.Method() + 2;
    var base :- UintAt(data, b, w.base);
    var count :- UintAt(data, b + w.base, 2);
    var e := b + w.base + 2;
    var extents :- ExtentsAt(data, e, count, w);
    Some(LocatedItem(item, Location(construction % 16, base, extents), e + ExtentsLength(count, w)))
  }

  function LocationScan(data: Bytes, pos: nat, items: nat, w: Widths, target: nat): Option<Location>
    decreases items
  {
    if items == 0 then None
    else
      var located :- ItemAt(data, pos, w);
      if located.item == target then Some(located.location)
      else LocationScan(data, located.next, items - 1, w, target)
  }

  function LocationOf(content: Bytes, target: nat): Option<Location> {
    var version :- UintAt(content, 0, 1);
    var _ :- BytesAt(content, 1, 3);
    var sizes :- UintAt(content, 4, 1);
    var sizes2 :- UintAt(content, 5, 1);
    var w := Widths(version, sizes / 16, sizes % 16, sizes2 / 16, sizes2 % 16);
    var items :- UintAt(content, 6, w.Id());
    LocationScan(content, 6 + w.Id(), items, w, target)
  }

  method ReadExtents(cursor: Cursor, count: nat, w: Widths) returns (extents: Option<seq<Extent>>)
    requires cursor.Valid()
    modifies cursor
    ensures cursor.Valid()
    ensures extents == ExtentsAt(cursor.data, old(cursor.pos), count, w)
    ensures extents.Some? ==> cursor.pos == old(cursor.pos) + count * w.ExtentTotal()
  {
    hide UintAt;
    ghost var start := cursor.pos;
    var read: seq<Extent> := [];
    PrependNothing(ExtentsAt(cursor.data, start, count, w));
    var i := 0;
    while i < count
      invariant i <= count
      invariant cursor.Valid() && cursor.pos == start + i * w.ExtentTotal()
      invariant ExtentsAt(cursor.data, start, count, w)
             == Prepend(read, ExtentsAt(cursor.data, cursor.pos, count - i, w))
    {
      ghost var here := cursor.pos;
      if w.HasMethod() && w.index > 0 {
        var index := cursor.ReadUint(w.index);
        if index.None? { return None; }
      }
      ZeroWidth(cursor.data, here);
      var offset := cursor.ReadUint(w.offset);
      if offset.None? { return None; }
      var length := cursor.ReadUint(w.length);
      if length.None? { return None; }
      var extent := Extent(offset.value, length.value);
      assert ExtentAt(cursor.data, here, w) == Some(extent);
      PrependStep(read, extent, ExtentsAt(cursor.data, cursor.pos, count - i - 1, w));
      read := read + [extent];
      i := i + 1;
    }
    assert read + [] == read;
    extents := Some(read);
  }

  lemma ZeroWidth(data: Bytes, pos: nat)
    ensures UintAt(data, pos, 0) == Some(0)
  {
  }

  /** Reads one `iloc` entry in full, whichever item it belongs to. */
  method ReadItem(cursor: Cursor, w: Widths) returns (r: Option<LocatedItem>)
    requires cursor.Valid()
    modifies cursor
    ensures cursor.Valid()
    ensures r == ItemAt(cursor.data, old(cursor.pos), w)
    ensures r.Some? ==> cursor.pos == r.value.next
  {
    hide UintAt, ExtentsAt;
    ZeroWidth(cursor.data, cursor.pos + w.Id());
    var item := cursor.ReadFixed(if w.version < 2 then 2 else 4);
    if item.None? { return None; }
    var construction := 0;
    if w.version == 1 || w.version == 2 {
      var raw := cursor.ReadFixed(2);
      if raw.None? { return None; }
      construction := raw.value % 16;
    }
    var reference := cursor.ReadBytes(2);
    if reference.None? { return None; }
    var base := cursor.ReadUint(w.base);
    if base.None? { return None; }
    var count := cursor.ReadFixed(2);
    if count.None? { return None; }
    var extents := ReadExtents(cursor, count.value, w);
    if extents.None? { return None; }
    r := Some(LocatedItem(item.value, Location(construction, base.value, extents.value), cursor.pos));
  }

  /** Finds the location of an item: the first entry with its id, every entry before it read in full. */
  method FindIlocEntry(content: Bytes, target: nat) returns (r: Option<Location>)
    requires |content| < TWO_64
    ensures r == LocationOf(content, target)
  {
    hide UintAt, ItemAt;
    var cursor := new Cursor(content);
    var version := cursor.ReadFixed(1);
    if version.None? { return None; }
    var flags := cursor.ReadBytes(3);
    if flags.None? { return None; }
    var sizes := cursor.ReadFixed(1);
    if sizes.None? { return None; }
    var sizes2 := cursor.ReadFixed(1);
    if sizes2.None? { return None; }
    var w := Widths(version.value, sizes.value / 16, sizes.value % 16, sizes2.value / 16, sizes2.value % 16);
    var items := cursor.ReadFixed(if version.value < 2 then 2 else 4);
    if items.None? { return None; }
    for i := 0 to items.value
      invariant cursor.Valid() && cursor.data == content
      invariant LocationOf(content, target) == LocationScan(content, cursor.pos, items.value - i, w, target)
    {
      var located := ReadItem(cursor, w);
      if located.None? { return None; }
      if located.value.item == target {
        return Some(located.value.location);
      }
    }
    r := None;
  }

  datatype IlocExtent = IlocExtent(index: nat, offset: nat, length: nat)

  /**
   An `iloc` entry. `reserved` is the twelve bits above the construction method, and `reference` the two
   bytes of the data reference index; the reader ignores both.
   */
  datatype IlocItem =
    IlocItem(item: nat, reserved: nat, construction: nat, reference: Bytes, base: nat, extents: seq<IlocExtent>)

  datatype Iloc = Iloc(flags: Bytes, widths: Widths, items: seq<IlocItem>) {
    predicate Encodable() {
      && |flags| == 3 && widths.version < 256
      && widths.offset <= 8 && widths.length <= 8 && widths.base <= 8 && widths.index <= 8
      && |items| < Capacity(widths.Id())
      && forall i <- items :: ItemEncodable(i, widths)
    }

    function Serialise(): Bytes
      requires widths.version < 256
      requires widths.offset <= 8 && widths.length <= 8 && widths.base <= 8 && widths.index <= 8
    {
      [widths.version] + flags
      + [widths.offset * 16 + widths.length, widths.base * 16 + widths.index]
      + ToBigEndian(|items|, widths.Id()) + SerialiseItems(items, widths)
    }
  }

  predicate ExtentEncodable(e: IlocExtent, w: Widths) {
    e.index < Capacity(w.ExtentIndex()) && e.offset < Capacity(w.offset) && e.length < Capacity(w.length)
  }

  /** Without a method field the construction method is 0, a plain file offset. */
  predicate ItemEncodable(i: IlocItem, w: Widths) {
    && i.item < Capacity(w.Id())
    && i.construction < 16 && i.reserved < 0x1000 && (!w.HasMethod() ==> i.construction == i.reserved == 0)
    && |i.reference| == 2 && i.base < Capacity(w.base) && |i.extents| < TWO_16
    && forall e <- i.extents :: ExtentEncodable(e, w)
  }

  function SerialiseExtent(e: IlocExtent, w: Widths): Bytes {
    ToBigEndian(e.index, w.ExtentIndex()) + (ToBigEndian(e.offset, w.offset) + ToBigEndian(e.length, w.length))
  }

  function SerialiseExtents(extents: seq<IlocExtent>, w: Widths): Bytes {
    if extents == [] then [] else SerialiseExtent(extents[0], w) + SerialiseExtents(extents[1..], w)
  }

  function SerialiseItem(i: IlocItem, w: Widths): Bytes {
    ToBigEndian(i.item, w.Id())
    + (ToBigEndian(i.reserved * 16 + i.construction, w.Method())
       + (i.reference
          + (ToBigEndian(i.base, w.base) + (ToBigEndian(|i.extents|, 2) + SerialiseExtents(i.extents, w)))))
  }

  function SerialiseItems(items: seq<IlocItem>, w: Widths): Bytes {
    if items == [] then [] else SerialiseItem(items[0], w) + SerialiseItems(items[1..], w)
  }

  function ExtentsOf(extents: seq<IlocExtent>): seq<Extent> {
    seq(|extents|, i requires 0 <= i < |extents| => Extent(extents[i].offset, extents[i].length))
  }

  /** What the table says about an item: the location in its first entry. */
  function FirstItem(items: seq<IlocItem>, target: nat): Option<Location> {
    if items == [] then None
    else if items[0].item == target then
      Some(Location(items[0].construction, items[0].base, ExtentsOf(items[0].extents)))
    else FirstItem(items[1..], target)
  }

  lemma ExtentOfSerialised(data: Bytes, pos: nat, e: IlocExtent, w: Widths)
    requires w.offset <= 8 && w.length <= 8 && w.index <= 8 && ExtentEncodable(e, w)
    requires At(data, pos, SerialiseExtent(e, w))
    ensures ExtentAt(data, pos, w) == Some(Extent(e.offset, e.length))
  {
    hide At, UintAt;
    var index, offset, length :=
      ToBigEndian(e.index, w.ExtentIndex()), ToBigEndian(e.offset, w.offset), ToBigEndian(e.length, w.length);
    AtSplit(data, pos, index, offset + length);
    AtSplit(data, pos + |index|, offset, length);
    UintAtWritten(data, pos, e.index, w.ExtentIndex());
    UintAtWritten(data, pos + |index|, e.offset, w.offset);
    UintAtWritten(data, pos + |index| + |offset|, e.length, w.length);
  }

  lemma {:induction false} ExtentsOfSerialised(data: Bytes, pos: nat, extents: seq<IlocExtent>, w: Widths)
    requires w.offset <= 8 && w.length <= 8 && w.index <= 8
    requires forall e <- extents :: ExtentEncodable(e, w)
    requires At(data, pos, SerialiseExtents(extents, w))
    ensures ExtentsAt(data, pos, |extents|, w) == Some(ExtentsOf(extents))
    ensures |SerialiseExtents(extents, w)| == ExtentsLength(|extents|, w)
    decreases |extents|
  {
    hide At, ExtentAt;
    if extents != [] {
      var e, others := extents[0], extents[1..];
      assert ExtentEncodable(e, w);
      AtSplit(data, pos, SerialiseExtent(e, w), SerialiseExtents(others, w));
      ExtentOfSerialised(data, pos, e, w);
      ExtentsOfSerialised(data, pos + w.ExtentTotal(), others, w);
      ExtentTotals(|extents|, w.ExtentTotal());
      assert ExtentsOf(extents) == [Extent(e.offset, e.length)] + ExtentsOf(others);
    }
  }

  lemma ExtentTotals(count: nat, total: nat)
    requires count > 0
    ensures count * total == total + (count - 1) * total
  {
  }

  lemma RawFits(i: IlocItem, w: Widths)
    requires ItemEncodable(i, w)
    ensures i.reserved * 16 + i.construction < Capacity(w.Method())
  {
    Capacities();
  }

  /** The parts of a serialised entry, each at its own position. */
  lemma ItemParts(data: Bytes, pos: nat, i: IlocItem, w: Widths)
    requires |i.reference| == 2 && At(data, pos, SerialiseItem(i, w))
    ensures var raw := i.reserved * 16 + i.construction;
            var r := pos + w.Id() + w.Method();
            && At(data, pos, ToBigEndian(i.item, w.Id()))
            && At(data, pos + w.Id(), ToBigEndian(raw, w.Method()))
            && At(data, r, i.reference)
            && At(data, r + 2, ToBigEndian(i.base, w.base))
            && At(data, r + 2 + w.base, ToBigEndian(|i.extents|, 2))
            && At(data, r + 4 + w.base, SerialiseExtents(i.extents, w))
            && |SerialiseItem(i, w)| == w.Id() + w.Method() + 4 + w.base + |SerialiseExtents(i.extents, w)|
  {
    hide At, SerialiseExtents, ToBigEndian;
    var raw := i.reserved * 16 + i.construction;
    var r := pos + w.Id() + w.Method();
    var extents := SerialiseExtents(i.extents, w);
    var fromCount := ToBigEndian(|i.extents|, 2) + extents;
    var fromBase := ToBigEndian(i.base, w.base) + fromCount;
    var fromReference := i.reference + fromBase;
    var fromMethod := ToBigEndian(raw, w.Method()) + fromReference;
    AtSplit(data, pos, ToBigEndian(i.item, w.Id()), fromMethod);
    AtSplit(data, pos + w.Id(), ToBigEndian(raw, w.Method()), fromReference);
    AtSplit(data, r, i.reference, fromBase);
    AtSplit(data, r + 2, ToBigEndian(i.base, w.base), fromCount);
    AtSplit(data, r + 2 + w.base, ToBigEndian(|i.extents|, 2), extents);
  }

  lemma ItemOfSerialised(data: Bytes, pos: nat, i: IlocItem, w: Widths)
    requires w.offset <= 8 && w.length <= 8 && w.base <= 8 && w.index <= 8 && ItemEncodable(i, w)
    requires At(data, pos, SerialiseItem(i, w))
    ensures ItemAt(data, pos, w)
         == Some(LocatedItem(i.item, Location(i.construction, i.base, ExtentsOf(i.extents)),
                             pos + |SerialiseItem(i, w)|))
  {
    hide At, UintAt, BytesAt, ExtentsAt, ExtentsOf, SerialiseItem, SerialiseExtents, ToBigEndian, Capacity;
    var raw := i.reserved * 16 + i.construction;
    var r := pos + w.Id() + w.Method();
    ItemParts(data, pos, i, w);
    Capacities();
    RawFits(i, w);
    UintAtWritten(data, pos, i.item, w.Id());
    UintAtWritten(data, pos + w.Id(), raw, w.Method());
    AtIsBytesAt(data, r, i.reference);
    UintAtWritten(data, r + 2, i.base, w.base);
    UintAtWritten(data, r + 2 + w.base, |i.extents|, 2);
    ExtentsOfSerialised(data, r + 4 + w.base, i.extents, w);
    assert raw % 16 == i.construction;
    hide Widths.Id, Widths.Method, Widths.HasMethod, Widths.ExtentTotal, Widths.ExtentIndex, ItemEncodable;
    hide ExtentsLength;
  }

  lemma AtIsBytesAt(data: Bytes, pos: nat, bytes: Bytes)
    requires At(data, pos, bytes)
    ensures BytesAt(data, pos, |bytes|) == Some(bytes)
  {
  }

  lemma {:induction false} LocationScanOfSerialised(data: Bytes, pos: nat, items: seq<IlocItem>, w: Widths, target: nat)
    requires w.offset <= 8 && w.length <= 8 && w.base <= 8 && w.index <= 8
    requires forall i <- items :: ItemEncodable(i, w)
    requires At(data, pos, SerialiseItems(items, w))
    ensures LocationScan(data, pos, |items|, w, target) == FirstItem(items, target)
    decreases |items|
  {
    hide At, ItemAt, SerialiseItem, ItemEncodable;
    if items != [] {
      var i, others := items[0], items[1..];
      assert ItemEncodable(i, w);
      AtSplit(data, pos, SerialiseItem(i, w), SerialiseItems(others, w));
      ItemOfSerialised(data, pos, i, w);
      LocationScanOfSerialised(data, pos + |SerialiseItem(i, w)|, others, w, target);
    }
  }

  /** The location reader finds exactly the first entry of the item, for every declared width and version. */
  lemma LocationOfSerialised(t: Iloc, trailing: Bytes, target: nat)
    requires t.Encodable()
    ensures LocationOf(t.Serialise() + trailing, target) == FirstItem(t.items, target)
  {
    hide LocationScan, FirstItem, SerialiseItems, ItemEncodable;
    var data := t.Serialise() + trailing;
    var w := t.widths;
    Capacities();
    SingleByte(data, 0, w.version);
    assert data[1..4] == t.flags;
    SingleByte(data, 4, w.offset * 16 + w.length);
    SingleByte(data, 5, w.base * 16 + w.index);
    assert At(data, 6, ToBigEndian(|t.items|, w.Id()));
    UintAtWritten(data, 6, |t.items|, w.Id());
    assert At(data, 6 + w.Id(), SerialiseItems(t.items, w));
    LocationScanOfSerialised(data, 6 + w.Id(), t.items, w, target);
  }

  lemma SingleByte(data: Bytes, pos: nat, b: Byte)
    requires pos < |data| && data[pos] == b
    ensures UintAt(data, pos, 1) == Some(b)
  {
    assert data[pos..pos + 1] == [b];
    assert BigEndian([b]) == b;
  }
}

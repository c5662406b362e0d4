/**
 Small containers that are well-formed, so that the round trips of the AVIF reader are about something: one
 quarter turn on the primary item, and four bytes behind `meta` that an item of some type points to.
 */
module AvifSmallTree {
  import opened Common
  import opened AvifBoxes
  import opened AvifTables
  import opened Orientation
  import opened AvifReader
  import opened AvifRoundTrip

  const TURN: PropertyPart := RotatePart(Short, 0, 1, [])
  const TABLE: Ipma := Ipma(0, [0, 0, 0], [IpmaEntry(1, [Association(true, 1)])])
  const LOCATIONS: Iloc := Iloc([0, 0, 0], Widths(0, 4, 4, 0, 0), [IlocItem(2, 0, 0, [0, 0], 0, [])])
  const PAYLOAD: Bytes := [0, 0, 0, 0] + TIFF_LITTLE

  function Item(kind: BoxType): Infe {
    Infe(false, [0, 0, 0], 2, [0, 0], kind, [])
  }

  /** The tree with one item of the type. */
  function Small(kind: BoxType): Tree {
    Tree(
      [], Short, [0, 0, 0, 0],
      [PitmChild(Short), IprpChild(Short), IinfChild(Short), IlocChild(Short)],
      Pitm(0, [0, 0, 0], 1),
      [IpcoPart(Short), IpmaPart(Short)], [TURN], TABLE,
      0, [0, 0, 0], 1, [InfeEntry(Short, Item(kind))],
      LOCATIONS, 0, false,
      [], [Chunk(0, PAYLOAD)], [], TIFF_LITTLE, [])
  }

  /** Boxes with little in them are small. */
  lemma {:induction false} BoxesAreSmall(boxes: seq<Box>, m: nat)
    requires forall b <- boxes :: |b.content| <= m
    ensures |SerialiseBoxes(boxes)| <= |boxes| * (m + 16)
    decreases |boxes|
  {
    hide SerialiseBox;
    if boxes != [] {
      SerialisedSize(boxes[0]);
      BoxesAreSmall(boxes[1..], m);
      ExtentTotals(|boxes|, m + 16);
    }
  }

  lemma TableIsSmall()
    ensures TABLE.Encodable() && |TABLE.Serialise()| <= 20
  {
    Capacities();
    hide ToBigEndian, Capacity;
    var e := TABLE.entries[0];
    assert e.associations[1..] == [] && TABLE.entries[1..] == [];
    assert |SerialiseAssociations(e.associations, false)| == 1;
  }

  lemma PropertiesAreSmall(kind: BoxType)
    ensures Shaped(Small(kind)) && WellFormedProperties(Small(kind))
    ensures |SerialiseBoxes(PropertyBoxes(Small(kind)))| <= 72
  {
    TableIsSmall();
    Capacities();
    BoxesAreSmall(ListBoxes([TURN]), 1);
    hide Ipma.Encodable, Ipma.Serialise, SerialiseBoxes, Capacity;
    var boxes := PropertyBoxes(Small(kind));
    BoxesAreSmall(boxes, 20);
    assert Small(kind).iprp[0].IpcoPart? && Small(kind).iprp[1].IpmaPart?;
  }

  lemma ItemsAreSmall(kind: BoxType)
    ensures WellFormedEntries(Small(kind)) && |IinfContent(Small(kind))| <= 60
    ensures DeclaredExif(Small(kind).entries) == if kind == EXIF then Some(2) else None
  {
    Capacities();
    hide ToBigEndian, Capacity, SerialiseBoxes;
    assert |Item(kind).Serialise()| == 12;
    BoxesAreSmall(EntryBoxes(Small(kind)), 12);
  }

  lemma LocationsAreSmall(kind: BoxType, position: nat)
    requires position < TWO_32
    ensures Shaped(Small(kind)) && PlacedIloc(Small(kind), position).Encodable()
    ensures |PlacedIloc(Small(kind), position).Serialise()| <= 40
  {
    Capacities();
    var placed := PlacedIloc(Small(kind), position);
    var chunks := Small(kind).chunks;
    assert chunks[..0] == [] && PlacedExtents([], position) == [] && Joined([]) == [];
    assert placed.items[0].extents == [IlocExtent(0, position, 8)];
    hide ToBigEndian, Capacity, PlacedExtents, SerialiseExtent;
    assert |SerialiseExtent(placed.items[0].extents[0], placed.widths)| == 8 by { ExtentSize(position); }
    assert placed.items[0].extents[1..] == [] && placed.items[1..] == [];
    assert |SerialiseExtents(placed.items[0].extents, placed.widths)| == 8;
    assert |SerialiseItem(placed.items[0], placed.widths)| <= 20;
    hide SerialiseItem;
    assert |SerialiseItems(placed.items, placed.widths)| <= 20;
  }

  lemma ExtentSize(position: nat)
    ensures |SerialiseExtent(IlocExtent(0, position, 8), LOCATIONS.widths)| == 8
  {
  }

  lemma PositionIsSmall(kind: BoxType)
    ensures Shaped(Small(kind)) && Position(Small(kind)) <= 400
    ensures forall b <- ChildBoxes(Small(kind), 0) + ChildBoxes(Small(kind), Position(Small(kind))) :: |b.content| <= 80
    ensures |MetaBox(Small(kind), Position(Small(kind))).content| <= 400
  {
    PropertiesAreSmall(kind);
    ItemsAreSmall(kind);
    LocationsAreSmall(kind, 0);
    hide Ipma.Encodable, Ipma.Serialise, SerialiseBoxes, Iloc.Serialise, PropertyBoxes, IinfContent, PlacedIloc,
         SerialiseBox, ToBigEndian, WellFormedProperties, WellFormedItems;
    BoxesAreSmall(ChildBoxes(Small(kind), 0), 80);
    SerialisedSize(MetaBox(Small(kind), 0));
    assert SerialiseBoxes([]) == [] by { NoBoxes(); }
    LocationsAreSmall(kind, Position(Small(kind)));
    BoxesAreSmall(ChildBoxes(Small(kind), Position(Small(kind))), 80);
  }

  lemma NoBoxes()
    ensures SerialiseBoxes([]) == []
  {
  }

  lemma PayloadIsRight(kind: BoxType)
    ensures WellFormedPayload(Small(kind)) && Joined(Small(kind).chunks) == PAYLOAD && |PAYLOAD| == 8
  {
    assert Small(kind).chunks[..0] == [] && Joined([]) == [];
    assert ToBigEndian(0, 4) == [0, 0, 0, 0];
    assert PAYLOAD == [0, 0, 0, 0] + [] + TIFF_LITTLE;
  }

  lemma TopIsRight(kind: BoxType)
    ensures Shaped(Small(kind)) && WellFormedTop(Small(kind)) && WithinBudget(Small(kind))
  {
    PositionIsSmall(kind);
    PayloadIsRight(kind);
    hide SerialiseBoxes, SerialiseBox, ChildBoxes, Position, Walk, Joined;
    var meta := MetaBox(Small(kind), Position(Small(kind)));
    assert [] + [meta] == [meta];
    BoxesAreSmall([meta], 400);
    assert Tail(Small(kind)) == PAYLOAD;
    BoxesTakeBytes(PAYLOAD, 8);
  }

  lemma ChildrenAreRight(kind: BoxType)
    ensures Shaped(Small(kind)) && WellFormedChildren(Small(kind))
  {
    PositionIsSmall(kind);
    hide Position, ChildBox;
    var boxes := ChildBoxes(Small(kind), Position(Small(kind)));
    forall i | 0 <= i < 4
      ensures boxes[i].form == Short && |boxes[i].content| <= 80
    {
      ChildIsShort(kind, i, Position(Small(kind)));
      assert boxes[i] in ChildBoxes(Small(kind), 0) + boxes;
    }
    assert Small(kind).children[0].PitmChild? && Small(kind).children[1].IprpChild?;
    assert Small(kind).children[2].IinfChild? && Small(kind).children[3].IlocChild?;
  }

  lemma ChildIsShort(kind: BoxType, i: nat, position: nat)
    requires i < 4
    ensures Shaped(Small(kind)) && ChildBox(Small(kind), Small(kind).children[i], position).form == Short
  {
  }

  /** With an EXIF item the round trip applies to it, and with any other the one for files without EXIF. */
  lemma SmallTreeIsWellFormed(kind: BoxType)
    ensures if kind == EXIF then WellFormed(Small(kind)) else WellFormedBare(Small(kind))
  {
    TopIsRight(kind);
    ChildrenAreRight(kind);
    PropertiesAreSmall(kind);
    ItemsAreSmall(kind);
    PositionIsSmall(kind);
    LocationsAreSmall(kind, Position(Small(kind)));
    PayloadIsRight(kind);
    hide WellFormedTop, CompleteChildren, HasTable, WellFormedProperties, WellFormedEntries, WellFormedPayload,
         WithinBudget, Position, PlacedIloc, Iloc.Encodable, DeclaredExif, SerialiseBoxes, IinfContent, Joined;
  }
}

/**
 The generic box layer of the AVIF metadata reader: the checked cursor, the three box-size encodings of
 section 4.2 of ISO/IEC 14496-12, and the box scan that shares one budget across a whole parse.

 Each reading method is proved against a function on (data, position); the serialiser `SerialiseBoxes`
 is the independent definition of the byte layout.
 */
module AvifBoxes {
  import opened Common

  const MAX_NESTING_DEPTH: nat := 8
  const MAX_BOXES_VISITED: nat := 4096

  /** A four-byte box type. */
  type BoxType = t: Bytes | |t| == 4 witness [0, 0, 0, 0]

  /** How a box header writes its size: 32 bits, the 64-bit extension, or "to the end of the data". */
  datatype Form = Short | Large | ToEnd

  datatype Box = Box(form: Form, kind: BoxType, content: Bytes)

  // ---------------------------------------------------------------------------------------------
  // Cursor
  // ---------------------------------------------------------------------------------------------

  /** The `n` bytes of `data` from `pos`, if there are that many. */
  function BytesAt(data: Bytes, pos: nat, n: nat): Option<Bytes> {
    if pos + n <= |data| then Some(data[pos..pos + n]) else None
  }

  /** The `width`-byte big-endian number at `pos`; width 0 reads nothing, more than 8 bytes is refused. */
  function UintAt(data: Bytes, pos: nat, width: nat): Option<nat> {
    if width == 0 then Some(0)
    else if width > 8 then None
    else
      var bs :- BytesAt(data, pos, width);
      Some(BigEndian(bs))
  }

  /** A checked cursor: a read moves `pos` only when it succeeds. */
  class Cursor {
    const data: Bytes
    var pos: nat

    ghost predicate Valid()
      reads this
    {
      pos <= |data| < TWO_64
    }

    constructor (data: Bytes)
      requires |data| < TWO_64
      ensures Valid() && this.data == data && pos == 0
    {
      this.data := data;
      pos := 0;
    }

    method Remainder() returns (rest: Bytes)
      requires Valid()
      ensures rest == data[pos..]
    {
      rest := data[pos..];
    }

    method ReadBytes(n: nat) returns (r: Option<Bytes>)
      requires Valid()
      modifies this
      ensures Valid()
      ensures r == BytesAt(data, old(pos), n)
      ensures pos == if r.Some? then old(pos) + n else old(pos)
    {
      var end := pos + n;
      if end >= TWO_64 || end > |data| {
        return None;
      }
      r := Some(data[pos..end]);
      pos := end;
    }

    /** Reads `n` bytes, 1 to 8 of them, as one big-endian number: `read_u8` to `read_u64`. */
    method ReadFixed(n: nat) returns (r: Option<nat>)
      requires Valid() && 1 <= n <= 8
      modifies this
      ensures Valid()
      ensures r == UintAt(data, old(pos), n)
      ensures pos == if r.Some? then old(pos) + n else old(pos)
      ensures r.Some? ==> r.value < Capacity(n)
    {
      var bytes := ReadBytes(n);
      if bytes.None? {
        return None;
      }
      BigEndianBound(bytes.value);
      r := Some(BigEndian(bytes.value));
    }

    /**
     Reads a number whose width is declared in the data. The fold shifts a 64-bit accumulator left by
     eight bits, dropping what leaves the top; no bit is ever dropped, because at most 8 bytes are read.
     */
    method ReadUint(size: nat) returns (r: Option<nat>)
      requires Valid()
      modifies this
      ensures Valid()
      ensures r == UintAt(data, old(pos), size)
      ensures pos == if r.Some? then old(pos) + size else old(pos)
      ensures r.Some? ==> r.value < Capacity(size) <= TWO_64
    {
      Capacities();
      if size == 0 {
        return Some(0);
      }
      if size > 8 {
        return None;
      }
      var bytes := ReadBytes(size);
      if bytes.None? {
        return None;
      }
      var bs := bytes.value;
      var acc: nat := 0;
      for i := 0 to |bs|
        modifies {}
        invariant acc == BigEndian(bs[..i]) < TWO_64
      {
        BigEndianBound(bs[..i]);
        CapacityMonotone(i, 7);
        assert bs[..i + 1][..i] == bs[..i];
        assert Capacity(8) == 256 * Capacity(7);
        acc := (acc * 256) % TWO_64 + bs[i];
      }
      assert bs[..|bs|] == bs;
      BigEndianBound(bs);
      CapacityMonotone(size, 8);
      r := Some(acc);
    }
  }

  // ---------------------------------------------------------------------------------------------
  // Box headers and the box scan
  // ---------------------------------------------------------------------------------------------

  datatype Header = Header(kind: BoxType, headerLen: nat, total: nat)

  function ReadBoxHeader(data: Bytes): (h: Option<Header>)
    ensures h.Some? ==> 8 <= h.value.headerLen <= h.value.total <= |data|
  {
    var size32 :- UintAt(data, 0, 4);
    var kind :- BytesAt(data, 4, 4);
    var sizes: (nat, nat) :- (
      if size32 == 1 then
        var largesize :- UintAt(data, 8, 8);
        Some((16, largesize))
      else if size32 == 0 then Some((8, |data|))
      else Some((8, size32)));
    if sizes.1 < sizes.0 || sizes.1 > |data| then None
    else Some(Header(kind, sizes.0, sizes.1))
  }

  /** Which encoding the header at the start of `data` uses. */
  function FormOf(data: Bytes): Form {
    match UintAt(data, 0, 4)
    case Some(0) => ToEnd
    case Some(1) => Large
    case _ => Short
  }

  /** What one scan visited, what is left of the budget, and the data it did not get to. */
  datatype Scan = Scan(boxes: seq<Box>, budget: nat, rest: Bytes)

  /** The boxes a scan of `data` visits, in order. */
  function Walk(data: Bytes, budget: nat): Scan {
    if data == [] || budget == 0 then Scan([], budget, data)
    else
      match ReadBoxHeader(data)
      case None => Scan([], budget, data)
      case Some(h) =>
        var tail := Walk(data[h.total..], budget - 1);
        tail.(boxes := [Box(FormOf(data), h.kind, data[h.headerLen..h.total])] + tail.boxes)
  }

  /** The scan at a nesting depth: too deep visits nothing. */
  function WalkAt(data: Bytes, depth: nat, budget: nat): Scan {
    if depth > MAX_NESTING_DEPTH then Scan([], budget, data) else Walk(data, budget)
  }

  /** The scan loop; `visited` is the sequence of calls the caller's closure receives. */
  method WalkBoxes(data: Bytes, depth: nat, budget: nat) returns (visited: seq<Box>, left: nat)
    ensures visited == WalkAt(data, depth, budget).boxes
    ensures left == WalkAt(data, depth, budget).budget
    ensures |visited| + left == budget
  {
    hide ReadBoxHeader, FormOf;
    visited, left := [], budget;
    if depth > MAX_NESTING_DEPTH {
      return;
    }
    var rest := data;
    while rest != []
      invariant |visited| + left == budget
      invariant Walk(data, budget).boxes == visited + Walk(rest, left).boxes
      invariant Walk(data, budget).budget == Walk(rest, left).budget
      decreases |rest|
    {
      if left == 0 {
        return;
      }
      var header := ReadBoxHeader(rest);
      if header.None? {
        return;
      }
      var h := header.value;
      left := left - 1;
      visited := visited + [Box(FormOf(rest), h.kind, rest[h.headerLen..h.total])];
      rest := rest[h.total..];
    }
  }

  /** The content of the first box of a type. */
  function FirstOf(boxes: seq<Box>, kind: BoxType): Option<Bytes> {
    if boxes == [] then None
    else if boxes[0].kind == kind then Some(boxes[0].content)
    else FirstOf(boxes[1..], kind)
  }

  /** Scans a container for the first box of a type, keeping only the first content the closure sees. */
  method FindFirstBox(data: Bytes, depth: nat, budget: nat, target: BoxType)
    returns (found: Option<Bytes>, left: nat)
    ensures found == FirstOf(WalkAt(data, depth, budget).boxes, target)
    ensures left == WalkAt(data, depth, budget).budget
  {
    var visited;
    visited, left := WalkBoxes(data, depth, budget);
    found := None;
    for i := 0 to |visited|
      invariant FirstOf(visited, target) == if found.Some? then found else FirstOf(visited[i..], target)
    {
      if found.None? && visited[i].kind == target {
        found := Some(visited[i].content);
      }
    }
  }

  // ---------------------------------------------------------------------------------------------
  // The byte layout, written down independently of the reader
  // ---------------------------------------------------------------------------------------------

  function SerialiseBox(b: Box): Bytes {
    match b.form
    case Short => ToBigEndian(8 + |b.content|, 4) + b.kind + b.content
    case Large => ToBigEndian(1, 4) + b.kind + ToBigEndian(16 + |b.content|, 8) + b.content
    case ToEnd => ToBigEndian(0, 4) + b.kind + b.content
  }

  function SerialiseBoxes(boxes: seq<Box>): Bytes {
    if boxes == [] then [] else SerialiseBox(boxes[0]) + SerialiseBoxes(boxes[1..])
  }

  /** The size of the box fits the size field of its form. */
  predicate Encodable(b: Box) {
    match b.form
    case Short => 8 + |b.content| < TWO_32
    case Large => 16 + |b.content| < TWO_64
    case ToEnd => true
  }

  /** Boxes that other data may follow: each fits its form, and none claims the rest of the data. */
  predicate Bounded(boxes: seq<Box>) {
    forall b <- boxes :: Encodable(b) && !b.form.ToEnd?
  }

  /** A complete container: only the last box may claim the rest of the data. */
  predicate Complete(boxes: seq<Box>) {
    boxes != [] ==> Bounded(boxes[..|boxes| - 1]) && Encodable(boxes[|boxes| - 1])
  }

  lemma SerialisedSize(b: Box)
    ensures |SerialiseBox(b)| == |b.content| + (if b.form.Large? then 16 else 8)
  {
  }

  /** Reading the header of a serialised box finds its type, form and exact extent. */
  lemma HeaderOfSerialised(b: Box, tail: Bytes)
    requires Encodable(b) && (b.form.ToEnd? ==> tail == [])
    ensures ReadBoxHeader(SerialiseBox(b) + tail)
         == Some(Header(b.kind, |SerialiseBox(b)| - |b.content|, |SerialiseBox(b)|))
    ensures FormOf(SerialiseBox(b) + tail) == b.form
    ensures (SerialiseBox(b) + tail)[|SerialiseBox(b)| - |b.content|..|SerialiseBox(b)|] == b.content
    ensures (SerialiseBox(b) + tail)[|SerialiseBox(b)|..] == tail
  {
    Capacities();
    var size32 := if b.form.Short? then 8 + |b.content| else if b.form.Large? then 1 else 0;
    var size := ToBigEndian(size32, 4);
    var large: Bytes := if b.form.Large? then ToBigEndian(16 + |b.content|, 8) else [];
    assert SerialiseBox(b) == size + b.kind + large + b.content by {
      assert size + b.kind + [] == size + b.kind;
    }
    LayoutSlices(size, b.kind, large, b.content, tail);
    BigEndianOfWritten(size32, 4);
    if b.form.Large? {
      BigEndianOfWritten(16 + |b.content|, 8);
    }
    hide SerialiseBox, ToBigEndian, BigEndian, Capacity;
  }

  lemma LayoutSlices(size: Bytes, kind: Bytes, large: Bytes, content: Bytes, tail: Bytes)
    requires |size| == 4 && |kind| == 4
    ensures var data, n := size + kind + large + content + tail, 8 + |large|;
            && data[0..4] == size && data[4..8] == kind && data[8..n] == large
            && data[n..n + |content|] == content && data[n + |content|..] == tail
  {
  }

  /** A header that reads is the serialisation of the box it describes. */
  lemma SerialisedOfHeader(data: Bytes)
    requires ReadBoxHeader(data).Some?
    ensures var h := ReadBoxHeader(data).value;
            var b := Box(FormOf(data), h.kind, data[h.headerLen..h.total]);
            SerialiseBox(b) == data[..h.total] && Encodable(b) && (b.form.ToEnd? ==> h.total == |data|)
  {
    Capacities();
    var h := ReadBoxHeader(data).value;
    WrittenOfBigEndian(data[0..4]);
    BigEndianBound(data[0..4]);
    if FormOf(data).Large? {
      WrittenOfBigEndian(data[8..16]);
      BigEndianBound(data[8..16]);
    }
    SlicesJoin(data, h.headerLen, h.total);
    hide ToBigEndian, BigEndian, Capacity;
  }

  lemma SlicesJoin(data: Bytes, n: nat, total: nat)
    requires 8 <= n <= total <= |data|
    ensures data[0..4] + data[4..8] + data[8..n] + data[n..total] == data[..total]
    ensures n == 8 ==> data[0..4] + data[4..8] + data[n..total] == data[..total]
  {
  }

  /**
   Whatever the data, the visited boxes tile a prefix of it: serialised again, in order, they are that
   prefix byte for byte.
   */
  lemma {:induction false} WalkTilesPrefix(data: Bytes, budget: nat)
    ensures SerialiseBoxes(Walk(data, budget).boxes) + Walk(data, budget).rest == data
    decreases |data|
  {
    hide ReadBoxHeader, FormOf, SerialiseBox;
    if data != [] && budget != 0 && ReadBoxHeader(data).Some? {
      var h := ReadBoxHeader(data).value;
      var first, after := data[..h.total], data[h.total..];
      SerialisedOfHeader(data);
      WalkTilesPrefix(after, budget - 1);
      var tail := Walk(after, budget - 1);
      var boxes := Walk(data, budget).boxes;
      assert boxes[1..] == tail.boxes && SerialiseBox(boxes[0]) == first;
      ConcatAssociative(first, SerialiseBoxes(tail.boxes), tail.rest);
      assert first + after == data;
    }
  }

  /** Every visited box costs one unit of budget, and only the last may claim the rest of the data. */
  lemma {:induction false} WalkSpendsBudget(data: Bytes, budget: nat)
    ensures |Walk(data, budget).boxes| + Walk(data, budget).budget == budget
    ensures Complete(Walk(data, budget).boxes)
    decreases |data|
  {
    hide ReadBoxHeader, FormOf, SerialiseBox;
    if data != [] && budget != 0 && ReadBoxHeader(data).Some? {
      var h := ReadBoxHeader(data).value;
      var after := data[h.total..];
      SerialisedOfHeader(data);
      WalkSpendsBudget(after, budget - 1);
      var boxes, tail := Walk(data, budget).boxes, Walk(after, budget - 1).boxes;
      assert boxes == [boxes[0]] + tail;
      if tail != [] {
        assert boxes[..|boxes| - 1] == [boxes[0]] + tail[..|tail| - 1];
      }
    }
  }

  /** Scanning serialised boxes followed by anything visits exactly those boxes, then goes on. */
  lemma {:induction false} WalkOfSerialised(boxes: seq<Box>, tail: Bytes, budget: nat)
    requires Bounded(boxes) && |boxes| <= budget
    ensures var after := Walk(tail, budget - |boxes|);
            Walk(SerialiseBoxes(boxes) + tail, budget) == after.(boxes := boxes + after.boxes)
  {
    hide ReadBoxHeader, FormOf, SerialiseBox;
    if boxes == [] {
      assert SerialiseBoxes(boxes) + tail == tail;
      assert boxes + Walk(tail, budget).boxes == Walk(tail, budget).boxes;
    } else {
      var first, others := boxes[0], boxes[1..];
      var rest := SerialiseBoxes(others) + tail;
      ConcatAssociative(SerialiseBox(first), SerialiseBoxes(others), tail);
      var data := SerialiseBox(first) + rest;
      assert SerialiseBoxes(boxes) + tail == data;
      HeaderOfSerialised(first, rest);
      SerialisedSize(first);
      WalkOfSerialised(others, tail, budget - 1);
      var after := Walk(tail, budget - |boxes|);
      assert [first] + (others + after.boxes) == boxes + after.boxes;
    }
  }

  /** A serialised container is read back exactly, whichever form each header uses. */
  lemma WalkOfContainer(boxes: seq<Box>, budget: nat)
    requires Complete(boxes) && |boxes| <= budget
    ensures Walk(SerialiseBoxes(boxes), budget) == Scan(boxes, budget - |boxes|, [])
  {
    if boxes == [] {
    } else {
      var front, last := boxes[..|boxes| - 1], boxes[|boxes| - 1];
      var tail := SerialiseBox(last);
      assert boxes == front + [last];
      SerialiseSplit(front, [last]);
      assert SerialiseBoxes([last]) == tail + [];
      HeaderOfSerialised(last, []);
      SerialisedSize(last);
      assert tail + [] == tail;
      WalkOfSerialised(front, tail, budget);
    }
  }

  lemma {:induction false} SerialiseSplit(a: seq<Box>, b: seq<Box>)
    ensures SerialiseBoxes(a + b) == SerialiseBoxes(a) + SerialiseBoxes(b)
  {
    if a == [] {
      assert a + b == b;
    } else {
      var others, ab := a[1..], a + b;
      assert ab[1..] == others + b && ab[0] == a[0];
      SerialiseSplit(others, b);
      ConcatAssociative(SerialiseBox(a[0]), SerialiseBoxes(others), SerialiseBoxes(b));
    }
  }

  /** A box takes at least eight bytes, so a budget of one per byte is never the limit of a scan. */
  function BoxCount(data: Bytes): nat {
    |Walk(data, |data|).boxes|
  }

  lemma {:induction false} WalkWithinBudget(data: Bytes, budget: nat, larger: nat)
    requires |Walk(data, larger).boxes| <= budget <= larger
    requires |data| <= larger
    ensures Walk(data, budget).boxes == Walk(data, larger).boxes
    ensures Walk(data, budget).budget == budget - |Walk(data, larger).boxes|
    decreases |data|
  {
    hide ReadBoxHeader, FormOf;
    if data != [] && larger != 0 && ReadBoxHeader(data).Some? {
      var h := ReadBoxHeader(data).value;
      WalkWithinBudget(data[h.total..], budget - 1, larger - 1);
    }
  }
}

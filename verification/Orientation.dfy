/**
 Orientation of an image: the dihedral-group steps that compose `irot` and `imir` properties, the eight
 orientations they resolve to, and what each of them does to a grid of pixels.
 */
module Orientation {
  import opened Common

  // ---------------------------------------------------------------------------------------------
  // Pixel grids
  // ---------------------------------------------------------------------------------------------

  datatype Grid<T> = Grid(width: nat, height: nat, rows: seq<seq<T>>) {
    predicate Valid() {
      |rows| == height && forall y | 0 <= y < height :: |rows[y]| == width
    }

    function Pixel(x: nat, y: nat): T
      requires Valid() && x < width && y < height
    {
      rows[y][x]
    }
  }

  /** The image whose pixel at (x, y) is `pixel(x, y)`. */
  function Build<T>(width: nat, height: nat, pixel: (int, int) --> T): (g: Grid<T>)
    requires forall x, y | 0 <= x < width && 0 <= y < height :: pixel.requires(x, y)
    ensures g.Valid() && g.width == width && g.height == height
    ensures forall x, y | 0 <= x < width && 0 <= y < height :: g.Pixel(x, y) == pixel(x, y)
  {
    Grid(width, height,
      seq(height, y requires 0 <= y < height => seq(width, x requires 0 <= x < width => pixel(x, y))))
  }

  lemma SamePixels<T>(a: Grid<T>, b: Grid<T>)
    requires a.Valid() && b.Valid() && a.width == b.width && a.height == b.height
    requires forall x, y | 0 <= x < a.width && 0 <= y < a.height :: a.Pixel(x, y) == b.Pixel(x, y)
    ensures a == b
  {
    forall y | 0 <= y < a.height
      ensures a.rows[y] == b.rows[y]
    {
      forall x | 0 <= x < a.width
        ensures a.rows[y][x] == b.rows[y][x]
      {
        assert a.Pixel(x, y) == b.Pixel(x, y);
      }
    }
    assert a.rows == b.rows;
  }

  /** A quarter turn clockwise. */
  function Rotate90<T>(g: Grid<T>): (r: Grid<T>)
    requires g.Valid()
    ensures r.Valid() && r.width == g.height && r.height == g.width
    ensures forall x, y | 0 <= x < r.width && 0 <= y < r.height :: r.Pixel(x, y) == g.Pixel(y, g.height - 1 - x)
  {
    Build(g.height, g.width, (x, y) requires 0 <= x < g.height && 0 <= y < g.width => g.Pixel(y, g.height - 1 - x))
  }

  function Rotate180<T>(g: Grid<T>): (r: Grid<T>)
    requires g.Valid()
    ensures r.Valid() && r.width == g.width && r.height == g.height
    ensures forall x, y | 0 <= x < r.width && 0 <= y < r.height ::
      r.Pixel(x, y) == g.Pixel(g.width - 1 - x, g.height - 1 - y)
  {
    Build(g.width, g.height,
      (x, y) requires 0 <= x < g.width && 0 <= y < g.height => g.Pixel(g.width - 1 - x, g.height - 1 - y))
  }

  /** Three quarter turns clockwise, that is, one counter-clockwise. */
  function Rotate270<T>(g: Grid<T>): (r: Grid<T>)
    requires g.Valid()
    ensures r.Valid() && r.width == g.height && r.height == g.width
    ensures forall x, y | 0 <= x < r.width && 0 <= y < r.height :: r.Pixel(x, y) == g.Pixel(g.width - 1 - y, x)
  {
    Build(g.height, g.width, (x, y) requires 0 <= x < g.height && 0 <= y < g.width => g.Pixel(g.width - 1 - y, x))
  }

  function FlipH<T>(g: Grid<T>): (r: Grid<T>)
    requires g.Valid()
    ensures r.Valid() && r.width == g.width && r.height == g.height
    ensures forall x, y | 0 <= x < r.width && 0 <= y < r.height :: r.Pixel(x, y) == g.Pixel(g.width - 1 - x, y)
  {
    Build(g.width, g.height, (x, y) requires 0 <= x < g.width && 0 <= y < g.height => g.Pixel(g.width - 1 - x, y))
  }

  function FlipV<T>(g: Grid<T>): (r: Grid<T>)
    requires g.Valid()
    ensures r.Valid() && r.width == g.width && r.height == g.height
    ensures forall x, y | 0 <= x < r.width && 0 <= y < r.height :: r.Pixel(x, y) == g.Pixel(x, g.height - 1 - y)
  {
    Build(g.width, g.height, (x, y) requires 0 <= x < g.width && 0 <= y < g.height => g.Pixel(x, g.height - 1 - y))
  }

  // ---------------------------------------------------------------------------------------------
  // Properties, transforms and orientations
  // ---------------------------------------------------------------------------------------------

  /** An `irot` (quarter turns counter-clockwise, 0 to 3) or an `imir` (mirror axis, 0 or 1). */
  datatype Property = Rotate(steps: nat) | Mirror(axis: nat) {
    predicate Valid() {
      match this
      case Rotate(steps) => steps < 4
      case Mirror(axis) => axis < 2
    }
  }

  /**
   A step of the dihedral group of the square, on points of the complex plane: `Rotation(a)` multiplies
   by i to the power a, `Reflection(c)` conjugates first.
   */
  datatype Transform = Rotation(quarters: nat) | Reflection(quarters: nat) {
    predicate Valid() {
      quarters < 4
    }

    /** This transform, then `op`. */
    function Then(op: Transform): Transform {
      match (this, op)
      case (Rotation(a), Rotation(b)) => Rotation((a + b) % 4)
      case (Rotation(a), Reflection(c)) => Reflection((c + 4 - a % 4) % 4)
      case (Reflection(c), Rotation(b)) => Reflection((c + b) % 4)
      case (Reflection(c1), Reflection(c2)) => Rotation((c2 + 4 - c1 % 4) % 4)
    }

    function IntoOrientation(): Orientation {
      match this
      case Rotation(0) => NoTransforms
      case Rotation(1) => ByRotate270
      case Rotation(2) => ByRotate180
      case Rotation(3) => ByRotate90
      case Reflection(0) => FlipVertical
      case Reflection(1) => ByRotate270FlipH
      case Reflection(2) => FlipHorizontal
      case Reflection(3) => ByRotate90FlipH
      case _ => NoTransforms
    }

    function Inverse(): Transform {
      match this
      case Rotation(a) => Rotation((4 - a % 4) % 4)
      case Reflection(c) => Reflection(c)
    }
  }

  const IDENTITY: Transform := Rotation(0)

  datatype Orientation =
    | NoTransforms
    | ByRotate90
    | ByRotate180
    | ByRotate270
    | FlipHorizontal
    | FlipVertical
    | ByRotate90FlipH
    | ByRotate270FlipH

  function StepOf(p: Property): Transform {
    match p
    case Rotate(steps) => Rotation(steps)
    case Mirror(axis) => Reflection(if axis == 0 then 2 else 0)
  }

  /** The transform of a whole property list, first property first. */
  function Compose(properties: seq<Property>): Transform {
    if properties == [] then IDENTITY
    else Compose(properties[..|properties| - 1]).Then(StepOf(properties[|properties| - 1]))
  }

  /** What applying an orientation does to the pixels. */
  function ApplyOrientation<T>(o: Orientation, g: Grid<T>): (r: Grid<T>)
    requires g.Valid()
    ensures r.Valid()
  {
    match o
    case NoTransforms => g
    case ByRotate90 => Rotate90(g)
    case ByRotate180 => Rotate180(g)
    case ByRotate270 => Rotate270(g)
    case FlipHorizontal => FlipH(g)
    case FlipVertical => FlipV(g)
    case ByRotate90FlipH => FlipH(Rotate90(g))
    case ByRotate270FlipH => FlipH(Rotate270(g))
  }

  /** `n` quarter turns counter-clockwise, one after the other. */
  function Turn<T>(n: nat, g: Grid<T>): (r: Grid<T>)
    requires g.Valid()
    ensures r.Valid()
  {
    if n == 0 then g else Rotate270(Turn(n - 1, g))
  }

  /** What one property means for the pixels, as sections 6.5.10 and 6.5.12 of ISO/IEC 23008-12 put it. */
  function ApplyProperty<T>(p: Property, g: Grid<T>): (r: Grid<T>)
    requires g.Valid()
    ensures r.Valid()
  {
    match p
    case Rotate(steps) => Turn(steps, g)
    case Mirror(axis) => if axis == 0 then FlipH(g) else FlipV(g)
  }

  function ApplyProperties<T>(properties: seq<Property>, g: Grid<T>): (r: Grid<T>)
    requires g.Valid()
    ensures r.Valid()
  {
    if properties == [] then g
    else ApplyProperty(properties[|properties| - 1], ApplyProperties(properties[..|properties| - 1], g))
  }

  // ---------------------------------------------------------------------------------------------
  // The group
  // ---------------------------------------------------------------------------------------------

  lemma SumModulo(x: int, y: int)
    ensures (x % 4 + y) % 4 == (x + y) % 4
  {
  }

  lemma DifferenceModulo(x: int, y: int)
    ensures (x - y % 4) % 4 == (x - y) % 4
  {
  }

  /** `then` as sums and differences of exponents modulo 4. */
  lemma ThenExponent(a: Transform, b: Transform)
    ensures a.Then(b).Rotation? <==> (a.Rotation? <==> b.Rotation?)
    ensures a.Then(b).quarters == (if b.Rotation? then b.quarters + a.quarters else b.quarters - a.quarters) % 4
  {
    if b.Reflection? {
      DifferenceModulo(b.quarters + 4, a.quarters);
    }
  }

  lemma ThenAssociative(a: Transform, b: Transform, c: Transform)
    ensures a.Then(b).Then(c) == a.Then(b.Then(c))
  {
    ThenExponent(a, b);
    ThenExponent(b, c);
    ThenExponent(a.Then(b), c);
    ThenExponent(a, b.Then(c));
    hide Transform.Then;
    var x: int, y: int, z: int := a.quarters, b.quarters, c.quarters;
    if b.Rotation? && c.Rotation? {
      RegroupSum(x, y, z);
    } else if c.Rotation? {
      RegroupSum(-x, y, z);
    } else if b.Rotation? {
      RegroupDifference(x, y, z);
    } else {
      RegroupDifference(-x, y, z);
    }
  }

  lemma RegroupSum(x: int, y: int, z: int)
    ensures ((y + x) % 4 + z) % 4 == ((z + y) % 4 + x) % 4
  {
    SumModulo(y + x, z);
    SumModulo(z + y, x);
  }

  lemma RegroupDifference(x: int, y: int, z: int)
    ensures (z - (y + x) % 4) % 4 == ((z - y) % 4 - x) % 4
  {
    DifferenceModulo(z, y + x);
    SumModulo(z - y, -x);
  }

  /** `then` makes the eight transforms a group. */
  lemma ThenIsAGroup(a: Transform, b: Transform, c: Transform)
    requires a.Valid() && b.Valid() && c.Valid()
    ensures a.Then(b).Valid() && a.Inverse().Valid()
    ensures a.Then(b).Then(c) == a.Then(b.Then(c))
    ensures IDENTITY.Then(a) == a == a.Then(IDENTITY)
    ensures a.Then(a.Inverse()) == IDENTITY == a.Inverse().Then(a)
  {
    hide Transform.Then;
    ThenAssociative(a, b, c);
    ThenIdentity(a);
    ThenExponent(a, b);
  }

  lemma ThenIdentity(a: Transform)
    requires a.Valid()
    ensures IDENTITY.Then(a) == a == a.Then(IDENTITY)
    ensures a.Then(a.Inverse()) == IDENTITY == a.Inverse().Then(a)
  {
    var q := a.quarters;
    ThenExponent(IDENTITY, a);
    ThenExponent(a, IDENTITY);
    ThenExponent(a, a.Inverse());
    ThenExponent(a.Inverse(), a);
    hide Transform.Then;
    assert q % 4 == q;
    assert a.Rotation? ==> a.Inverse().quarters == if q == 0 then 0 else 4 - q;
  }

  lemma {:induction false} ComposeValid(properties: seq<Property>)
    requires forall p <- properties :: p.Valid()
    ensures Compose(properties).Valid()
  {
    if properties != [] {
      assert properties[|properties| - 1].Valid();
      ComposeValid(properties[..|properties| - 1]);
    }
  }

  /** The action of a transform on pixels: a reflection flips top to bottom, then turns. */
  function Act<T>(t: Transform, g: Grid<T>): (r: Grid<T>)
    requires g.Valid()
    ensures r.Valid()
  {
    match t
    case Rotation(a) => Turn(a, g)
    case Reflection(c) => Turn(c, FlipV(g))
  }

  lemma FourTurns<T>(g: Grid<T>)
    requires g.Valid()
    ensures Rotate270(Rotate270(Rotate270(Rotate270(g)))) == g
  {
    hide Build, Rotate270;
    var one := Rotate270(g);
    var two := Rotate270(one);
    var three := Rotate270(two);
    SamePixels(Rotate270(three), g);
  }

  lemma {:induction false} TurnSum<T>(a: nat, b: nat, g: Grid<T>)
    requires g.Valid()
    ensures Turn(a, Turn(b, g)) == Turn(a + b, g)
  {
    hide Rotate270;
    if a > 0 {
      TurnSum(a - 1, b, g);
    }
  }

  lemma {:induction false} TurnModulo<T>(n: nat, g: Grid<T>)
    requires g.Valid()
    ensures Turn(n, g) == Turn(n % 4, g)
    decreases n
  {
    hide Build, Rotate270;
    if n >= 4 {
      assert Turn(n, g) == Rotate270(Rotate270(Turn(n - 2, g)));
      assert Turn(n - 2, g) == Rotate270(Rotate270(Turn(n - 4, g)));
      FourTurns(Turn(n - 4, g));
      TurnModulo(n - 4, g);
      assert (n - 4) % 4 == n % 4;
    }
  }

  /** Flipping after a quarter turn is turning three times after a flip. */
  lemma FlipTurn<T>(g: Grid<T>)
    requires g.Valid()
    ensures FlipV(Rotate270(g)) == Turn(3, FlipV(g))
  {
    hide Build, Rotate270, FlipV;
    var f := FlipV(g);
    var one := Rotate270(f);
    var two := Rotate270(one);
    var three := Rotate270(two);
    SamePixels(FlipV(Rotate270(g)), three);
    assert Turn(1, f) == one && Turn(2, f) == two && Turn(3, f) == three;
  }

  lemma {:induction false} FlipTurns<T>(n: nat, g: Grid<T>)
    requires g.Valid()
    ensures FlipV(Turn(n, g)) == Turn(3 * n, FlipV(g))
  {
    hide Build, Rotate270, FlipV;
    if n > 0 {
      FlipTurn(Turn(n - 1, g));
      FlipTurns(n - 1, g);
      TurnSum(3, 3 * (n - 1), FlipV(g));
    }
  }

  lemma FlipTwice<T>(g: Grid<T>)
    requires g.Valid()
    ensures FlipV(FlipV(g)) == g
  {
    hide Build, FlipV;
    SamePixels(FlipV(FlipV(g)), g);
  }

  /** Composition of transforms is composition of their actions. */
  lemma ActThen<T>(a: Transform, b: Transform, g: Grid<T>)
    requires a.Valid() && b.Valid() && g.Valid()
    ensures Act(a.Then(b), g) == Act(b, Act(a, g))
  {
    hide Turn, FlipV;
    var m, n := a.quarters, b.quarters;
    var inner := if a.Rotation? then g else FlipV(g);
    if b.Rotation? {
      TurnSum(n, m, inner);
      TurnModulo(n + m, inner);
    } else {
      FlipTurns(m, inner);
      FlipTwice(g);
      TurnSum(n, 3 * m, FlipV(inner));
      TurnModulo(n + 3 * m, FlipV(inner));
      assert (n + 3 * m) % 4 == (n + 4 - m % 4) % 4;
    }
  }

  lemma StepActs<T>(p: Property, g: Grid<T>)
    requires p.Valid() && g.Valid()
    ensures StepOf(p).Valid() && Act(StepOf(p), g) == ApplyProperty(p, g)
  {
    hide Build, Rotate270, FlipV, FlipH;
    if p.Mirror? && p.axis == 0 {
      var f := FlipV(g);
      var one := Rotate270(f);
      assert Turn(1, f) == one && Turn(2, f) == Rotate270(one);
      SamePixels(Rotate270(one), FlipH(g));
    }
  }

  /** The chosen orientation acts on pixels as the transform does. */
  lemma OrientationActs<T>(t: Transform, g: Grid<T>)
    requires t.Valid() && g.Valid()
    ensures ApplyOrientation(t.IntoOrientation(), g) == Act(t, g)
  {
    hide Build, Rotate270, Rotate180, Rotate90, FlipV, FlipH;
    var inner := if t.Rotation? then g else FlipV(g);
    var one := Rotate270(inner);
    var two := Rotate270(one);
    var three := Rotate270(two);
    assert Turn(0, inner) == inner && Turn(1, inner) == one && Turn(2, inner) == two && Turn(3, inner) == three;
    if t == Rotation(2) {
      SamePixels(Rotate180(g), two);
    } else if t == Rotation(3) {
      SamePixels(Rotate90(g), three);
    } else if t == Reflection(1) {
      SamePixels(FlipH(Rotate270(g)), one);
    } else if t == Reflection(2) {
      SamePixels(FlipH(g), two);
    } else if t == Reflection(3) {
      SamePixels(FlipH(Rotate90(g)), three);
    }
  }

  lemma {:induction false} ComposeActs<T>(properties: seq<Property>, g: Grid<T>)
    requires g.Valid() && forall p <- properties :: p.Valid()
    ensures Act(Compose(properties), g) == ApplyProperties(properties, g)
  {
    if properties != [] {
      var before, last := properties[..|properties| - 1], properties[|properties| - 1];
      assert last.Valid();
      ComposeActs(before, g);
      ComposeValid(before);
      StepActs(last, ApplyProperties(before, g));
      ActThen(Compose(before), StepOf(last), g);
    }
  }

  /**
   Applying a list of `irot` and `imir` properties one at a time to any image is applying the single
   orientation that the composed transform resolves to.
   */
  lemma OrientationOfProperties<T>(properties: seq<Property>, g: Grid<T>)
    requires g.Valid() && forall p <- properties :: p.Valid()
    ensures ApplyOrientation(Compose(properties).IntoOrientation(), g) == ApplyProperties(properties, g)
  {
    ComposeValid(properties);
    ComposeActs(properties, g);
    OrientationActs(Compose(properties), g);
  }

  /** The eight-element group is not a smaller one: different transforms give different orientations. */
  lemma IntoOrientationInjective(a: Transform, b: Transform)
    requires a.Valid() && b.Valid()
    ensures a.IntoOrientation() == b.IntoOrientation() <==> a == b
  {
  }

  // ---------------------------------------------------------------------------------------------
  // The oriented fixtures
  // ---------------------------------------------------------------------------------------------

  /** The orientation an EXIF code 1 to 8 stands for. */
  function FromExif(code: nat): Option<Orientation> {
    match code
    case 1 => Some(NoTransforms)
    case 2 => Some(FlipHorizontal)
    case 3 => Some(ByRotate180)
    case 4 => Some(FlipVertical)
    case 5 => Some(ByRotate90FlipH)
    case 6 => Some(ByRotate90)
    case 7 => Some(ByRotate270FlipH)
    case 8 => Some(ByRotate270)
    case _ => None
  }

  /** The pixels a fixture stores for an EXIF code; any other code is refused. */
  function Stored<T>(code: nat, canonical: Grid<T>): (r: Option<Grid<T>>)
    requires canonical.Valid()
    ensures r.Some? ==> r.value.Valid()
  {
    match code
    case 1 => Some(canonical)
    case 2 => Some(FlipH(canonical))
    case 3 => Some(Rotate180(canonical))
    case 4 => Some(FlipV(canonical))
    case 5 => Some(Rotate270(FlipH(canonical)))
    case 6 => Some(Rotate270(canonical))
    case 7 => Some(Rotate90(FlipH(canonical)))
    case 8 => Some(Rotate90(canonical))
    case _ => None
  }

  /** Orienting the stored pixels by their own code gives the canonical image back, for every code. */
  lemma StoredIsOriented<T>(code: nat, canonical: Grid<T>)
    requires canonical.Valid()
    ensures FromExif(code).Some? <==> 1 <= code <= 8
    ensures Stored(code, canonical).Some? <==> 1 <= code <= 8
    ensures FromExif(code).Some? ==>
              ApplyOrientation(FromExif(code).value, Stored(code, canonical).value) == canonical
  {
    hide Build, Rotate270, Rotate180, Rotate90, FlipV, FlipH;
    if 1 <= code <= 8 {
      var r := ApplyOrientation(FromExif(code).value, Stored(code, canonical).value);
      if code == 5 {
        var f := FlipH(canonical);
        SamePixels(Rotate90(Rotate270(f)), f);
        SamePixels(FlipH(f), canonical);
      } else if code == 7 {
        var f := FlipH(canonical);
        SamePixels(Rotate270(Rotate90(f)), f);
        SamePixels(FlipH(f), canonical);
      } else {
        SamePixels(r, canonical);
      }
    }
  }
}

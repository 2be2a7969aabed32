/** Board coordinates: grid positions, quarter-turn rotations, the locations of a
    tile and the feature pointers built from them. Every value here is immutable. */
module Board {

  /** A grid coordinate; x grows to the east and y grows to the south. */
  datatype Position = Position(x: int, y: int)

  const Origin := Position(0, 0)

  function Add(p: Position, q: Position): Position
  {
    Position(p.x + q.x, p.y + q.y)
  }

  function Negate(p: Position): Position
  {
    Position(-p.x, -p.y)
  }

  /** Taxicab distance from the origin; a quarter turn about the origin keeps it. */
  function Norm(p: Position): nat
  {
    (if p.x < 0 then -p.x else p.x) + (if p.y < 0 then -p.y else p.y)
  }

  /** Clockwise rotation of a tile by whole quarter turns. */
  datatype Rotation = R0 | R90 | R180 | R270

  function Quarters(r: Rotation): nat
  {
    match r
    case R0 => 0
    case R90 => 1
    case R180 => 2
    case R270 => 3
  }

  /** The rotation that undoes `r`. */
  function Inverse(r: Rotation): (i: Rotation)
    ensures (Quarters(r) + Quarters(i)) % 4 == 0
  {
    match r
    case R0 => R0
    case R90 => R270
    case R180 => R180
    case R270 => R90
  }

  /** Where a feature touches its tile: one of the four edges, listed clockwise, or the centre. */
  datatype Location = N | E | S | W | Center

  /** Clockwise index of an edge location: N is 0, E is 1, S is 2, W is 3. */
  function EdgeIndex(loc: Location): nat
    requires loc != Center
  {
    match loc
    case N => 0
    case E => 1
    case S => 2
    case W => 3
  }

  function EdgeAt(i: nat): Location
  {
    match i % 4
    case 0 => N
    case 1 => E
    case 2 => S
    case _ => W
  }

  /** An edge moves clockwise by the rotation's quarter turns; the centre stays put. */
  function RotateLocation(loc: Location, r: Rotation): (res: Location)
    ensures res == Center <==> loc == Center
    ensures loc != Center ==> EdgeIndex(res) == (EdgeIndex(loc) + Quarters(r)) % 4
  {
    if loc == Center then Center else EdgeAt(EdgeIndex(loc) + Quarters(r))
  }

  /** A quarter turn clockwise about the origin maps (x, y) to (-y, x) when y grows southwards. */
  function RotatePosition(p: Position, r: Rotation): Position
  {
    match r
    case R0 => p
    case R90 => Position(-p.y, p.x)
    case R180 => Position(-p.x, -p.y)
    case R270 => Position(p.y, -p.x)
  }

  /** A (position, location) coordinate identifying where a feature touches a tile. */
  datatype FeaturePointer = FeaturePointer(position: Position, location: Location)

  /** Turns the pointer clockwise about the origin: both its position and its location turn. */
  function RotateCW(fp: FeaturePointer, r: Rotation): (res: FeaturePointer)
    ensures r == R0 ==> res == fp
    ensures Norm(res.position) == Norm(fp.position)
    ensures (res.location == Center) == (fp.location == Center)
  {
    FeaturePointer(RotatePosition(fp.position, r), RotateLocation(fp.location, r))
  }

  /** Shifts the pointer by `offset`; the location on the tile does not change. */
  function Translate(fp: FeaturePointer, offset: Position): (res: FeaturePointer)
    ensures res.location == fp.location
    ensures offset == Origin ==> res == fp
  {
    FeaturePointer(Add(fp.position, offset), fp.location)
  }

  /** Turning by `r` and then by its inverse gives back the pointer. */
  lemma RotateInverse(fp: FeaturePointer, r: Rotation)
    ensures RotateCW(RotateCW(fp, r), Inverse(r)) == fp
  {
  }

  /** Shifting by `offset` and then by its negation gives back the pointer. */
  lemma TranslateInverse(fp: FeaturePointer, offset: Position)
    ensures Translate(Translate(fp, offset), Negate(offset)) == fp
  {
  }
}

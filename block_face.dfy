/** The six logical faces of a block cube, in their fixed declaration order. */
module BlockFaces {

  /** BlockFace: NORTH = -Z, SOUTH = +Z, BOTTOM = -Y, TOP = +Y, WEST = -X, EAST = +X. */
  datatype Face = North | South | Bottom | Top | West | East

  /** An integer direction vector. */
  datatype Vec = Vec(x: int, y: int, z: int)

  /** All faces in declaration (ordinal) order. */
  const ALL_FACES: seq<Face> := [North, South, Bottom, Top, West, East]

  /** BlockFace.ordinal(): the declaration position of a face. */
  function Ordinal(f: Face): (n: nat)
    ensures n < 6 && ALL_FACES[n] == f
  {
    match f
    case North => 0
    case South => 1
    case Bottom => 2
    case Top => 3
    case West => 4
    case East => 5
  }

  /** The face with ordinal n. */
  function FaceOf(n: nat): (f: Face)
    requires n < 6
    ensures Ordinal(f) == n
  {
    ALL_FACES[n]
  }

  /** Ordinals number the six faces 0..5 one-to-one. */
  lemma OrdinalBijective(f: Face, g: Face)
    ensures FaceOf(Ordinal(f)) == f
    ensures Ordinal(f) == Ordinal(g) ==> f == g
    ensures |ALL_FACES| == 6
    ensures forall i, j | 0 <= i < j < 6 :: ALL_FACES[i] != ALL_FACES[j]
  {
  }

  /** The outward unit direction of a face. */
  function Direction(f: Face): (d: Vec)
    ensures (if d.x != 0 then 1 else 0) + (if d.y != 0 then 1 else 0) + (if d.z != 0 then 1 else 0) == 1
    ensures -1 <= d.x <= 1 && -1 <= d.y <= 1 && -1 <= d.z <= 1
  {
    match f
    case North => Vec(0, 0, -1)
    case South => Vec(0, 0, 1)
    case Bottom => Vec(0, -1, 0)
    case Top => Vec(0, 1, 0)
    case West => Vec(-1, 0, 0)
    case East => Vec(1, 0, 0)
  }

  /** The face on the other side of the cube. */
  function Opposite(f: Face): (g: Face)
    ensures g != f
  {
    match f
    case North => South
    case South => North
    case Bottom => Top
    case Top => Bottom
    case West => East
    case East => West
  }

  /** Opposite faces pair up (opposite of opposite is the face itself) and point in
      exactly opposite directions. */
  lemma OppositeDirectionsCancel(f: Face)
    ensures Opposite(Opposite(f)) == f
    ensures Direction(f).x + Direction(Opposite(f)).x == 0
    ensures Direction(f).y + Direction(Opposite(f)).y == 0
    ensures Direction(f).z + Direction(Opposite(f)).z == 0
  {
  }

  /** No two faces share a direction. */
  lemma DirectionInjective(f: Face, g: Face)
    ensures Direction(f) == Direction(g) ==> f == g
  {
  }
}

/** Chunk geometry shared by Chunk, BlockSnapshot and World: the side length,
    the flat voxel index and the world-to-chunk coordinate split. */
module Coords {

  /** Chunk.SIZE: a chunk is a cube of SIZE voxels on each side. */
  const SIZE: int := 16

  /** Number of voxels in a chunk (SIZE³). */
  const VOLUME: int := 4096

  /** Whether (x, y, z) is a local voxel coordinate of a chunk. */
  predicate InChunk(x: int, y: int, z: int)
  {
    0 <= x < SIZE && 0 <= y < SIZE && 0 <= z < SIZE
  }

  /** Chunk.index: the flat position x + 16y + 256z of a local coordinate. */
  function Index(x: int, y: int, z: int): int
  {
    x + y * SIZE + z * SIZE * SIZE
  }

  /** Local coordinates fall inside the voxel array. */
  lemma IndexInRange(x: int, y: int, z: int)
    requires InChunk(x, y, z)
    ensures 0 <= Index(x, y, z) < VOLUME
  {
  }

  /** Distinct local coordinates have distinct flat positions. */
  lemma IndexInjective(x: int, y: int, z: int, x': int, y': int, z': int)
    requires InChunk(x, y, z) && InChunk(x', y', z')
    requires Index(x, y, z) == Index(x', y', z')
    ensures x == x' && y == y' && z == z'
  {
    var dy, dz := y - y', z - z';
    assert 256 * dz == (x' - x) + 16 * (y' - y);
    assert -255 <= 256 * dz <= 255;
    assert dz == 0;
    assert 16 * dy == x' - x;
    assert -15 <= 16 * dy <= 15;
  }

  /** The local coordinate stored at flat position i. */
  lemma IndexDecompose(i: int)
    requires 0 <= i < VOLUME
    ensures InChunk(i % SIZE, i / SIZE % SIZE, i / (SIZE * SIZE))
    ensures Index(i % SIZE, i / SIZE % SIZE, i / (SIZE * SIZE)) == i
  {
  }

  /** Math.floorDiv for a positive divisor: the largest q with q * b <= a. */
  function FloorDiv(a: int, b: int): (q: int)
    requires b > 0
    ensures q * b <= a < q * b + b
  {
    a / b
  }

  /** Math.floorMod for a positive divisor: the remainder left by FloorDiv. */
  function FloorMod(a: int, b: int): (r: int)
    requires b > 0
    ensures 0 <= r < b
    ensures a == FloorDiv(a, b) * b + r
  {
    a - FloorDiv(a, b) * b
  }

  /** The local flat index of a world coordinate inside its chunk. */
  function LocalIndex(wx: int, wy: int, wz: int): (i: int)
    ensures 0 <= i < VOLUME
  {
    Index(FloorMod(wx, SIZE), FloorMod(wy, SIZE), FloorMod(wz, SIZE))
  }

  /** A world coordinate splits into a chunk coordinate and a local offset in [0, SIZE),
      and that split is the only one: w == c * SIZE + l with 0 <= l < SIZE forces
      c == FloorDiv(w, SIZE) and l == FloorMod(w, SIZE). */
  lemma WorldSplit(w: int, c: int, l: int)
    requires 0 <= l < SIZE
    ensures w == FloorDiv(w, SIZE) * SIZE + FloorMod(w, SIZE)
    ensures 0 <= FloorMod(w, SIZE) < SIZE
    ensures w == c * SIZE + l <==> c == FloorDiv(w, SIZE) && l == FloorMod(w, SIZE)
  {
  }

  /** Floor semantics for negative coordinates: world x = -1 lies in chunk -1 at local 15. */
  lemma MinusOneResolves()
    ensures FloorDiv(-1, SIZE) == -1 && FloorMod(-1, SIZE) == 15
  {
  }
}

/** FlatWorldGenerator: flat terrain in which every voxel whose world height lies below
    the ground height is stone (block id 2) and every other voxel is air (0). */
module FlatGenerator {
  import opened Coords
  import opened Chunks

  /** Block id the generator fills the ground with. */
  const STONE: int := 2

  /** The block at world height wy: stone below the ground height, air from it upwards. */
  function Column(wy: int, groundHeight: int): int
  {
    if wy < groundHeight then STONE else 0
  }

  /** The voxel array of a generated chunk at chunk height cy, cell by cell in flat-index
      order. Neither the chunk's x nor its z coordinate takes part. */
  function FlatVoxels(cy: int, groundHeight: int): (v: seq<int>)
    ensures |v| == VOLUME
  {
    seq(VOLUME, i => Column(cy * SIZE + i / SIZE % SIZE, groundHeight))
  }

  /** Cell (x, y, z) of a generated chunk is stone exactly when its world height
      cy * 16 + y is below the ground height, and air otherwise. */
  lemma FlatCell(cy: int, groundHeight: int, x: int, y: int, z: int)
    requires InChunk(x, y, z)
    ensures 0 <= Index(x, y, z) < VOLUME
    ensures FlatVoxels(cy, groundHeight)[Index(x, y, z)] == STONE <==> cy * SIZE + y < groundHeight
    ensures FlatVoxels(cy, groundHeight)[Index(x, y, z)] == 0 <==> cy * SIZE + y >= groundHeight
  {
    var i := Index(x, y, z);
    IndexInRange(x, y, z);
    IndexDecompose(i);
    IndexInjective(x, y, z, i % SIZE, i / SIZE % SIZE, i / (SIZE * SIZE));
  }

  /** Every column of a chunk is the same: two cells at the same height hold the same id. */
  lemma ColumnsAgree(cy: int, groundHeight: int, x: int, y: int, z: int, x': int, z': int)
    requires InChunk(x, y, z) && InChunk(x', y, z')
    ensures 0 <= Index(x, y, z) < VOLUME && 0 <= Index(x', y, z') < VOLUME
    ensures FlatVoxels(cy, groundHeight)[Index(x, y, z)] == FlatVoxels(cy, groundHeight)[Index(x', y, z')]
  {
    FlatCell(cy, groundHeight, x, y, z);
    FlatCell(cy, groundHeight, x', y, z');
  }

  /** A chunk whose lowest layer is at or above the ground height is all air. */
  lemma AllAirAbove(cy: int, groundHeight: int)
    requires cy * SIZE >= groundHeight
    ensures forall i | 0 <= i < VOLUME :: FlatVoxels(cy, groundHeight)[i] == 0
  {
    forall i | 0 <= i < VOLUME
      ensures FlatVoxels(cy, groundHeight)[i] == 0
    {
      DivModRange(i);
    }
  }

  /** A chunk whose highest layer is below the ground height is all stone. */
  lemma AllStoneBelow(cy: int, groundHeight: int)
    requires cy * SIZE + SIZE - 1 < groundHeight
    ensures forall i | 0 <= i < VOLUME :: FlatVoxels(cy, groundHeight)[i] == STONE
  {
    forall i | 0 <= i < VOLUME
      ensures FlatVoxels(cy, groundHeight)[i] == STONE
    {
      DivModRange(i);
    }
  }

  /** The layer number of a flat index lies in [0, SIZE). */
  lemma DivModRange(i: int)
    requires 0 <= i < VOLUME
    ensures 0 <= i / SIZE % SIZE < SIZE
  {
  }

  /** The cells before flat index k hold the generated ids and the rest are still air. */
  ghost predicate FilledBefore(a: seq<int>, f: seq<int>, k: int)
  {
    |a| == VOLUME && |f| == VOLUME &&
    forall i | 0 <= i < VOLUME :: a[i] == if i < k then f[i] else 0
  }

  class FlatWorldGenerator {
    const groundHeight: int

    constructor(groundHeight: int)
      ensures this.groundHeight == groundHeight
    {
      this.groundHeight := groundHeight;
    }

    /** A new chunk at (cx, cy, cz) holding the flat terrain for its height: its voxels
        depend only on cy and the ground height, and it has no mesh yet. */
    method GenerateChunk(cx: int, cy: int, cz: int) returns (c: Chunk)
      ensures fresh(c) && fresh(c.voxels) && c.Valid()
      ensures c.cx == cx && c.cy == cy && c.cz == cz
      ensures c.voxels[..] == FlatVoxels(cy, groundHeight)
      ensures c.mesh.None? && !c.hasModel && c.meshesCreated == 0
    {
      c := new Chunk(cx, cy, cz);
      ghost var f := FlatVoxels(cy, groundHeight);
      var z := 0;
      while z < SIZE
        invariant 0 <= z <= SIZE
        invariant fresh(c.voxels) && c.Valid() && c.mesh.None? && !c.hasModel && c.meshesCreated == 0
        invariant FilledBefore(c.voxels[..], f, Index(0, 0, z))
      {
        var y := 0;
        while y < SIZE
          invariant 0 <= y <= SIZE
          invariant fresh(c.voxels) && c.Valid() && c.mesh.None? && !c.hasModel && c.meshesCreated == 0
          invariant FilledBefore(c.voxels[..], f, Index(0, y, z))
        {
          var x := 0;
          while x < SIZE
            invariant 0 <= x <= SIZE
            invariant fresh(c.voxels) && c.Valid() && c.mesh.None? && !c.hasModel && c.meshesCreated == 0
            invariant FilledBefore(c.voxels[..], f, Index(x, y, z))
          {
            FlatCell(cy, groundHeight, x, y, z);
            var wy := cy * SIZE + y;
            if wy < groundHeight {
              c.SetBlock(x, y, z, STONE);
            }
            x := x + 1;
          }
          y := y + 1;
        }
        z := z + 1;
      }
      assert c.voxels[..] == f;
    }
  }
}

/** BlockSnapshot: copies of chunk voxel arrays keyed by "cx,cy,cz", read by world
    coordinate. A chunk the snapshot does not hold reads as air. */
module Snapshots {
  import opened Wrappers
  import opened Coords
  import opened Keys

  /** Java's exception for reading past the end of a stored copy shorter than a chunk. */
  const OUT_OF_BOUNDS: string := "ArrayIndexOutOfBoundsException"

  /** getBlockGlobal on the snapshot's contents: split each coordinate into chunk and local
      part with floor division, look the chunk up, and read the local cell. It fails only
      when the copy held for the chunk is shorter than a chunk. */
  function BlockAt(copies: map<string, seq<int>>, wx: int, wy: int, wz: int): (r: Result<int, string>)
    ensures r.Failure? ==>
              Key(FloorDiv(wx, SIZE), FloorDiv(wy, SIZE), FloorDiv(wz, SIZE)) in copies &&
              |copies[Key(FloorDiv(wx, SIZE), FloorDiv(wy, SIZE), FloorDiv(wz, SIZE))]| < VOLUME
  {
    var k := Key(FloorDiv(wx, SIZE), FloorDiv(wy, SIZE), FloorDiv(wz, SIZE));
    if k !in copies then Success(0)
    else
      var idx := LocalIndex(wx, wy, wz);
      IndexInRange(FloorMod(wx, SIZE), FloorMod(wy, SIZE), FloorMod(wz, SIZE));
      if idx < |copies[k]| then Success(copies[k][idx]) else Failure(OUT_OF_BOUNDS)
  }

  /** A world coordinate whose chunk the snapshot does not hold reads as air. */
  lemma MissingChunkIsAir(copies: map<string, seq<int>>, cx: int, cy: int, cz: int,
                          lx: int, ly: int, lz: int)
    requires Key(cx, cy, cz) !in copies && InChunk(lx, ly, lz)
    ensures BlockAt(copies, cx * SIZE + lx, cy * SIZE + ly, cz * SIZE + lz) == Success(0)
  {
    SplitOf(cx, cy, cz, lx, ly, lz);
  }

  /** When every copy is a whole chunk, every world coordinate can be read. */
  lemma WholeCopiesNeverFail(copies: map<string, seq<int>>, wx: int, wy: int, wz: int)
    requires forall k | k in copies :: |copies[k]| == VOLUME
    ensures BlockAt(copies, wx, wy, wz).Success?
  {
  }

  /** After putting a whole copy v for chunk (cx, cy, cz), the world coordinate at local
      (lx, ly, lz) of that chunk reads v at the local flat index. */
  lemma PutThenGet(copies: map<string, seq<int>>, cx: int, cy: int, cz: int, v: seq<int>,
                   lx: int, ly: int, lz: int)
    requires |v| == VOLUME && InChunk(lx, ly, lz)
    ensures 0 <= Index(lx, ly, lz) < VOLUME
    ensures BlockAt(copies[Key(cx, cy, cz) := v], cx * SIZE + lx, cy * SIZE + ly, cz * SIZE + lz)
              == Success(v[Index(lx, ly, lz)])
  {
    IndexInRange(lx, ly, lz);
    SplitOf(cx, cy, cz, lx, ly, lz);
  }

  /** The world coordinate at local (lx, ly, lz) of chunk (cx, cy, cz) splits back into
      exactly that chunk and that local cell. */
  lemma SplitOf(cx: int, cy: int, cz: int, lx: int, ly: int, lz: int)
    requires InChunk(lx, ly, lz)
    ensures FloorDiv(cx * SIZE + lx, SIZE) == cx && FloorMod(cx * SIZE + lx, SIZE) == lx
    ensures FloorDiv(cy * SIZE + ly, SIZE) == cy && FloorMod(cy * SIZE + ly, SIZE) == ly
    ensures FloorDiv(cz * SIZE + lz, SIZE) == cz && FloorMod(cz * SIZE + lz, SIZE) == lz
    ensures LocalIndex(cx * SIZE + lx, cy * SIZE + ly, cz * SIZE + lz) == Index(lx, ly, lz)
  {
    WorldSplit(cx * SIZE + lx, cx, lx);
    WorldSplit(cy * SIZE + ly, cy, ly);
    WorldSplit(cz * SIZE + lz, cz, lz);
  }

  /** Putting a copy for one chunk leaves every world coordinate of every other chunk
      reading as before. */
  lemma PutKeepsOthers(copies: map<string, seq<int>>, cx: int, cy: int, cz: int, v: seq<int>,
                       wx: int, wy: int, wz: int)
    requires (FloorDiv(wx, SIZE), FloorDiv(wy, SIZE), FloorDiv(wz, SIZE)) != (cx, cy, cz)
    ensures BlockAt(copies[Key(cx, cy, cz) := v], wx, wy, wz) == BlockAt(copies, wx, wy, wz)
  {
    var a, b, c := FloorDiv(wx, SIZE), FloorDiv(wy, SIZE), FloorDiv(wz, SIZE);
    if Key(a, b, c) == Key(cx, cy, cz) {
      KeyInjective(a, b, c, cx, cy, cz);
    }
  }

  class BlockSnapshot {
    /** The voxel copies by chunk key. */
    var copies: map<string, seq<int>>

    /** An empty snapshot: every coordinate reads as air. */
    constructor()
      ensures copies == map[]
    {
      copies := map[];
    }

    /** Stores (or replaces) the copy for chunk (cx, cy, cz); other chunks keep theirs. */
    method Put(cx: int, cy: int, cz: int, voxelsCopy: seq<int>)
      modifies this
      ensures copies == old(copies)[Key(cx, cy, cz) := voxelsCopy]
    {
      copies := copies[Key(cx, cy, cz) := voxelsCopy];
    }

    /** The block id at world coordinate (wx, wy, wz) as the snapshot records it. */
    function GetBlockGlobal(wx: int, wy: int, wz: int): (r: Result<int, string>)
      reads this
      ensures r.Failure? ==> Key(FloorDiv(wx, SIZE), FloorDiv(wy, SIZE), FloorDiv(wz, SIZE)) in copies
      ensures Key(FloorDiv(wx, SIZE), FloorDiv(wy, SIZE), FloorDiv(wz, SIZE)) !in copies ==> r == Success(0)
    {
      BlockAt(copies, wx, wy, wz)
    }
  }
}

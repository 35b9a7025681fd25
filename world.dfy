/** World: the resident chunks, the chunks whose mesh is stale, the voxel copies of
    chunks that were unloaded, and the chunks whose GPU resources are still to be freed.
    Chunks come from the saved copy when there is one and from the flat generator
    otherwise; the camera keeps a cube of chunks resident around it.

    The maps are keyed by chunk position. The source keys them by the string
    Key(cx, cy, cz); KeyInjective shows that string determines the position, and
    SourceKeyed rebuilds the source's string-keyed map from a position-keyed one. */
module Worlds {
  import opened Coords
  import opened Keys
  import opened Chunks
  import opened FlatGenerator

  /** A chunk position (cx, cy, cz). */
  type ChunkPos = (int, int, int)

  /** Two chunk positions share a string key only when they are the same position. */
  lemma KeysDistinguishPositions()
    ensures forall p: ChunkPos, q: ChunkPos :: Key(p.0, p.1, p.2) == Key(q.0, q.1, q.2) ==> p == q
  {
    forall p: ChunkPos, q: ChunkPos | Key(p.0, p.1, p.2) == Key(q.0, q.1, q.2)
      ensures p == q
    {
      KeyInjective(p.0, p.1, p.2, q.0, q.1, q.2);
    }
  }

  /** The source's string-keyed map holding the entries of m: each position's entry sits
      under its string key, and every string key is the key of a position of m. */
  ghost function SourceKeyed<V>(m: map<ChunkPos, V>): (r: map<string, V>)
    ensures forall p | p in m :: Key(p.0, p.1, p.2) in r && r[Key(p.0, p.1, p.2)] == m[p]
    ensures forall k | k in r :: exists p | p in m :: k == Key(p.0, p.1, p.2)
  {
    KeysDistinguishPositions();
    map p | p in m :: Key(p.0, p.1, p.2) := m[p]
  }

  /** The voxels a chunk at p starts with when it becomes resident: the saved copy if the
      world holds one, the generator's terrain otherwise. */
  function Loaded(saved: map<ChunkPos, seq<int>>, p: ChunkPos, groundHeight: int): seq<int>
  {
    if p in saved then saved[p] else FlatVoxels(p.1, groundHeight)
  }

  /** A chunk that has just been unloaded comes back with the voxels it had. */
  lemma UnloadThenLoad(saved: map<ChunkPos, seq<int>>, p: ChunkPos, groundHeight: int, voxels: seq<int>)
    ensures Loaded(saved[p := voxels], p, groundHeight) == voxels
  {
  }

  /** A chunk that was never saved comes back as the generator's terrain for its height,
      whatever its x and z coordinates are. */
  lemma NeverSavedIsGenerated(saved: map<ChunkPos, seq<int>>, p: ChunkPos, groundHeight: int,
                              lx: int, ly: int, lz: int)
    requires p !in saved && InChunk(lx, ly, lz)
    ensures 0 <= Index(lx, ly, lz) < VOLUME
    ensures Loaded(saved, p, groundHeight)[Index(lx, ly, lz)] == Column(p.1 * SIZE + ly, groundHeight)
  {
    FlatCell(p.1, groundHeight, lx, ly, lz);
  }

  /** The position of the chunk holding world coordinate (wx, wy, wz). */
  function ChunkOf(wx: int, wy: int, wz: int): ChunkPos
  {
    (FloorDiv(wx, SIZE), FloorDiv(wy, SIZE), FloorDiv(wz, SIZE))
  }

  function Abs(n: int): nat
  {
    if n < 0 then -n else n
  }

  /** Whether chunk position p lies within distance r of the camera chunk cam on every axis. */
  predicate Near(p: ChunkPos, cam: ChunkPos, r: int)
  {
    Abs(p.0 - cam.0) <= r && Abs(p.1 - cam.1) <= r && Abs(p.2 - cam.2) <= r
  }

  /** The positions of m outside the cube of radius r around the camera chunk cam. */
  function FarFrom(m: map<ChunkPos, Chunk>, cam: ChunkPos, r: int): set<ChunkPos>
  {
    set p | p in m && !Near(p, cam, r)
  }

  /** A chunk without GPU resources. */
  ghost predicate Closed(c: Chunk)
    reads c
  {
    c.mesh.None? && !c.hasModel
  }

  /** Every chunk of m has a whole voxel array and is stored under its own position, and
      no two chunks of m share a voxel array. */
  predicate KeyedChunks(m: map<ChunkPos, Chunk>)
  {
    (forall p | p in m :: m[p].Sized() && p == (m[p].cx, m[p].cy, m[p].cz)) &&
    (forall p, q | p in m && q in m && p != q :: m[p].voxels != m[q].voxels)
  }

  /** Every saved copy holds one id per voxel. */
  predicate WholeCopies(saved: map<ChunkPos, seq<int>>)
  {
    forall p | p in saved :: |saved[p]| == VOLUME
  }

  /** The world invariant over its resident map, saved copies and pending queue: the
      resident map is keyed, every saved copy is a whole chunk, resident and pending
      chunks have their mesh and model together, and a pending chunk is not resident. */
  ghost predicate WorldParts(m: map<ChunkPos, Chunk>, saved: map<ChunkPos, seq<int>>, pending: seq<Chunk>)
    reads m.Values, set c | c in pending
  {
    KeyedChunks(m) && WholeCopies(saved) &&
    (forall c | c in m.Values :: c.Valid()) &&
    (forall c | c in pending :: c.Valid() && c !in m.Values)
  }

  /** Making a new chunk resident under its own position keeps the invariant. */
  lemma PartsLoad(m: map<ChunkPos, Chunk>, saved: map<ChunkPos, seq<int>>, pending: seq<Chunk>, c: Chunk)
    requires WorldParts(m, saved, pending) && c.Valid() && (c.cx, c.cy, c.cz) !in m
    requires c !in pending && forall p | p in m :: m[p].voxels != c.voxels
    ensures WorldParts(m[(c.cx, c.cy, c.cz) := c], saved, pending)
  {
  }

  /** Unloading a resident chunk (dropping it from the map, saving a copy of its voxels
      and queueing it) keeps the invariant. */
  lemma PartsUnload(m: map<ChunkPos, Chunk>, saved: map<ChunkPos, seq<int>>, pending: seq<Chunk>, p: ChunkPos)
    requires WorldParts(m, saved, pending) && p in m
    ensures WorldParts(m - {p}, saved[p := m[p].voxels[..]], pending + [m[p]])
  {
    forall q | q in m - {p}
      ensures (m - {p})[q] != m[p]
    {
      assert m[q].voxels != m[p].voxels;
    }
  }

  /** The voxel contents of every chunk of m, by position. */
  ghost function Snap(m: map<ChunkPos, Chunk>): (r: map<ChunkPos, seq<int>>)
    reads set c | c in m.Values :: c.voxels
    ensures r.Keys == m.Keys && forall p | p in m :: r[p] == m[p].voxels[..]
  {
    map p | p in m :: m[p].voxels[..]
  }

  /** The state (m, saved, pending) results from unloading, one after another, the
      positions of done from the resident map m0: those positions left the map, the
      others kept their chunk; each unloaded position's saved copy is its contents snap0
      had and its chunk was queued behind the chunks pending0 already held; no other
      saved copy changed. */
  ghost predicate Unloaded(m0: map<ChunkPos, Chunk>, snap0: map<ChunkPos, seq<int>>,
                     saved0: map<ChunkPos, seq<int>>, pending0: seq<Chunk>, done: set<ChunkPos>,
                     m: map<ChunkPos, Chunk>, saved: map<ChunkPos, seq<int>>, pending: seq<Chunk>)
  {
    done <= m0.Keys && m0.Keys == snap0.Keys &&
    m.Keys == m0.Keys - done &&
    (forall p | p in m :: m[p] == m0[p]) &&
    (forall p | p in done :: p in saved && saved[p] == snap0[p] && m0[p] in pending) &&
    (forall p | p in saved && p !in done :: p in saved0 && saved[p] == saved0[p]) &&
    (forall p | p in saved0 :: p in saved) &&
    |pending0| <= |pending| && pending[..|pending0|] == pending0 &&
    (forall c | c in pending :: c in pending0 || exists p | p in done :: c == m0[p])
  }

  /** Unloading one more resident position extends the unloaded history by it. */
  lemma UnloadedStep(m0: map<ChunkPos, Chunk>, snap0: map<ChunkPos, seq<int>>,
                     saved0: map<ChunkPos, seq<int>>, pending0: seq<Chunk>, done: set<ChunkPos>,
                     m: map<ChunkPos, Chunk>, saved: map<ChunkPos, seq<int>>, pending: seq<Chunk>,
                     p: ChunkPos)
    requires Unloaded(m0, snap0, saved0, pending0, done, m, saved, pending) && p in m
    ensures Unloaded(m0, snap0, saved0, pending0, done + {p}, m - {p}, saved[p := snap0[p]], pending + [m[p]])
  {
    var pending' := pending + [m[p]];
    assert pending'[..|pending0|] == pending[..|pending0|];
    forall c | c in pending'
      ensures c in pending0 || exists q | q in done + {p} :: c == m0[q]
    {
      if c == m[p] {
        assert p in done + {p};
      }
    }
  }

  /** Moving p from the positions still to do to the positions done. */
  lemma DoneStep(all: set<ChunkPos>, todo: set<ChunkPos>, p: ChunkPos)
    requires p in todo && todo <= all
    ensures all - (todo - {p}) == (all - todo) + {p}
  {
  }

  /** System.arraycopy of all of src to the start of dst: the first |src| cells take
      src's values and the rest keep theirs. */
  method ArrayCopy(src: seq<int>, dst: array<int>)
    requires |src| <= dst.Length
    modifies dst
    ensures forall j | 0 <= j < |src| :: dst[j] == src[j]
    ensures forall j | |src| <= j < dst.Length :: dst[j] == old(dst[j])
  {
    var i := 0;
    while i < |src|
      invariant 0 <= i <= |src|
      invariant forall j | 0 <= j < i :: dst[j] == src[j]
      invariant forall j | i <= j < dst.Length :: dst[j] == old(dst[j])
    {
      dst[i] := src[i];
      i := i + 1;
    }
  }

  class World {
    var chunks: map<ChunkPos, Chunk>
    var dirtyChunks: set<Chunk>
    var savedChunkData: map<ChunkPos, seq<int>>
    var pendingUnload: seq<Chunk>
    const generator: FlatWorldGenerator
    const renderDistance: int

    /** The world's fields satisfy WorldParts. */
    ghost predicate Valid()
      reads this, chunks.Values, set c | c in pendingUnload
    {
      WorldParts(chunks, savedChunkData, pendingUnload)
    }

    /** A world with no resident, dirty, saved or pending chunks. */
    constructor(generator: FlatWorldGenerator, renderDistance: int)
      ensures Valid()
      ensures this.generator == generator && this.renderDistance == renderDistance
      ensures chunks == map[] && dirtyChunks == {} && savedChunkData == map[] && pendingUnload == []
    {
      this.generator := generator;
      this.renderDistance := renderDistance;
      chunks := map[];
      dirtyChunks := {};
      savedChunkData := map[];
      pendingUnload := [];
    }

    /** The voxels the chunk at p has once it is resident: the resident chunk's own, or
        else what loading it would produce. */
    ghost function StartVoxels(p: ChunkPos): seq<int>
      reads this, chunks.Values, set c | c in chunks.Values :: c.voxels
    {
      if p in chunks then chunks[p].voxels[..] else Loaded(savedChunkData, p, generator.groundHeight)
    }

    /** The chunk at (cx, cy, cz). A resident chunk is returned as it is and nothing
        changes; otherwise a new chunk is built from the saved copy or, without one, by
        the generator, and it becomes resident and dirty. */
    method LoadOrGenerateChunk(cx: int, cy: int, cz: int) returns (c: Chunk)
      requires Valid()
      modifies this
      ensures Valid()
      ensures chunks == old(chunks)[(cx, cy, cz) := c]
      ensures c.cx == cx && c.cy == cy && c.cz == cz
      ensures c.voxels[..] == old(StartVoxels((cx, cy, cz)))
      ensures savedChunkData == old(savedChunkData) && pendingUnload == old(pendingUnload)
      ensures (cx, cy, cz) in old(chunks) ==> c == old(chunks[(cx, cy, cz)]) && dirtyChunks == old(dirtyChunks)
      ensures (cx, cy, cz) !in old(chunks) ==>
                fresh(c) && fresh(c.voxels) && Closed(c) && dirtyChunks == old(dirtyChunks) + {c}
    {
      var k := (cx, cy, cz);
      if k in chunks {
        c := chunks[k];
        return;
      }
      c := BuildChunk(cx, cy, cz);
      PartsLoad(chunks, savedChunkData, pendingUnload, c);
      chunks := chunks[k := c];
      dirtyChunks := dirtyChunks + {c};
    }

    /** A new chunk for (cx, cy, cz): a fresh chunk with the saved copy written into its
        array when there is one, otherwise the generator's chunk. */
    method BuildChunk(cx: int, cy: int, cz: int) returns (c: Chunk)
      requires WholeCopies(savedChunkData)
      ensures fresh(c) && fresh(c.voxels) && c.Valid() && Closed(c)
      ensures c.cx == cx && c.cy == cy && c.cz == cz
      ensures c.voxels[..] == Loaded(savedChunkData, (cx, cy, cz), generator.groundHeight)
    {
      var k := (cx, cy, cz);
      c := new Chunk(cx, cy, cz);
      if k in savedChunkData {
        var vox := savedChunkData[k];
        ArrayCopy(vox, c.voxels);
        assert c.voxels[..] == vox;
      } else {
        c := generator.GenerateChunk(cx, cy, cz);
      }
    }

    /** Unloading a resident chunk and loading it again gives a new chunk holding the
        voxels the old one had when it left; the save in between is what carries them. */
    method UnloadThenReload(cx: int, cy: int, cz: int) returns (c: Chunk)
      requires Valid() && (cx, cy, cz) in chunks
      modifies this
      ensures Valid()
      ensures fresh(c) && c.cx == cx && c.cy == cy && c.cz == cz
      ensures c.voxels[..] == old(chunks[(cx, cy, cz)].voxels[..])
      ensures chunks == old(chunks)[(cx, cy, cz) := c]
      ensures savedChunkData == old(savedChunkData)[(cx, cy, cz) := old(chunks[(cx, cy, cz)].voxels[..])]
    {
      UnloadChunk(cx, cy, cz);
      UnloadThenLoad(old(savedChunkData), (cx, cy, cz), generator.groundHeight, old(chunks[(cx, cy, cz)].voxels[..]));
      c := LoadOrGenerateChunk(cx, cy, cz);
    }

    /** Unloads the chunk at (cx, cy, cz) if it is resident: it leaves the resident map,
        a copy of its voxels is saved under its position, and it waits in the pending
        queue for its GPU resources to be freed. The dirty set is left alone. */
    method UnloadChunk(cx: int, cy: int, cz: int)
      requires Valid()
      modifies this
      ensures Valid()
      ensures dirtyChunks == old(dirtyChunks)
      ensures (cx, cy, cz) in old(chunks) ==>
                chunks == old(chunks) - {(cx, cy, cz)} &&
                savedChunkData == old(savedChunkData)[(cx, cy, cz) := old(chunks[(cx, cy, cz)].voxels[..])] &&
                pendingUnload == old(pendingUnload) + [old(chunks[(cx, cy, cz)])]
      ensures (cx, cy, cz) !in old(chunks) ==>
                chunks == old(chunks) && savedChunkData == old(savedChunkData) &&
                pendingUnload == old(pendingUnload)
    {
      var k := (cx, cy, cz);
      if k in chunks {
        var c := chunks[k];
        PartsUnload(chunks, savedChunkData, pendingUnload, k);
        chunks := chunks - {k};
        savedChunkData := savedChunkData[k := c.voxels[..]];
        pendingUnload := pendingUnload + [c];
      }
    }

    /** Sets the block at world coordinate (wx, wy, wz): the chunk is found by floor
        division (and loaded or generated if need be), the cell by the floor remainder.
        Only that cell of that chunk changes, and that chunk becomes dirty. */
    method SetBlock(wx: int, wy: int, wz: int, blockId: int)
      requires Valid()
      modifies this, set p | p in chunks :: chunks[p].voxels
      ensures Valid()
      ensures ChunkOf(wx, wy, wz) in chunks
      ensures chunks == old(chunks)[ChunkOf(wx, wy, wz) := chunks[ChunkOf(wx, wy, wz)]]
      ensures ChunkOf(wx, wy, wz) !in old(chunks) ==> fresh(chunks[ChunkOf(wx, wy, wz)])
      ensures chunks[ChunkOf(wx, wy, wz)].voxels[..] ==
                old(StartVoxels(ChunkOf(wx, wy, wz)))[LocalIndex(wx, wy, wz) := blockId]
      ensures dirtyChunks == old(dirtyChunks) + {chunks[ChunkOf(wx, wy, wz)]}
      ensures forall p | p in old(chunks) && p != ChunkOf(wx, wy, wz) ::
                chunks[p].voxels[..] == old(chunks[p].voxels[..])
      ensures savedChunkData == old(savedChunkData) && pendingUnload == old(pendingUnload)
    {
      var cx := FloorDiv(wx, SIZE);
      var cy := FloorDiv(wy, SIZE);
      var cz := FloorDiv(wz, SIZE);
      var lx := FloorMod(wx, SIZE);
      var ly := FloorMod(wy, SIZE);
      var lz := FloorMod(wz, SIZE);
      IndexInRange(lx, ly, lz);
      var c := LoadOrGenerateChunk(cx, cy, cz);
      c.SetBlock(lx, ly, lz, blockId);
      dirtyChunks := dirtyChunks + {c};
    }

    /** The resident map grew from m0: every entry of m0 is still there, and every new
        entry is near the camera chunk and holds what loading it from saved0 gives. */
    ghost predicate Grown(m0: map<ChunkPos, Chunk>, saved0: map<ChunkPos, seq<int>>, cam: ChunkPos)
      reads this, chunks.Values, set c | c in chunks.Values :: c.voxels
    {
      (forall p | p in m0 :: p in chunks && chunks[p] == m0[p]) &&
      (forall p | p in chunks && p !in m0 ::
         Near(p, cam, renderDistance) && chunks[p].voxels[..] == Loaded(saved0, p, generator.groundHeight))
    }

    /** The loading half of updateAndRender: every chunk within the render distance of
        the camera chunk becomes resident, visiting x, then y, then z in increasing order.
        Resident chunks stay as they are; each new chunk is near the camera, new, and
        holds its saved copy or the generator's terrain. */
    method LoadAround(cam: ChunkPos)
      requires Valid()
      modifies this
      ensures Valid()
      ensures savedChunkData == old(savedChunkData) && pendingUnload == old(pendingUnload)
      ensures Grown(old(chunks), old(savedChunkData), cam)
      ensures forall p | p in chunks && p !in old(chunks) :: fresh(chunks[p])
      ensures forall p | Near(p, cam, renderDistance) :: p in chunks
    {
      var x := cam.0 - renderDistance;
      while x <= cam.0 + renderDistance
        invariant x >= cam.0 - renderDistance
        invariant Valid() && savedChunkData == old(savedChunkData) && pendingUnload == old(pendingUnload)
        invariant Grown(old(chunks), old(savedChunkData), cam)
        invariant forall p | p in chunks && p !in old(chunks) :: fresh(chunks[p])
        invariant forall p | Near(p, cam, renderDistance) && p.0 < x :: p in chunks
        decreases cam.0 + renderDistance - x
      {
        LoadSlab(cam, x);
        x := x + 1;
      }
    }

    /** The chunks of the x-slab of the cube around cam, in increasing y. */
    method LoadSlab(cam: ChunkPos, x: int)
      requires Valid() && Abs(x - cam.0) <= renderDistance
      modifies this
      ensures Valid()
      ensures savedChunkData == old(savedChunkData) && pendingUnload == old(pendingUnload)
      ensures Grown(old(chunks), old(savedChunkData), cam)
      ensures forall p | p in chunks && p !in old(chunks) :: fresh(chunks[p])
      ensures forall p | Near(p, cam, renderDistance) && p.0 == x :: p in chunks
    {
      var y := cam.1 - renderDistance;
      while y <= cam.1 + renderDistance
        invariant y >= cam.1 - renderDistance
        invariant Valid() && savedChunkData == old(savedChunkData) && pendingUnload == old(pendingUnload)
        invariant Grown(old(chunks), old(savedChunkData), cam)
        invariant forall p | p in chunks && p !in old(chunks) :: fresh(chunks[p])
        invariant forall p | Near(p, cam, renderDistance) && p.0 == x && p.1 < y :: p in chunks
        decreases cam.1 + renderDistance - y
      {
        LoadRow(cam, x, y);
        y := y + 1;
      }
    }

    /** The chunks of the (x, y)-row of the cube around cam, in increasing z. */
    method LoadRow(cam: ChunkPos, x: int, y: int)
      requires Valid() && Abs(x - cam.0) <= renderDistance && Abs(y - cam.1) <= renderDistance
      modifies this
      ensures Valid()
      ensures savedChunkData == old(savedChunkData) && pendingUnload == old(pendingUnload)
      ensures Grown(old(chunks), old(savedChunkData), cam)
      ensures forall p | p in chunks && p !in old(chunks) :: fresh(chunks[p])
      ensures forall z | cam.2 - renderDistance <= z <= cam.2 + renderDistance :: (x, y, z) in chunks
    {
      var z := cam.2 - renderDistance;
      while z <= cam.2 + renderDistance
        invariant z >= cam.2 - renderDistance
        invariant Valid() && savedChunkData == old(savedChunkData) && pendingUnload == old(pendingUnload)
        invariant Grown(old(chunks), old(savedChunkData), cam)
        invariant forall p | p in chunks && p !in old(chunks) :: fresh(chunks[p])
        invariant forall z' | cam.2 - renderDistance <= z' < z :: (x, y, z') in chunks
        decreases cam.2 + renderDistance - z
      {
        var _ := LoadOrGenerateChunk(x, y, z);
        z := z + 1;
      }
    }

    /** The unloading half of updateAndRender: every resident chunk farther than the
        render distance from the camera chunk on some axis is unloaded; the others stay. */
    method UnloadFar(cam: ChunkPos)
      requires Valid()
      modifies this
      ensures Valid()
      ensures dirtyChunks == old(dirtyChunks)
      ensures Unloaded(old(chunks), old(Snap(chunks)), old(savedChunkData), old(pendingUnload),
                       FarFrom(old(chunks), cam, renderDistance),
                       chunks, savedChunkData, pendingUnload)
    {
      var toUnload := set p | p in chunks && !Near((chunks[p].cx, chunks[p].cy, chunks[p].cz), cam, renderDistance);
      ghost var far := toUnload;
      ghost var done: set<ChunkPos> := {};
      ghost var snap0 := Snap(chunks);
      assert far == FarFrom(chunks, cam, renderDistance);
      while toUnload != {}
        invariant toUnload <= far && done == far - toUnload
        invariant Valid()
        invariant dirtyChunks == old(dirtyChunks)
        invariant Unloaded(old(chunks), snap0, old(savedChunkData), old(pendingUnload), done,
                           chunks, savedChunkData, pendingUnload)
        decreases |toUnload|
      {
        var p :| p in toUnload;
        var c := chunks[p];
        assert (c.cx, c.cy, c.cz) == p;
        assert c.voxels[..] == snap0[p];
        UnloadedStep(old(chunks), snap0, old(savedChunkData), old(pendingUnload), done,
                     chunks, savedChunkData, pendingUnload, p);
        UnloadChunk(c.cx, c.cy, c.cz);
        DoneStep(far, toUnload, p);
        toUnload := toUnload - {p};
        done := done + {p};
      }
    }

    /** The chunk-set half of updateAndRender: loading the cube around cam and then
        unloading everything outside it leaves exactly the cube resident; chunks already
        resident inside the cube are kept, new ones are loaded from the saved copies as
        they were, and each chunk outside the cube is saved and queued for closing. */
    method Reconcile(cam: ChunkPos)
      requires Valid()
      modifies this
      ensures Valid()
      ensures forall p :: p in chunks <==> Near(p, cam, renderDistance)
      ensures forall p | p in chunks && p in old(chunks) :: chunks[p] == old(chunks[p])
      ensures forall p | p in chunks && p !in old(chunks) ::
                fresh(chunks[p]) && chunks[p].voxels[..] == Loaded(old(savedChunkData), p, generator.groundHeight)
      ensures forall p | p in old(chunks) && !Near(p, cam, renderDistance) ::
                p in savedChunkData && savedChunkData[p] == old(chunks[p].voxels[..]) &&
                old(chunks[p]) in pendingUnload
      ensures forall p | p in savedChunkData && !(p in old(chunks) && !Near(p, cam, renderDistance)) ::
                p in old(savedChunkData) && savedChunkData[p] == old(savedChunkData[p])
      ensures forall p | p in old(savedChunkData) :: p in savedChunkData
      ensures forall c | c in old(pendingUnload) :: c in pendingUnload
      ensures forall c | c in pendingUnload :: c in old(pendingUnload) || c in old(chunks).Values
    {
      LoadAround(cam);
      UnloadFar(cam);
    }

    /** updateAndRender for the camera chunk cam: afterwards exactly the chunks within the
        render distance are resident (those that already were are kept, the others are
        loaded), every other chunk that was resident has its voxels saved and its GPU
        resources freed, the dirty set is empty and so is the pending queue. */
    method UpdateAndRender(cam: ChunkPos)
      requires Valid()
      modifies this, chunks.Values, set c | c in pendingUnload
      ensures Valid()
      ensures forall p :: p in chunks <==> Near(p, cam, renderDistance)
      ensures forall p | p in chunks && p in old(chunks) :: chunks[p] == old(chunks[p])
      ensures forall p | p in chunks && p !in old(chunks) ::
                fresh(chunks[p]) && chunks[p].voxels[..] == Loaded(old(savedChunkData), p, generator.groundHeight)
      ensures forall p | p in old(chunks) && !Near(p, cam, renderDistance) ::
                p in savedChunkData && savedChunkData[p] == old(chunks[p].voxels[..]) && Closed(old(chunks)[p])
      ensures forall p | p in savedChunkData && !(p in old(chunks) && !Near(p, cam, renderDistance)) ::
                p in old(savedChunkData) && savedChunkData[p] == old(savedChunkData[p])
      ensures forall p | p in old(savedChunkData) :: p in savedChunkData
      ensures dirtyChunks == {} && pendingUnload == []
      ensures forall c | c in old(pendingUnload) :: Closed(c)
    {
      Reconcile(cam);
      dirtyChunks := {};
      ClosePending();
    }

    /** close: every resident chunk's voxels are saved under its position and its GPU
        resources are freed, the resident map is emptied, and the pending chunks are
        closed too. The dirty set is left as it was. */
    method Close()
      requires Valid()
      modifies this, chunks.Values, set c | c in pendingUnload
      ensures Valid()
      ensures chunks == map[] && pendingUnload == [] && dirtyChunks == old(dirtyChunks)
      ensures forall p | p in old(chunks) ::
                p in savedChunkData && savedChunkData[p] == old(chunks[p].voxels[..]) && Closed(old(chunks)[p])
      ensures forall p | p in savedChunkData && p !in old(chunks) ::
                p in old(savedChunkData) && savedChunkData[p] == old(savedChunkData[p])
      ensures forall p | p in old(savedChunkData) :: p in savedChunkData
      ensures forall c | c in old(pendingUnload) :: Closed(c)
    {
      SaveAll();
      chunks := map[];
      ClosePending();
    }

    /** The first loop of close: each resident chunk, in some order, has a copy of its
        voxels saved under its position and its GPU resources freed. The resident map,
        the dirty set and the pending queue stay as they are. */
    method SaveAll()
      requires Valid()
      modifies this, chunks.Values
      ensures Valid()
      ensures chunks == old(chunks) && pendingUnload == old(pendingUnload) && dirtyChunks == old(dirtyChunks)
      ensures forall p | p in chunks :: Closed(chunks[p])
      ensures forall p | p in chunks :: p in savedChunkData && savedChunkData[p] == old(chunks[p].voxels[..])
      ensures forall p | p in savedChunkData && p !in chunks ::
                p in old(savedChunkData) && savedChunkData[p] == old(savedChunkData[p])
      ensures forall p | p in old(savedChunkData) :: p in savedChunkData
    {
      ghost var snap0 := Snap(chunks);
      ghost var done: set<ChunkPos> := {};
      var todo := chunks.Keys;
      while todo != {}
        invariant todo <= chunks.Keys && done == chunks.Keys - todo
        invariant Valid()
        invariant chunks == old(chunks) && pendingUnload == old(pendingUnload) && dirtyChunks == old(dirtyChunks)
        invariant forall p | p in done :: Closed(chunks[p])
        invariant forall p | p in done :: p in savedChunkData && savedChunkData[p] == snap0[p]
        invariant forall p | p in savedChunkData && p !in done ::
                    p in old(savedChunkData) && savedChunkData[p] == old(savedChunkData[p])
        invariant forall p | p in old(savedChunkData) :: p in savedChunkData
        decreases |todo|
      {
        var p :| p in todo;
        assert chunks[p].voxels[..] == snap0[p];
        SaveAndClose(p);
        DoneStep(chunks.Keys, todo, p);
        todo := todo - {p};
        done := done + {p};
      }
    }

    /** One step of close's first loop: the chunk at p has a copy of its voxels saved
        under its own position and its GPU resources freed. */
    method SaveAndClose(p: ChunkPos)
      requires Valid() && p in chunks
      modifies this, chunks[p]
      ensures Valid()
      ensures chunks == old(chunks) && pendingUnload == old(pendingUnload) && dirtyChunks == old(dirtyChunks)
      ensures savedChunkData == old(savedChunkData)[p := old(chunks[p].voxels[..])]
      ensures Closed(chunks[p])
      ensures forall q | q in chunks && old(Closed(chunks[q])) :: Closed(chunks[q])
    {
      var c := chunks[p];
      savedChunkData := savedChunkData[(c.cx, c.cy, c.cz) := c.voxels[..]];
      c.Close();
    }

    /** Frees the GPU resources of every pending chunk, first to last, and empties the
        queue; nothing else changes. */
    method ClosePending()
      requires Valid()
      modifies this, set c | c in pendingUnload
      ensures Valid()
      ensures pendingUnload == []
      ensures chunks == old(chunks) && dirtyChunks == old(dirtyChunks) && savedChunkData == old(savedChunkData)
      ensures forall c | c in old(pendingUnload) :: Closed(c)
    {
      var i := 0;
      while i < |pendingUnload|
        invariant 0 <= i <= |pendingUnload|
        invariant Valid()
        invariant forall j | 0 <= j < i :: Closed(pendingUnload[j])
        invariant chunks == old(chunks) && dirtyChunks == old(dirtyChunks)
        invariant savedChunkData == old(savedChunkData) && pendingUnload == old(pendingUnload)
      {
        pendingUnload[i].Close();
        i := i + 1;
      }
      pendingUnload := [];
    }
  }
}

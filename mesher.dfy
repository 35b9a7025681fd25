/** ChunkMesher: the face-culling mesher that turns a voxel grid into vertex and index
    lists, one quad per block face whose neighbour is empty. */
module Mesher {
  import opened Wrappers
  import opened BlockFaces
  import opened Blocks
  import opened Atlas

  /** The five lists a mesh is made of. Positions and normals are whole numbers here (the
      source stores them as floats); texture coordinates and colours are passed through. */
  datatype MeshData = MeshData(positions: seq<int>, normals: seq<int>, texcoords: seq<real>,
                               colors: seq<real>, indices: seq<int>)

  const EMPTY_MESH: MeshData := MeshData([], [], [], [], [])

  // ---------------------------------------------------------------------------
  // Quads and the lists they contribute

  /** One emitted face: its cell, which face, the normal, the atlas tile and the tint. */
  datatype Quad = Quad(x: int, y: int, z: int, face: Face, normal: Vec, tile: int, tint: Tint)

  /** A quad corner: its offset from the cell origin, and whether it takes the high u and
      the high v of the UV rectangle. */
  datatype Corner = Corner(dx: int, dy: int, dz: int, uHigh: bool, vHigh: bool)

  /** Corner k (0..3) of a face, in the order addFaceIfEmpty emits them. */
  function CornerAt(face: Face, k: nat): Corner
    requires k < 4
  {
    match face
    case North =>
      if k == 0 then Corner(1, 0, 0, true, false) else if k == 1 then Corner(0, 0, 0, false, false)
      else if k == 2 then Corner(0, 1, 0, false, true) else Corner(1, 1, 0, true, true)
    case South =>
      if k == 0 then Corner(0, 0, 1, false, false) else if k == 1 then Corner(1, 0, 1, true, false)
      else if k == 2 then Corner(1, 1, 1, true, true) else Corner(0, 1, 1, false, true)
    case Bottom =>
      if k == 0 then Corner(0, 0, 0, false, false) else if k == 1 then Corner(1, 0, 0, true, false)
      else if k == 2 then Corner(1, 0, 1, true, true) else Corner(0, 0, 1, false, true)
    case Top =>
      if k == 0 then Corner(0, 1, 1, false, false) else if k == 1 then Corner(1, 1, 1, true, false)
      else if k == 2 then Corner(1, 1, 0, true, true) else Corner(0, 1, 0, false, true)
    case West =>
      if k == 0 then Corner(0, 0, 0, true, false) else if k == 1 then Corner(0, 0, 1, false, false)
      else if k == 2 then Corner(0, 1, 1, false, true) else Corner(0, 1, 0, true, true)
    case East =>
      if k == 0 then Corner(1, 0, 1, true, false) else if k == 1 then Corner(1, 0, 0, false, false)
      else if k == 2 then Corner(1, 1, 0, false, true) else Corner(1, 1, 1, true, true)
  }

  function CornerPosition(q: Quad, k: nat): seq<int>
    requires k < 4
  {
    var c := CornerAt(q.face, k);
    [q.x + c.dx, q.y + c.dy, q.z + c.dz]
  }

  function CornerTexcoord(q: Quad, uv: UVRect, k: nat): seq<real>
    requires k < 4
  {
    var c := CornerAt(q.face, k);
    [if c.uHigh then uv.u1 else uv.u0, if c.vHigh then uv.v1 else uv.v0]
  }

  function QuadPositions(q: Quad): seq<int>
  {
    CornerPosition(q, 0) + CornerPosition(q, 1) + CornerPosition(q, 2) + CornerPosition(q, 3)
  }

  function QuadNormals(q: Quad): seq<int>
  {
    var n := [q.normal.x, q.normal.y, q.normal.z];
    n + n + n + n
  }

  function QuadTexcoords(q: Quad, uv: UVRect): seq<real>
  {
    CornerTexcoord(q, uv, 0) + CornerTexcoord(q, uv, 1) + CornerTexcoord(q, uv, 2) + CornerTexcoord(q, uv, 3)
  }

  function QuadColors(q: Quad): seq<real>
  {
    q.tint + q.tint + q.tint + q.tint
  }

  /** The two triangles of a quad whose first vertex is number base. */
  function QuadIndices(base: int): seq<int>
  {
    [base + 0, base + 1, base + 2, base + 2, base + 3, base + 0]
  }

  /** A mesh with one more quad, textured with the rectangle uv: four vertices and six
      indices that start at the current vertex count. */
  function AddQuad(m: MeshData, q: Quad, uv: UVRect): MeshData
  {
    MeshData(m.positions + QuadPositions(q), m.normals + QuadNormals(q),
             m.texcoords + QuadTexcoords(q, uv), m.colors + QuadColors(q),
             m.indices + QuadIndices(|m.positions| / 3))
  }

  /** The mesh of a list of quads, emitted in order, each textured with its tile's
      rectangle in the atlas. */
  function MeshOf(atlas: TextureAtlas, quads: seq<Quad>): MeshData
    requires atlas.Valid()
  {
    if quads == [] then EMPTY_MESH
    else
      var q := quads[|quads| - 1];
      AddQuad(MeshOf(atlas, quads[..|quads| - 1]), q, atlas.GetUVRect(q.tile))
  }

  lemma MeshOfSnoc(atlas: TextureAtlas, quads: seq<Quad>, q: Quad)
    requires atlas.Valid()
    ensures MeshOf(atlas, quads + [q]) == AddQuad(MeshOf(atlas, quads), q, atlas.GetUVRect(q.tile))
  {
    assert (quads + [q])[..|quads|] == quads;
  }

  /** Every quad adds 4 vertices of 3 position, 3 normal, 2 texture and 4 colour
      components, and 6 indices. */
  lemma {:induction false} MeshCounts(atlas: TextureAtlas, quads: seq<Quad>)
    requires atlas.Valid()
    ensures var m := MeshOf(atlas, quads);
      && |m.positions| == 12 * |quads| && |m.normals| == 12 * |quads|
      && |m.texcoords| == 8 * |quads| && |m.colors| == 16 * |quads|
      && |m.indices| == 6 * |quads|
  {
    if quads != [] {
      MeshCounts(atlas, quads[..|quads| - 1]);
    }
  }

  /** A mesh holding n quads: list lengths in step. */
  predicate HoldsQuads(m: MeshData, n: nat)
  {
    |m.positions| == |m.normals| == 12 * n && |m.texcoords| == 8 * n
    && |m.colors| == 16 * n && |m.indices| == 6 * n
  }

  /** The part of each list that belongs to quad i. */
  function QuadSlice(m: MeshData, n: nat, i: nat): MeshData
    requires HoldsQuads(m, n) && i < n
  {
    MeshData(m.positions[12 * i..12 * i + 12], m.normals[12 * i..12 * i + 12],
             m.texcoords[8 * i..8 * i + 8], m.colors[16 * i..16 * i + 16], m.indices[6 * i..6 * i + 6])
  }

  /** What one quad contributes when its first vertex is number base. */
  function QuadData(q: Quad, uv: UVRect, base: int): MeshData
  {
    MeshData(QuadPositions(q), QuadNormals(q), QuadTexcoords(q, uv), QuadColors(q), QuadIndices(base))
  }

  /** Quad i owns positions and normals 12i..12i+12, texture coordinates 8i..8i+8, colours
      16i..16i+16, and indices 6i..6i+6, which name its vertices 4i..4i+3. */
  lemma {:induction false} MeshSlices(atlas: TextureAtlas, quads: seq<Quad>, i: nat)
    requires atlas.Valid() && i < |quads|
    ensures HoldsQuads(MeshOf(atlas, quads), |quads|)
    ensures QuadSlice(MeshOf(atlas, quads), |quads|, i) == QuadData(quads[i], atlas.GetUVRect(quads[i].tile), 4 * i)
  {
    var init, last := quads[..|quads| - 1], quads[|quads| - 1];
    var m0 := MeshOf(atlas, init);
    var uv := atlas.GetUVRect(last.tile);
    MeshCounts(atlas, quads);
    MeshCounts(atlas, init);
    if i == |quads| - 1 {
      AddQuadTail(m0, |init|, last, uv);
    } else {
      MeshSlices(atlas, init, i);
      assert init[i] == quads[i];
      AddQuadKeeps(m0, |init|, last, uv, i);
    }
  }

  /** The quad added last owns the tail of every list. */
  lemma AddQuadTail(m: MeshData, n: nat, q: Quad, uv: UVRect)
    requires HoldsQuads(m, n)
    ensures HoldsQuads(AddQuad(m, q, uv), n + 1)
    ensures QuadSlice(AddQuad(m, q, uv), n + 1, n) == QuadData(q, uv, 4 * n)
  {
    SliceOfSuffix(m.positions, QuadPositions(q));
    SliceOfSuffix(m.normals, QuadNormals(q));
    SliceOfSuffix(m.texcoords, QuadTexcoords(q, uv));
    SliceOfSuffix(m.colors, QuadColors(q));
    SliceOfSuffix(m.indices, QuadIndices(|m.positions| / 3));
  }

  /** Adding a quad leaves the slices of the earlier quads as they were. */
  lemma AddQuadKeeps(m: MeshData, n: nat, q: Quad, uv: UVRect, i: nat)
    requires HoldsQuads(m, n) && i < n
    ensures HoldsQuads(AddQuad(m, q, uv), n + 1)
    ensures QuadSlice(AddQuad(m, q, uv), n + 1, i) == QuadSlice(m, n, i)
  {
    SliceOfPrefix(m.positions, QuadPositions(q), 12 * i, 12 * i + 12);
    SliceOfPrefix(m.normals, QuadNormals(q), 12 * i, 12 * i + 12);
    SliceOfPrefix(m.texcoords, QuadTexcoords(q, uv), 8 * i, 8 * i + 8);
    SliceOfPrefix(m.colors, QuadColors(q), 16 * i, 16 * i + 16);
    SliceOfPrefix(m.indices, QuadIndices(|m.positions| / 3), 6 * i, 6 * i + 6);
  }

  lemma SliceOfPrefix<T>(a: seq<T>, b: seq<T>, lo: nat, hi: nat)
    requires lo <= hi <= |a|
    ensures (a + b)[lo..hi] == a[lo..hi]
  {
  }

  lemma SliceOfSuffix<T>(a: seq<T>, b: seq<T>)
    ensures (a + b)[|a|..|a| + |b|] == b
  {
  }

  /** Every index names an existing vertex. */
  lemma {:induction false} IndicesInRange(atlas: TextureAtlas, quads: seq<Quad>)
    requires atlas.Valid()
    ensures forall j | 0 <= j < |MeshOf(atlas, quads).indices| ::
      0 <= MeshOf(atlas, quads).indices[j] < 4 * |quads|
  {
    if quads != [] {
      var init := quads[..|quads| - 1];
      IndicesInRange(atlas, init);
      MeshCounts(atlas, init);
    }
  }

  // ---------------------------------------------------------------------------
  // Corner geometry

  /** The corners of a face are corners of the unit cell lying in the face's plane, and
      they take the four corners of the UV rectangle, one each. */
  lemma CornersOnFace(face: Face, k: nat)
    requires k < 4
    ensures var c := CornerAt(face, k);
      var d := Direction(face);
      && 0 <= c.dx <= 1 && 0 <= c.dy <= 1 && 0 <= c.dz <= 1
      && (d.x == 1 ==> c.dx == 1) && (d.x == -1 ==> c.dx == 0)
      && (d.y == 1 ==> c.dy == 1) && (d.y == -1 ==> c.dy == 0)
      && (d.z == 1 ==> c.dz == 1) && (d.z == -1 ==> c.dz == 0)
    ensures forall j | 0 <= j < 4 && j != k ::
      (CornerAt(face, j).uHigh, CornerAt(face, j).vHigh) != (CornerAt(face, k).uHigh, CornerAt(face, k).vHigh)
  {
  }

  /** On the four side faces the texture stands upright: a corner takes the high v exactly
      when it is at the top of the cell. */
  lemma SideTexturesUpright(face: Face, k: nat)
    requires k < 4 && Direction(face).y == 0
    ensures CornerAt(face, k).vHigh <==> CornerAt(face, k).dy == 1
  {
  }

  // ---------------------------------------------------------------------------
  // The voxel grid and the quads it produces

  /** A width x height x depth grid of block ids, as layers (z) of rows (y) of cells (x). */
  datatype Grid = Grid(width: nat, height: nat, depth: nat, cells: seq<seq<seq<int>>>)

  predicate WellFormed(g: Grid)
  {
    && |g.cells| == g.depth
    && (forall z | 0 <= z < g.depth :: |g.cells[z]| == g.height)
    && (forall z, y | 0 <= z < g.depth && 0 <= y < g.height :: |g.cells[z][y]| == g.width)
  }

  predicate InGrid(g: Grid, x: int, y: int, z: int)
  {
    0 <= x < g.width && 0 <= y < g.height && 0 <= z < g.depth
  }

  /** The flat index of a cell inside a width x height x depth block lies inside it. */
  lemma IdxInRange(width: nat, height: nat, depth: nat, x: nat, y: nat, z: nat)
    requires x < width && y < height && z < depth
    ensures x + y * width + z * width * height < width * height * depth
  {
    var w, h, d := width, height, depth;
    MulMono(y, h - 1, w);
    assert x + y * w < w * h by {
      assert (h - 1) * w + w == w * h;
    }
    assert z * w * h == z * (w * h);
    MulMono(z, d - 1, w * h);
    assert (d - 1) * (w * h) + w * h == w * h * d;
  }

  /** Where cell (x, y, z) sits in a flat array: a whole plane of width x height cells per
      layer below it, a row of width cells per row below it, then x. */
  function Offset(width: nat, height: nat, x: nat, y: nat, z: nat): nat
    decreases z, y
  {
    if z > 0 then Offset(width, height, x, y, z - 1) + width * height
    else if y > 0 then Offset(width, height, x, y - 1, 0) + width
    else x
  }

  lemma MulAssoc(a: int, b: int, c: int)
    ensures a * b * c == a * (b * c)
  {
  }

  lemma MulSucc(a: int, b: int)
    ensures (a + 1) * b == a * b + b
  {
  }

  lemma {:induction false} OffsetIsFlatIndex(width: nat, height: nat, x: nat, y: nat, z: nat)
    ensures Offset(width, height, x, y, z) == x + y * width + z * width * height
    decreases z, y
  {
    if z > 0 {
      OffsetIsFlatIndex(width, height, x, y, z - 1);
      MulAssoc(z - 1, width, height);
      MulAssoc(z, width, height);
      MulSucc(z - 1, width * height);
    } else if y > 0 {
      OffsetIsFlatIndex(width, height, x, y - 1, 0);
    }
  }

  lemma OffsetInRange(width: nat, height: nat, depth: nat, x: nat, y: nat, z: nat)
    requires x < width && y < height && z < depth
    ensures Offset(width, height, x, y, z) < width * height * depth
  {
    OffsetIsFlatIndex(width, height, x, y, z);
    IdxInRange(width, height, depth, x, y, z);
  }

  /** Cells x < n of row y of layer z, read from a flat voxel list. */
  function GridRow(voxels: seq<int>, width: nat, height: nat, depth: nat, y: nat, z: nat, n: nat): (row: seq<int>)
    requires |voxels| >= width * height * depth && y < height && z < depth && n <= width
    ensures |row| == n
  {
    if n == 0 then []
    else
      OffsetInRange(width, height, depth, n - 1, y, z);
      GridRow(voxels, width, height, depth, y, z, n - 1) + [voxels[Offset(width, height, n - 1, y, z)]]
  }

  /** Rows y < n of layer z. */
  function GridLayer(voxels: seq<int>, width: nat, height: nat, depth: nat, z: nat, n: nat): (rows: seq<seq<int>>)
    requires |voxels| >= width * height * depth && z < depth && n <= height
    ensures |rows| == n && forall y | 0 <= y < n :: |rows[y]| == width
  {
    if n == 0 then []
    else GridLayer(voxels, width, height, depth, z, n - 1) + [GridRow(voxels, width, height, depth, n - 1, z, width)]
  }

  /** Layers z < n. */
  function GridLayers(voxels: seq<int>, width: nat, height: nat, depth: nat, n: nat): (layers: seq<seq<seq<int>>>)
    requires |voxels| >= width * height * depth && n <= depth
    ensures |layers| == n
    ensures forall z | 0 <= z < n :: |layers[z]| == height
    ensures forall z, y | 0 <= z < n && 0 <= y < height :: |layers[z][y]| == width
  {
    if n == 0 then []
    else GridLayers(voxels, width, height, depth, n - 1) + [GridLayer(voxels, width, height, depth, n - 1, height)]
  }

  /** The grid a flat voxel array holds, x fastest, then y, then z. */
  function GridOf(width: nat, height: nat, depth: nat, voxels: seq<int>): (g: Grid)
    requires |voxels| >= width * height * depth
    ensures WellFormed(g) && g.width == width && g.height == height && g.depth == depth
  {
    Grid(width, height, depth, GridLayers(voxels, width, height, depth, depth))
  }

  lemma {:induction false} GridRowAt(voxels: seq<int>, width: nat, height: nat, depth: nat, x: nat, y: nat, z: nat, n: nat)
    requires |voxels| >= width * height * depth && y < height && z < depth && n <= width && x < n
    ensures Offset(width, height, x, y, z) < |voxels|
    ensures GridRow(voxels, width, height, depth, y, z, n)[x] == voxels[Offset(width, height, x, y, z)]
  {
    OffsetInRange(width, height, depth, x, y, z);
    if x < n - 1 {
      GridRowAt(voxels, width, height, depth, x, y, z, n - 1);
    }
  }

  lemma {:induction false} GridLayerAt(voxels: seq<int>, width: nat, height: nat, depth: nat, y: nat, z: nat, n: nat)
    requires |voxels| >= width * height * depth && z < depth && n <= height && y < n
    ensures GridLayer(voxels, width, height, depth, z, n)[y] == GridRow(voxels, width, height, depth, y, z, width)
  {
    if y < n - 1 {
      GridLayerAt(voxels, width, height, depth, y, z, n - 1);
    }
  }

  lemma {:induction false} GridLayersAt(voxels: seq<int>, width: nat, height: nat, depth: nat, z: nat, n: nat)
    requires |voxels| >= width * height * depth && n <= depth && z < n
    ensures GridLayers(voxels, width, height, depth, n)[z] == GridLayer(voxels, width, height, depth, z, height)
  {
    if z < n - 1 {
      GridLayersAt(voxels, width, height, depth, z, n - 1);
    }
  }

  /** Cell (x, y, z) of the grid of a flat array is element x + y * width + z * width * height. */
  lemma GridOfAt(width: nat, height: nat, depth: nat, voxels: seq<int>, x: nat, y: nat, z: nat)
    requires |voxels| >= width * height * depth && x < width && y < height && z < depth
    ensures Offset(width, height, x, y, z) == x + y * width + z * width * height < |voxels|
    ensures GridOf(width, height, depth, voxels).cells[z][y][x] == voxels[x + y * width + z * width * height]
  {
    GridLayersAt(voxels, width, height, depth, z, depth);
    GridLayerAt(voxels, width, height, depth, y, z, height);
    GridRowAt(voxels, width, height, depth, x, y, z, width);
    OffsetIsFlatIndex(width, height, x, y, z);
  }

  /** g is the grid view of the flat array voxels: cell (x, y, z) is the element at
      Offset(width, height, x, y, z). */
  ghost predicate Holds(g: Grid, width: nat, height: nat, depth: nat, voxels: seq<int>)
  {
    && WellFormed(g) && g.width == width && g.height == height && g.depth == depth
    && |voxels| >= width * height * depth
    && forall x, y, z {:trigger Offset(width, height, x, y, z)} | InGrid(g, x, y, z) ::
         Offset(width, height, x, y, z) < |voxels| &&
         g.cells[z][y][x] == voxels[Offset(width, height, x, y, z)]
  }

  lemma GridOfHolds(width: nat, height: nat, depth: nat, voxels: seq<int>)
    requires |voxels| >= width * height * depth
    ensures Holds(GridOf(width, height, depth, voxels), width, height, depth, voxels)
  {
    var g := GridOf(width, height, depth, voxels);
    forall x, y, z | InGrid(g, x, y, z)
      ensures Offset(width, height, x, y, z) < |voxels|
      ensures g.cells[z][y][x] == voxels[Offset(width, height, x, y, z)]
    {
      GridLayersAt(voxels, width, height, depth, z, depth);
      GridLayerAt(voxels, width, height, depth, y, z, height);
      GridRowAt(voxels, width, height, depth, x, y, z, width);
    }
  }

  /** The block id of cell (x, y, z), read from the flat voxel array. */
  method VoxelAt(voxels: array<int>, width: nat, height: nat, depth: nat, x: nat, y: nat, z: nat, ghost g: Grid)
    returns (id: int)
    requires Holds(g, width, height, depth, voxels[..]) && x < width && y < height && z < depth
    ensures id == g.cells[z][y][x]
  {
    OffsetIsFlatIndex(width, height, x, y, z);
    id := voxels[x + y * width + z * width * height];
  }

  /** isEmpty: true outside the grid, otherwise whether the cell holds air. */
  method IsEmptyAt(voxels: array<int>, width: nat, height: nat, depth: nat, x: int, y: int, z: int, ghost g: Grid)
    returns (empty: bool)
    requires Holds(g, width, height, depth, voxels[..])
    ensures empty == IsEmpty(g, x, y, z)
  {
    if x < 0 || y < 0 || z < 0 || x >= width || y >= height || z >= depth {
      return true;
    }
    var id := VoxelAt(voxels, width, height, depth, x, y, z, g);
    return id == 0;
  }

  function CellId(g: Grid, x: int, y: int, z: int): int
    requires WellFormed(g) && InGrid(g, x, y, z)
  {
    g.cells[z][y][x]
  }

  /** isEmpty: a cell outside the grid, or one holding air (0). */
  predicate IsEmpty(g: Grid, x: int, y: int, z: int)
    requires WellFormed(g)
  {
    !InGrid(g, x, y, z) || CellId(g, x, y, z) == 0
  }

  /** A cell the mesher draws: not air, registered, and fully constructed. */
  predicate SolidAt(g: Grid, blocks: map<int, Block>, x: int, y: int, z: int)
    requires WellFormed(g) && InGrid(g, x, y, z)
  {
    var id := CellId(g, x, y, z);
    id != 0 && id in blocks && blocks[id].look.Simple?
  }

  /** A cell on which the source throws a NullPointerException: its block is registered
      but its constructor never finished, so it has no tint. */
  predicate BrokenAt(g: Grid, blocks: map<int, Block>, x: int, y: int, z: int)
    requires WellFormed(g) && InGrid(g, x, y, z)
  {
    var id := CellId(g, x, y, z);
    id != 0 && id in blocks && blocks[id].look.Unfinished?
  }

  /** The quad for one face of a solid cell. */
  function FaceQuadAt(g: Grid, blocks: map<int, Block>, x: int, y: int, z: int, face: Face): Quad
    requires WellFormed(g) && InGrid(g, x, y, z) && SolidAt(g, blocks, x, y, z)
  {
    var look := blocks[CellId(g, x, y, z)].look;
    Quad(x, y, z, face, Direction(face), look.perFaceTile[Ordinal(face)], look.tint)
  }

  /** Whether the face of a cell is exposed: the neighbour across it is empty. */
  predicate Exposed(g: Grid, x: int, y: int, z: int, face: Face)
    requires WellFormed(g)
  {
    var d := Direction(face);
    IsEmpty(g, x + d.x, y + d.y, z + d.z)
  }

  function FaceQuads(g: Grid, blocks: map<int, Block>, x: int, y: int, z: int, face: Face): seq<Quad>
    requires WellFormed(g) && InGrid(g, x, y, z) && SolidAt(g, blocks, x, y, z)
  {
    if Exposed(g, x, y, z, face) then [FaceQuadAt(g, blocks, x, y, z, face)] else []
  }

  /** The quads of one cell: its exposed faces in ordinal order, or none. */
  function CellQuads(g: Grid, blocks: map<int, Block>, x: int, y: int, z: int): seq<Quad>
    requires WellFormed(g) && InGrid(g, x, y, z)
  {
    if !SolidAt(g, blocks, x, y, z) then []
    else
      FaceQuads(g, blocks, x, y, z, North) + FaceQuads(g, blocks, x, y, z, South)
      + FaceQuads(g, blocks, x, y, z, Bottom) + FaceQuads(g, blocks, x, y, z, Top)
      + FaceQuads(g, blocks, x, y, z, West) + FaceQuads(g, blocks, x, y, z, East)
  }

  /** The quads of every cell, as layers (z) of rows (y) of cells (x). */
  type Table = seq<seq<seq<seq<Quad>>>>

  /** Every quad listed for a cell sits at that cell. */
  predicate Placed(t: Table)
  {
    forall z, y, x, q | 0 <= z < |t| && 0 <= y < |t[z]| && 0 <= x < |t[z][y]| && q in t[z][y][x] ::
      q.x == x && q.y == y && q.z == z
  }

  /** The quads of cells x < n of row y of layer z. */
  function RowQuads(t: Table, y: int, z: int, n: nat): seq<Quad>
    requires 0 <= z < |t| && 0 <= y < |t[z]| && n <= |t[z][y]|
  {
    if n == 0 then [] else RowQuads(t, y, z, n - 1) + t[z][y][n - 1]
  }

  /** The quads of rows y < n of layer z. */
  function LayerQuads(t: Table, z: int, n: nat): seq<Quad>
    requires 0 <= z < |t| && n <= |t[z]|
  {
    if n == 0 then [] else LayerQuads(t, z, n - 1) + RowQuads(t, n - 1, z, |t[z][n - 1]|)
  }

  /** The quads of layers z < n, in the mesher's z, y, x order. */
  function GridQuads(t: Table, n: nat): seq<Quad>
    requires n <= |t|
  {
    if n == 0 then [] else GridQuads(t, n - 1) + LayerQuads(t, n - 1, |t[n - 1]|)
  }

  lemma {:induction false} RowQuadsMembers(t: Table, y: int, z: int, n: nat, q: Quad)
    requires Placed(t) && 0 <= z < |t| && 0 <= y < |t[z]| && n <= |t[z][y]|
    ensures q in RowQuads(t, y, z, n) <==> (q.y == y && q.z == z && 0 <= q.x < n && q in t[z][y][q.x])
  {
    if n > 0 {
      RowQuadsMembers(t, y, z, n - 1, q);
    }
  }

  lemma {:induction false} LayerQuadsMembers(t: Table, z: int, n: nat, q: Quad)
    requires Placed(t) && 0 <= z < |t| && n <= |t[z]|
    ensures q in LayerQuads(t, z, n) <==>
      (q.z == z && 0 <= q.y < n && 0 <= q.x < |t[z][q.y]| && q in t[z][q.y][q.x])
  {
    if n > 0 {
      LayerQuadsMembers(t, z, n - 1, q);
      RowQuadsMembers(t, n - 1, z, |t[z][n - 1]|, q);
    }
  }

  lemma {:induction false} GridQuadsMembers(t: Table, n: nat, q: Quad)
    requires Placed(t) && n <= |t|
    ensures q in GridQuads(t, n) <==>
      (0 <= q.z < n && 0 <= q.y < |t[q.z]| && 0 <= q.x < |t[q.z][q.y]| && q in t[q.z][q.y][q.x])
  {
    if n > 0 {
      GridQuadsMembers(t, n - 1, q);
      LayerQuadsMembers(t, n - 1, |t[n - 1]|, q);
    }
  }

  /** The quads of cells x < n of row y of layer z. */
  function TableCells(g: Grid, blocks: map<int, Block>, y: int, z: int, n: nat)
    : (cells: seq<seq<Quad>>)
    requires WellFormed(g) && 0 <= y < g.height && 0 <= z < g.depth && n <= g.width
    ensures |cells| == n
  {
    if n == 0 then [] else TableCells(g, blocks, y, z, n - 1) + [CellQuads(g, blocks, n - 1, y, z)]
  }

  /** The cell quads of rows y < n of layer z. */
  function TableRows(g: Grid, blocks: map<int, Block>, z: int, n: nat)
    : (rows: seq<seq<seq<Quad>>>)
    requires WellFormed(g) && 0 <= z < g.depth && n <= g.height
    ensures |rows| == n && forall y | 0 <= y < n :: |rows[y]| == g.width
  {
    if n == 0 then [] else TableRows(g, blocks, z, n - 1) + [TableCells(g, blocks, n - 1, z, g.width)]
  }

  /** The cell quads of layers z < n. */
  function TableLayers(g: Grid, blocks: map<int, Block>, n: nat): (t: Table)
    requires WellFormed(g) && n <= g.depth
    ensures |t| == n
    ensures forall z | 0 <= z < n :: |t[z]| == g.height
    ensures forall z, y | 0 <= z < n && 0 <= y < g.height :: |t[z][y]| == g.width
  {
    if n == 0 then [] else TableLayers(g, blocks, n - 1) + [TableRows(g, blocks, n - 1, g.height)]
  }

  /** The table of a grid: each cell's quads, as layers of rows of cells. */
  function CellTable(g: Grid, blocks: map<int, Block>): (t: Table)
    requires WellFormed(g)
    ensures |t| == g.depth
    ensures forall z | 0 <= z < g.depth :: |t[z]| == g.height
    ensures forall z, y | 0 <= z < g.depth && 0 <= y < g.height :: |t[z][y]| == g.width
  {
    TableLayers(g, blocks, g.depth)
  }

  lemma {:induction false} TableCellsAt(g: Grid, blocks: map<int, Block>,
                                        x: int, y: int, z: int, n: nat)
    requires WellFormed(g) && 0 <= y < g.height && 0 <= z < g.depth && n <= g.width
    requires 0 <= x < n
    ensures TableCells(g, blocks, y, z, n)[x] == CellQuads(g, blocks, x, y, z)
  {
    if x < n - 1 {
      TableCellsAt(g, blocks, x, y, z, n - 1);
    }
  }

  lemma {:induction false} TableRowsAt(g: Grid, blocks: map<int, Block>,
                                       y: int, z: int, n: nat)
    requires WellFormed(g) && 0 <= z < g.depth && n <= g.height && 0 <= y < n
    ensures TableRows(g, blocks, z, n)[y] == TableCells(g, blocks, y, z, g.width)
  {
    if y < n - 1 {
      TableRowsAt(g, blocks, y, z, n - 1);
    }
  }

  lemma {:induction false} TableLayersAt(g: Grid, blocks: map<int, Block>, z: int, n: nat)
    requires WellFormed(g) && n <= g.depth && 0 <= z < n
    ensures TableLayers(g, blocks, n)[z] == TableRows(g, blocks, z, g.height)
  {
    if z < n - 1 {
      TableLayersAt(g, blocks, z, n - 1);
    }
  }

  lemma CellTableAt(g: Grid, blocks: map<int, Block>, x: int, y: int, z: int)
    requires WellFormed(g) && InGrid(g, x, y, z)
    ensures CellTable(g, blocks)[z][y][x] == CellQuads(g, blocks, x, y, z)
  {
    TableLayersAt(g, blocks, z, g.depth);
    TableRowsAt(g, blocks, y, z, g.height);
    TableCellsAt(g, blocks, x, y, z, g.width);
  }

  lemma CellTablePlaced(g: Grid, blocks: map<int, Block>)
    requires WellFormed(g)
    ensures Placed(CellTable(g, blocks))
  {
    var t := CellTable(g, blocks);
    forall z: int, y: int, x: int, q: Quad | 0 <= z < |t| && 0 <= y < |t[z]| && 0 <= x < |t[z][y]| && q in t[z][y][x]
      ensures q.x == x && q.y == y && q.z == z
    {
      CellTableAt(g, blocks, x, y, z);
      CellQuadsAt(g, blocks, x, y, z, q);
    }
  }

  /** t lists the quads of every cell of the grid. */
  ghost predicate TableOf(t: Table, g: Grid, blocks: map<int, Block>)
    requires WellFormed(g)
  {
    && |t| == g.depth
    && (forall z | 0 <= z < g.depth :: |t[z]| == g.height)
    && (forall z, y | 0 <= z < g.depth && 0 <= y < g.height :: |t[z][y]| == g.width)
    && forall x, y, z {:trigger CellQuads(g, blocks, x, y, z)} | InGrid(g, x, y, z) ::
         t[z][y][x] == CellQuads(g, blocks, x, y, z)
  }

  lemma CellTableIsTableOf(g: Grid, blocks: map<int, Block>)
    requires WellFormed(g)
    ensures TableOf(CellTable(g, blocks), g, blocks)
  {
    forall x, y, z | InGrid(g, x, y, z)
      ensures CellTable(g, blocks)[z][y][x] == CellQuads(g, blocks, x, y, z)
    {
      CellTableAt(g, blocks, x, y, z);
    }
  }

  /** Every quad the mesher emits for a grid, in emission order. */
  function MeshQuads(g: Grid, blocks: map<int, Block>): seq<Quad>
    requires WellFormed(g)
  {
    GridQuads(CellTable(g, blocks), g.depth)
  }

  // ---------------------------------------------------------------------------
  // What the emitted quads are

  /** A cell's quads are exactly the quads of its exposed faces, if it is solid. */
  lemma FaceQuadsMembers(g: Grid, blocks: map<int, Block>, x: int, y: int, z: int,
                         face: Face, q: Quad)
    requires WellFormed(g) && InGrid(g, x, y, z) && SolidAt(g, blocks, x, y, z)
    ensures q in FaceQuads(g, blocks, x, y, z, face) <==>
      (q.face == face && Exposed(g, x, y, z, face) && q == FaceQuadAt(g, blocks, x, y, z, face))
  {
  }

  lemma CellQuadsMembers(g: Grid, blocks: map<int, Block>, x: int, y: int, z: int, q: Quad)
    requires WellFormed(g) && InGrid(g, x, y, z)
    ensures q in CellQuads(g, blocks, x, y, z) <==>
      (SolidAt(g, blocks, x, y, z) && Exposed(g, x, y, z, q.face)
       && q == FaceQuadAt(g, blocks, x, y, z, q.face))
  {
    if SolidAt(g, blocks, x, y, z) {
      FaceQuadsMembers(g, blocks, x, y, z, North, q);
      FaceQuadsMembers(g, blocks, x, y, z, South, q);
      FaceQuadsMembers(g, blocks, x, y, z, Bottom, q);
      FaceQuadsMembers(g, blocks, x, y, z, Top, q);
      FaceQuadsMembers(g, blocks, x, y, z, West, q);
      FaceQuadsMembers(g, blocks, x, y, z, East, q);
    }
  }

  /** Every quad of a cell sits at that cell. */
  lemma CellQuadsAt(g: Grid, blocks: map<int, Block>, x: int, y: int, z: int, q: Quad)
    requires WellFormed(g) && InGrid(g, x, y, z)
    requires q in CellQuads(g, blocks, x, y, z)
    ensures q.x == x && q.y == y && q.z == z
  {
    CellQuadsMembers(g, blocks, x, y, z, q);
  }

  /** Face culling, both ways: the mesh has a quad for a face of a cell exactly when the
      cell is solid and the neighbour across that face is empty (outside the grid counts
      as empty); every quad's normal is its face's direction. */
  lemma FaceEmittedIffExposed(g: Grid, blocks: map<int, Block>, q: Quad)
    requires WellFormed(g)
    ensures q in MeshQuads(g, blocks) <==>
      (InGrid(g, q.x, q.y, q.z) && SolidAt(g, blocks, q.x, q.y, q.z) && Exposed(g, q.x, q.y, q.z, q.face)
       && q == FaceQuadAt(g, blocks, q.x, q.y, q.z, q.face))
    ensures q in MeshQuads(g, blocks) ==> q.normal == Direction(q.face)
  {
    var t := CellTable(g, blocks);
    CellTablePlaced(g, blocks);
    GridQuadsMembers(t, g.depth, q);
    if InGrid(g, q.x, q.y, q.z) {
      CellTableAt(g, blocks, q.x, q.y, q.z);
      CellQuadsMembers(g, blocks, q.x, q.y, q.z, q);
    }
  }

  /** A solid cell with all six neighbours empty contributes a whole cube: 6 quads,
      24 vertices and 36 indices. */
  lemma LoneCellIsCube(g: Grid, blocks: map<int, Block>, atlas: TextureAtlas, x: int, y: int, z: int)
    requires atlas.Valid() && WellFormed(g) && InGrid(g, x, y, z) && SolidAt(g, blocks, x, y, z)
    requires forall f: Face :: Exposed(g, x, y, z, f)
    ensures |CellQuads(g, blocks, x, y, z)| == 6
    ensures |MeshOf(atlas, CellQuads(g, blocks, x, y, z)).positions| == 3 * 24
    ensures |MeshOf(atlas, CellQuads(g, blocks, x, y, z)).indices| == 36
  {
    assert Exposed(g, x, y, z, North) && Exposed(g, x, y, z, South) && Exposed(g, x, y, z, Bottom);
    assert Exposed(g, x, y, z, Top) && Exposed(g, x, y, z, West) && Exposed(g, x, y, z, East);
    MeshCounts(atlas, CellQuads(g, blocks, x, y, z));
  }

  /** A cell whose six neighbours are all inside the grid and not air contributes nothing. */
  lemma SurroundedCellHidden(g: Grid, blocks: map<int, Block>, x: int, y: int, z: int)
    requires WellFormed(g) && InGrid(g, x, y, z)
    requires forall f: Face :: !Exposed(g, x, y, z, f)
    ensures CellQuads(g, blocks, x, y, z) == []
  {
    if SolidAt(g, blocks, x, y, z) {
      assert !Exposed(g, x, y, z, North) && !Exposed(g, x, y, z, South) && !Exposed(g, x, y, z, Bottom);
      assert !Exposed(g, x, y, z, Top) && !Exposed(g, x, y, z, West) && !Exposed(g, x, y, z, East);
    }
  }

  /** A grid of a single solid cell meshes to one cube: 24 vertices and 36 indices. */
  lemma SingleBlockMesh(g: Grid, blocks: map<int, Block>, atlas: TextureAtlas)
    requires atlas.Valid() && WellFormed(g) && g.width == 1 && g.height == 1 && g.depth == 1
    requires SolidAt(g, blocks, 0, 0, 0)
    ensures |MeshOf(atlas, MeshQuads(g, blocks)).positions| == 3 * 24
    ensures |MeshOf(atlas, MeshQuads(g, blocks)).indices| == 36
  {
    forall f: Face ensures Exposed(g, 0, 0, 0, f) {
      var d := Direction(f);
      assert !InGrid(g, d.x, d.y, d.z);
    }
    LoneCellIsCube(g, blocks, atlas, 0, 0, 0);
    var t := CellTable(g, blocks);
    CellTableAt(g, blocks, 0, 0, 0);
    var cell := t[0][0][0];
    assert RowQuads(t, 0, 0, 1) == cell;
    assert LayerQuads(t, 0, 1) == cell;
    assert GridQuads(t, 1) == cell;
  }

  // ---------------------------------------------------------------------------
  // The mesher

  /** addVertex: appends one vertex: 3 position, 3 normal, 2 texture and 4 colour
      components; nothing else changes. */
  method AddVertex(m: MeshData, px: int, py: int, pz: int, nx: int, ny: int, nz: int,
                   u: real, v: real, tintRGBA: Tint) returns (m': MeshData)
    ensures m'.positions == m.positions + [px, py, pz]
    ensures m'.normals == m.normals + [nx, ny, nz]
    ensures m'.texcoords == m.texcoords + [u, v]
    ensures m'.colors == m.colors + tintRGBA
    ensures m'.indices == m.indices
  {
    var pos := m.positions + [px, py, pz];
    var norm := m.normals + [nx, ny, nz];
    var tex := m.texcoords + [u, v];
    var col := m.colors + [tintRGBA[0], tintRGBA[1], tintRGBA[2], tintRGBA[3]];
    m' := MeshData(pos, norm, tex, col, m.indices);
  }

  /** Four vertices appended in table order make up the quad's corners. */
  lemma FourCorners(m: MeshData, m': MeshData, q: Quad, uv: UVRect)
    requires m'.positions == m.positions + CornerPosition(q, 0) + CornerPosition(q, 1)
                             + CornerPosition(q, 2) + CornerPosition(q, 3)
    requires m'.texcoords == m.texcoords + CornerTexcoord(q, uv, 0) + CornerTexcoord(q, uv, 1)
                             + CornerTexcoord(q, uv, 2) + CornerTexcoord(q, uv, 3)
    requires var n := [q.normal.x, q.normal.y, q.normal.z];
      m'.normals == m.normals + n + n + n + n
    requires m'.colors == m.colors + q.tint + q.tint + q.tint + q.tint
    requires m'.indices == m.indices
    ensures m' == AddQuad(m, q, uv).(indices := m.indices)
  {
  }

  /** The vertex half of addFaceIfEmpty: the face's four corners in table order, each
      with the normal, its corner of the UV rectangle of the tile and the tint. */
  method AddCorners(m: MeshData, x: int, y: int, z: int, face: Face, nx: int, ny: int, nz: int,
                    u0: real, v0: real, u1: real, v1: real, tint: Tint, ghost tile: int) returns (m': MeshData)
    ensures m' == AddQuad(m, Quad(x, y, z, face, Vec(nx, ny, nz), tile, tint), UVRect(u0, v0, u1, v1))
                    .(indices := m.indices)
  {
    ghost var q := Quad(x, y, z, face, Vec(nx, ny, nz), tile, tint);
    ghost var uv := UVRect(u0, v0, u1, v1);
    m' := m;
    match face {
      case North =>
        m' := AddVertex(m', x + 1, y + 0, z + 0, nx, ny, nz, u1, v0, tint);
        m' := AddVertex(m', x + 0, y + 0, z + 0, nx, ny, nz, u0, v0, tint);
        m' := AddVertex(m', x + 0, y + 1, z + 0, nx, ny, nz, u0, v1, tint);
        m' := AddVertex(m', x + 1, y + 1, z + 0, nx, ny, nz, u1, v1, tint);
        FourCorners(m, m', q, uv);
      case South =>
        m' := AddVertex(m', x + 0, y + 0, z + 1, nx, ny, nz, u0, v0, tint);
        m' := AddVertex(m', x + 1, y + 0, z + 1, nx, ny, nz, u1, v0, tint);
        m' := AddVertex(m', x + 1, y + 1, z + 1, nx, ny, nz, u1, v1, tint);
        m' := AddVertex(m', x + 0, y + 1, z + 1, nx, ny, nz, u0, v1, tint);
        FourCorners(m, m', q, uv);
      case Bottom =>
        m' := AddVertex(m', x + 0, y + 0, z + 0, nx, ny, nz, u0, v0, tint);
        m' := AddVertex(m', x + 1, y + 0, z + 0, nx, ny, nz, u1, v0, tint);
        m' := AddVertex(m', x + 1, y + 0, z + 1, nx, ny, nz, u1, v1, tint);
        m' := AddVertex(m', x + 0, y + 0, z + 1, nx, ny, nz, u0, v1, tint);
        FourCorners(m, m', q, uv);
      case Top =>
        m' := AddVertex(m', x + 0, y + 1, z + 1, nx, ny, nz, u0, v0, tint);
        m' := AddVertex(m', x + 1, y + 1, z + 1, nx, ny, nz, u1, v0, tint);
        m' := AddVertex(m', x + 1, y + 1, z + 0, nx, ny, nz, u1, v1, tint);
        m' := AddVertex(m', x + 0, y + 1, z + 0, nx, ny, nz, u0, v1, tint);
        FourCorners(m, m', q, uv);
      case West =>
        m' := AddVertex(m', x + 0, y + 0, z + 0, nx, ny, nz, u1, v0, tint);
        m' := AddVertex(m', x + 0, y + 0, z + 1, nx, ny, nz, u0, v0, tint);
        m' := AddVertex(m', x + 0, y + 1, z + 1, nx, ny, nz, u0, v1, tint);
        m' := AddVertex(m', x + 0, y + 1, z + 0, nx, ny, nz, u1, v1, tint);
        FourCorners(m, m', q, uv);
      case East =>
        m' := AddVertex(m', x + 1, y + 0, z + 1, nx, ny, nz, u1, v0, tint);
        m' := AddVertex(m', x + 1, y + 0, z + 0, nx, ny, nz, u0, v0, tint);
        m' := AddVertex(m', x + 1, y + 1, z + 0, nx, ny, nz, u0, v1, tint);
        m' := AddVertex(m', x + 1, y + 1, z + 1, nx, ny, nz, u1, v1, tint);
        FourCorners(m, m', q, uv);
    }
  }

  /** The part of addFaceIfEmpty that runs for an exposed face: the face's four corners
      textured with the tile's rectangle, then the two triangles over them. */
  method EmitFace(m: MeshData, x: int, y: int, z: int, face: Face, nx: int, ny: int, nz: int,
                  atlas: TextureAtlas, tile: int, tint: Tint) returns (m': MeshData)
    requires atlas.Valid()
    ensures m' == AddQuad(m, Quad(x, y, z, face, Vec(nx, ny, nz), tile, tint), atlas.GetUVRect(tile))
  {
    var uv := atlas.GetUVRect(tile);
    var u0, v0, u1, v1 := uv.u0, uv.v0, uv.u1, uv.v1;
    var base := |m.positions| / 3;
    m' := AddCorners(m, x, y, z, face, nx, ny, nz, u0, v0, u1, v1, tint, tile);
    m' := m'.(indices := m'.indices + [base + 0, base + 1, base + 2, base + 2, base + 3, base + 0]);
  }

  /** addFaceIfEmpty, for a solid cell and the face's own normal: the mesh grows by the
      face's quad exactly when the neighbour across the face is empty (outside the grid
      counts as empty), and is unchanged otherwise. */
  method AddFaceIfEmpty(m: MeshData, x: int, y: int, z: int, voxels: array<int>, width: nat, height: nat,
                        depth: nat, face: Face, nx: int, ny: int, nz: int, block: Block, atlas: TextureAtlas,
                        tint: Tint, ghost g: Grid, ghost blocks: map<int, Block>,
                        ghost meshOf: seq<Quad> -> MeshData, ghost pre: seq<Quad>)
    returns (m': MeshData)
    requires Holds(g, width, height, depth, voxels[..])
    requires atlas.Valid() && InGrid(g, x, y, z) && SolidAt(g, blocks, x, y, z)
    requires block == blocks[CellId(g, x, y, z)] && tint == block.look.tint
    requires Vec(nx, ny, nz) == Direction(face)
    requires MeshFn(meshOf, atlas) && m == meshOf(pre)
    ensures m' == meshOf(pre + FaceQuads(g, blocks, x, y, z, face))
  {
    var dx, dy, dz := 0, 0, 0;
    match face {
      case North => dz := -1;
      case South => dz := 1;
      case Bottom => dy := -1;
      case Top => dy := 1;
      case West => dx := -1;
      case East => dx := 1;
    }
    m' := m;
    var empty := IsEmptyAt(voxels, width, height, depth, x + dx, y + dy, z + dz, g);
    if empty {
      var tile := block.TileForFace(face).value;
      m' := EmitFace(m, x, y, z, face, nx, ny, nz, atlas, tile, tint);
      ghost var q := FaceQuadAt(g, blocks, x, y, z, face);
      assert q == Quad(x, y, z, face, Vec(nx, ny, nz), tile, tint);
      assert Exposed(g, x, y, z, face);
      MeshFnSnoc(meshOf, atlas, pre, q);
    } else {
      assert !Exposed(g, x, y, z, face);
      assert pre + [] == pre;
    }
  }

  lemma Assoc6<T>(p: seq<T>, a: seq<T>, b: seq<T>, c: seq<T>, d: seq<T>, e: seq<T>, f: seq<T>)
    ensures p + a + b + c + d + e + f == p + (a + b + c + d + e + f)
  {
  }

  /** meshOf is MeshOf for this atlas. The loops of meshFromVoxels only pass the mesh
      along and never look inside it, so they are stated over meshOf; the link to MeshOf
      is made where a quad is actually added. */
  ghost predicate MeshFn(meshOf: seq<Quad> -> MeshData, atlas: TextureAtlas)
    requires atlas.Valid()
  {
    forall quads {:trigger MeshOf(atlas, quads)} :: meshOf(quads) == MeshOf(atlas, quads)
  }

  lemma MeshFnSnoc(meshOf: seq<Quad> -> MeshData, atlas: TextureAtlas, quads: seq<Quad>, q: Quad)
    requires atlas.Valid() && MeshFn(meshOf, atlas)
    ensures meshOf(quads + [q]) == AddQuad(meshOf(quads), q, atlas.GetUVRect(q.tile))
  {
    MeshOfSnoc(atlas, quads, q);
  }

  /** Which cells hold a block whose constructor threw. */
  type Flags = seq<seq<seq<bool>>>

  ghost function BrokenFlags(g: Grid, blocks: map<int, Block>): (k: Flags)
    requires WellFormed(g)
    ensures |k| == g.depth
  {
    seq(g.depth, z requires 0 <= z < g.depth =>
      seq(g.height, y requires 0 <= y < g.height =>
        seq(g.width, x requires 0 <= x < g.width => BrokenAt(g, blocks, x, y, z))))
  }

  /** k flags exactly the broken cells of g. */
  ghost predicate FlagsOf(k: Flags, g: Grid, blocks: map<int, Block>)
    requires WellFormed(g)
  {
    && |k| == g.depth
    && (forall z | 0 <= z < g.depth :: |k[z]| == g.height)
    && (forall z, y | 0 <= z < g.depth && 0 <= y < g.height :: |k[z][y]| == g.width)
    && forall x, y, z {:trigger BrokenAt(g, blocks, x, y, z)} | InGrid(g, x, y, z) ::
         k[z][y][x] == BrokenAt(g, blocks, x, y, z)
  }

  lemma BrokenFlagsOf(g: Grid, blocks: map<int, Block>)
    requires WellFormed(g)
    ensures FlagsOf(BrokenFlags(g, blocks), g, blocks)
  {
  }

  /** meshFromVoxels: visits the cells z-, y-, x-major and emits the exposed faces of
      every registered block; the mesh is exactly the one of the quad list MeshQuads.
      On a registered block whose constructor threw, the source dies with a
      NullPointerException; air and unregistered ids are skipped. */
  method MeshFromVoxels(width: nat, height: nat, depth: nat, voxels: array<int>, reg: Registry,
                        atlas: TextureAtlas) returns (r: Result<MeshData, string>)
    requires atlas.Valid() && voxels.Length >= width * height * depth
    ensures var g := GridOf(width, height, depth, voxels[..]);
      r.Failure? <==> exists x, y, z :: InGrid(g, x, y, z) && BrokenAt(g, reg.blocks, x, y, z)
    ensures r.Failure? ==> r.error == "NullPointerException"
    ensures r.Success? ==> r.value == MeshOf(atlas, MeshQuads(GridOf(width, height, depth, voxels[..]), reg.blocks))
  {
    ghost var g := GridOf(width, height, depth, voxels[..]);
    GridOfHolds(width, height, depth, voxels[..]);
    CellTableIsTableOf(g, reg.blocks);
    BrokenFlagsOf(g, reg.blocks);
    ghost var k := BrokenFlags(g, reg.blocks);
    ghost var meshOf := (quads: seq<Quad>) => MeshOf(atlas, quads);
    r := MeshLayers(width, height, depth, voxels, reg, atlas, g, CellTable(g, reg.blocks), k, meshOf);
    if r.Failure? {
      ghost var x, y, z :| 0 <= x < width && 0 <= y < height && 0 <= z < depth && k[z][y][x];
      assert k[z][y][x] == BrokenAt(g, reg.blocks, x, y, z);
    }
  }

  /** The outer loop of meshFromVoxels: the layers z = 0 .. depth - 1 in order. */
  method MeshLayers(width: nat, height: nat, depth: nat, voxels: array<int>, reg: Registry,
                    atlas: TextureAtlas, ghost g: Grid, ghost t: Table, ghost k: Flags,
                    ghost meshOf: seq<Quad> -> MeshData) returns (r: Result<MeshData, string>)
    requires atlas.Valid() && voxels.Length >= width * height * depth
    requires Holds(g, width, height, depth, voxels[..]) && TableOf(t, g, reg.blocks) && FlagsOf(k, g, reg.blocks)
    requires MeshFn(meshOf, atlas)
    ensures r.Failure? <==> exists x, y, z | 0 <= x < width && 0 <= y < height && 0 <= z < depth :: k[z][y][x]
    ensures r.Failure? ==> r.error == "NullPointerException"
    ensures r.Success? ==> r.value == meshOf(GridQuads(t, depth))
  {
    var m := EMPTY_MESH;
    assert meshOf([]) == MeshOf(atlas, []);
    for z := 0 to depth
      invariant m == meshOf(GridQuads(t, z))
      invariant forall x, y, z' | 0 <= x < width && 0 <= y < height && 0 <= z' < z :: !k[z'][y][x]
    {
      var layer := MeshLayer(m, z, width, height, depth, voxels, reg, atlas, g, t, k, meshOf, GridQuads(t, z));
      if layer.Failure? {
        return layer;
      }
      m := layer.value;
    }
    return Success(m);
  }

  /** The middle loop of meshFromVoxels: the rows y = 0 .. height - 1 of layer z. */
  method MeshLayer(m: MeshData, z: nat, width: nat, height: nat, depth: nat, voxels: array<int>,
                   reg: Registry, atlas: TextureAtlas, ghost g: Grid, ghost t: Table, ghost k: Flags,
                   ghost meshOf: seq<Quad> -> MeshData, ghost pre: seq<Quad>)
    returns (r: Result<MeshData, string>)
    requires atlas.Valid() && voxels.Length >= width * height * depth && z < depth
    requires Holds(g, width, height, depth, voxels[..]) && TableOf(t, g, reg.blocks) && FlagsOf(k, g, reg.blocks)
    requires MeshFn(meshOf, atlas)
    requires m == meshOf(pre)
    ensures r.Failure? <==> exists x, y | 0 <= x < width && 0 <= y < height :: k[z][y][x]
    ensures r.Failure? ==> r.error == "NullPointerException"
    ensures r.Success? ==> r.value == meshOf(pre + LayerQuads(t, z, height))
  {
    var m' := m;
    ghost var layer: seq<Quad> := [];
    assert pre + layer == pre;
    for y := 0 to height
      invariant m' == meshOf(pre + layer)
      invariant layer == LayerQuads(t, z, y)
      invariant forall x, y' | 0 <= x < width && 0 <= y' < y :: !k[z][y'][x]
    {
      var row := MeshRow(m', y, z, width, height, depth, voxels, reg, atlas, g, t, k, meshOf, pre + layer);
      if row.Failure? {
        return row;
      }
      m' := row.value;
      assert (pre + layer) + RowQuads(t, y, z, width) == pre + (layer + RowQuads(t, y, z, width));
      layer := layer + RowQuads(t, y, z, width);
    }
    return Success(m');
  }

  /** The innermost loop of meshFromVoxels: the cells of row y of layer z, x ascending. */
  method MeshRow(m: MeshData, y: nat, z: nat, width: nat, height: nat, depth: nat, voxels: array<int>,
                 reg: Registry, atlas: TextureAtlas, ghost g: Grid, ghost t: Table, ghost k: Flags,
                   ghost meshOf: seq<Quad> -> MeshData, ghost pre: seq<Quad>)
    returns (r: Result<MeshData, string>)
    requires atlas.Valid() && voxels.Length >= width * height * depth && y < height && z < depth
    requires Holds(g, width, height, depth, voxels[..]) && TableOf(t, g, reg.blocks) && FlagsOf(k, g, reg.blocks)
    requires MeshFn(meshOf, atlas)
    requires m == meshOf(pre)
    ensures r.Failure? <==> exists x | 0 <= x < width :: k[z][y][x]
    ensures r.Failure? ==> r.error == "NullPointerException"
    ensures r.Success? ==> r.value == meshOf(pre + RowQuads(t, y, z, width))
  {
    var m' := m;
    ghost var row: seq<Quad> := [];
    assert pre + row == pre;
    for x := 0 to width
      invariant m' == meshOf(pre + row)
      invariant row == RowQuads(t, y, z, x)
      invariant forall x' | 0 <= x' < x :: !k[z][y][x']
    {
      var step := MeshStep(m', x, y, z, width, height, depth, voxels, reg, atlas, g, t, k, meshOf, pre + row);
      if step.Failure? {
        return step;
      }
      m' := step.value;
      assert (pre + row) + t[z][y][x] == pre + (row + t[z][y][x]);
      row := row + t[z][y][x];
    }
    return Success(m');
  }

  /** The body of the innermost loop of meshFromVoxels, for cell (x, y, z): air and
      unregistered ids add nothing; a registered block without a tint throws; any other
      block adds its exposed faces. */
  method MeshStep(m: MeshData, x: nat, y: nat, z: nat, width: nat, height: nat, depth: nat, voxels: array<int>,
                  reg: Registry, atlas: TextureAtlas, ghost g: Grid, ghost t: Table, ghost k: Flags,
                   ghost meshOf: seq<Quad> -> MeshData, ghost pre: seq<Quad>)
    returns (r: Result<MeshData, string>)
    requires atlas.Valid() && voxels.Length >= width * height * depth && x < width && y < height && z < depth
    requires Holds(g, width, height, depth, voxels[..]) && TableOf(t, g, reg.blocks) && FlagsOf(k, g, reg.blocks)
    requires MeshFn(meshOf, atlas)
    requires m == meshOf(pre)
    ensures r.Failure? <==> k[z][y][x]
    ensures r.Failure? ==> r.error == "NullPointerException"
    ensures r.Success? ==> r.value == meshOf(pre + t[z][y][x])
  {
    assert k[z][y][x] == BrokenAt(g, reg.blocks, x, y, z);
    var blockId := VoxelAt(voxels, width, height, depth, x, y, z, g);
    if blockId == 0 {
      assert CellQuads(g, reg.blocks, x, y, z) == [];
      assert pre + [] == pre;
      return Success(m);
    }
    var block := reg.Get(blockId);
    if block.None? {
      assert CellQuads(g, reg.blocks, x, y, z) == [];
      assert pre + [] == pre;
      return Success(m);
    }
    var tint := block.value.TintRGBA();
    if tint.None? {
      return Failure("NullPointerException");
    }
    var m' := MeshCell(m, x, y, z, voxels, width, height, depth, block.value, atlas, tint.value, g, reg.blocks, meshOf, pre);
    return Success(m');
  }

  /** The six face calls the mesher makes for a solid cell, in ordinal order, each with its
      face's normal. */
  method MeshCell(m: MeshData, x: int, y: int, z: int, voxels: array<int>, width: nat, height: nat, depth: nat,
                  block: Block, atlas: TextureAtlas, tint: Tint, ghost g: Grid, ghost blocks: map<int, Block>,
                  ghost meshOf: seq<Quad> -> MeshData, ghost pre: seq<Quad>) returns (m': MeshData)
    requires Holds(g, width, height, depth, voxels[..])
    requires atlas.Valid() && InGrid(g, x, y, z) && SolidAt(g, blocks, x, y, z)
    requires block == blocks[CellId(g, x, y, z)] && tint == block.look.tint
    requires MeshFn(meshOf, atlas) && m == meshOf(pre)
    ensures m' == meshOf(pre + CellQuads(g, blocks, x, y, z))
  {
    ghost var fn := FaceQuads(g, blocks, x, y, z, North);
    ghost var fs := FaceQuads(g, blocks, x, y, z, South);
    ghost var fb := FaceQuads(g, blocks, x, y, z, Bottom);
    ghost var ft := FaceQuads(g, blocks, x, y, z, Top);
    ghost var fw := FaceQuads(g, blocks, x, y, z, West);
    ghost var fe := FaceQuads(g, blocks, x, y, z, East);
    m' := AddFaceIfEmpty(m, x, y, z, voxels, width, height, depth, North, 0, 0, -1, block, atlas, tint, g, blocks, meshOf, pre);
    m' := AddFaceIfEmpty(m', x, y, z, voxels, width, height, depth, South, 0, 0, 1, block, atlas, tint, g, blocks, meshOf, pre + fn);
    m' := AddFaceIfEmpty(m', x, y, z, voxels, width, height, depth, Bottom, 0, -1, 0, block, atlas, tint, g, blocks, meshOf, pre + fn + fs);
    m' := AddFaceIfEmpty(m', x, y, z, voxels, width, height, depth, Top, 0, 1, 0, block, atlas, tint, g, blocks, meshOf, pre + fn + fs + fb);
    m' := AddFaceIfEmpty(m', x, y, z, voxels, width, height, depth, West, -1, 0, 0, block, atlas, tint, g, blocks, meshOf, pre + fn + fs + fb + ft);
    m' := AddFaceIfEmpty(m', x, y, z, voxels, width, height, depth, East, 1, 0, 0, block, atlas, tint, g, blocks, meshOf, pre + fn + fs + fb + ft + fw);
    Assoc6(pre, fn, fs, fb, ft, fw, fe);
  }
}

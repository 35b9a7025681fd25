# Voxel world core, modelled in Dafny

This project models the voxel bookkeeping of a small Java voxel renderer, plus two
supporting pieces: the block-type tables and the integer side of the texture atlas.

- **Chunk** (`Chunks`): a 16×16×16 array of block ids indexed `x + 16y + 256z`. It has
  fixed chunk coordinates and a cached GPU mesh and model. The mesh is kept as the mesh
  data last applied, and the model as a flag. They are created and dropped together.
- **BlockSnapshot** (`Snapshots`): copies of voxel arrays keyed by `"cx,cy,cz"`. A world
  coordinate is read through floor division and floor remainder by 16, and a chunk the
  snapshot does not hold reads as air.
- **World** (`Worlds`): the resident chunk map, the dirty set, the saved voxel copies
  and the queue of unloaded chunks whose GPU resources are still to be freed. It covers
  load-or-generate, unload-with-save, the per-tick load/unload of the cube around the
  camera chunk, `setBlock` and `close`.
- **FlatWorldGenerator** (`FlatGenerator`): stone (id 2) below the ground height, air above.
- **ChunkMesher** (`Mesher`): the face-culling mesher. It walks the grid z, then y, then x.
  For each registered block it emits one quad per face whose neighbour is outside the grid
  or air. The output is five parallel lists.
- **Blocks, BlockRegistry, BlockFace** (`Blocks`, `BlockFaces`): the auto-incrementing id
  registry, the block constructors that register themselves, per-face tiles and tints,
  and the six faces with their ordinals and directions.
- **TextureAtlas** (`Atlas`), integer parts only: which files become tiles, tile names,
  the near-square grid layout, the centred copy of every image into its cell, the
  ARGB-to-RGBA bottom-up byte conversion of `uploadToGL`, tile-index clamping and lookup
  by name.
- **ResourceLoader** (`ResourceLoader`): the texture path of `readTexture` and the jar-entry
  filter of `listResources`.
- `Coords`, `Keys` and `Wrappers` hold what these share. `Coords` has the chunk size, the
  flat index and floor division. `Keys` has the decimal key `"cx,cy,cz"` and the proof
  that it is injective. `Wrappers` has the Option and Result types used for Java's
  `null` and exceptions.

Java exceptions are `Failure` results. This applies to the block constructors, the
atlas build, `readTexture`, and the `NullPointerException` the mesher raises on a
half-constructed block.

The world's maps are keyed by the chunk position triple. `Keys.KeyInjective` shows
that the source's string key determines the position, and `Worlds.SourceKeyed` rebuilds
the string-keyed map from the position-keyed one. `getVoxelData` hands out the live
array, so the model's `Chunk.voxels` is a `const` array field that World and the
generator write through.

Facts about the code that shape the model:

- The code's `World.setBlock` marks only the chunk it writes as dirty. It does not mark
  resident neighbours of a boundary cell.
- The code has no asynchronous meshing pipeline and no per-frame upload budget. Every
  operation is sequential.
- The code's mesher reads only its own grid, not a neighbour snapshot. Cells outside the grid
  count as empty.
- `Chunk.setBlock`/`getBlock` check nothing themselves. Only the flat index must fall
  inside the array, and a coordinate outside the cube addresses another cell.

## Model

| member | source | states |
|---|---|---|
| BlockFaces.Ordinal | src/main/java/org/jephacake/block/BlockFace.java:14-21 | a face's ordinal is below 6 and is its position in declaration order |
| BlockFaces.FaceOf | src/main/java/org/jephacake/block/BlockFace.java:14-21 | the face with a given ordinal has that ordinal |
| BlockFaces.OrdinalBijective | src/main/java/org/jephacake/block/BlockFace.java:14-21 | there are exactly six faces, and ordinals number them one-to-one |
| BlockFaces.Direction | src/main/java/org/jephacake/block/BlockFace.java:6-13 | every face direction is a unit vector along one axis |
| BlockFaces.Opposite | src/main/java/org/jephacake/block/BlockFace.java:6-13 | a face's opposite is a different face |
| BlockFaces.OppositeDirectionsCancel | src/main/java/org/jephacake/block/BlockFace.java:6-13 | the faces form opposite pairs whose directions sum to zero |
| BlockFaces.DirectionInjective | src/main/java/org/jephacake/block/BlockFace.java:6-13 | no two faces share a direction |
| Blocks.Block.TileForFace | src/main/java/org/jephacake/block/SimpleBlock.java:27-29 | getTileForFace returns the constructor's tile at the face ordinal, and fails exactly for a half-constructed block |
| Blocks.Block.TintRGBA | src/main/java/org/jephacake/block/SimpleBlock.java:32 | getTintRGBA returns a copy equal to the stored tint, and fails exactly for a half-constructed block |
| Blocks.Block.IsOpaque | src/main/java/org/jephacake/block/SimpleBlock.java:35 | only a fully constructed block can be opaque, and its constructor flag decides |
| Blocks.TintCopy | src/main/java/org/jephacake/block/SimpleBlock.java:22 | a null tint becomes white; otherwise the first four entries are kept and missing ones are 0 |
| Blocks.CubeTilesFaces | src/main/java/org/jephacake/block/SimpleBlock.java:14-16 | the convenience constructor shows top on TOP, bottom on BOTTOM and side on the four other faces |
| Blocks.Registry.constructor | src/main/java/org/jephacake/block/BlockRegistry.java:14-16 | the registry starts empty with counter 2 |
| Blocks.Registry.Register | src/main/java/org/jephacake/block/BlockRegistry.java:20-30 | null is rejected with no change; otherwise the block's id becomes the counter, it is added under it and the counter rises by one; the registry invariant makes the duplicate-id failure impossible |
| Blocks.Registry.Get | src/main/java/org/jephacake/block/BlockRegistry.java:32-33 | get/getOrNull find a block exactly for registered ids, and it is the registered one |
| Blocks.Registry.Contains | src/main/java/org/jephacake/block/BlockRegistry.java:34 | contains holds exactly when get finds a block |
| Blocks.Registry.Clear | src/main/java/org/jephacake/block/BlockRegistry.java:35 | clear empties the map and keeps the counter, so ids are never reused |
| Blocks.Registry.Init | src/main/java/org/jephacake/block/BlockRegistry.java:37-41 | init registers stone, dirt and grass under the next three ids, with their atlas tiles, white tint and opaque |
| Blocks.NewSimpleBlock | src/main/java/org/jephacake/block/SimpleBlock.java:18-24 | id <= 0 fails before registering; otherwise the block is registered under the counter first, and a missing or wrong-length tile array then fails and leaves a half-constructed block registered |
| Blocks.NewCubeBlock | src/main/java/org/jephacake/block/SimpleBlock.java:14-16 | the convenience constructor always succeeds and registers an opaque white cube under the next id |
| Coords.IndexInRange | src/main/java/org/jephacake/world/Chunk.java:21-23 | local coordinates in [0,16) give a flat index in [0, 4096) |
| Coords.IndexInjective | src/main/java/org/jephacake/world/Chunk.java:21-23 | distinct local coordinates give distinct flat indices |
| Coords.IndexDecompose | src/main/java/org/jephacake/world/Chunk.java:21-23 | every flat index in [0, 4096) is the index of one local coordinate |
| Coords.FloorDiv | src/main/java/org/jephacake/renderer/BlockSnapshot.java:29-31 | the chunk coordinate q satisfies q*16 <= w < q*16 + 16 |
| Coords.FloorMod | src/main/java/org/jephacake/renderer/BlockSnapshot.java:35-37 | the local coordinate lies in [0,16) and w == chunk*16 + local |
| Coords.LocalIndex | src/main/java/org/jephacake/renderer/BlockSnapshot.java:35-38 | the local flat index of any world coordinate lies in [0, 4096) |
| Coords.WorldSplit | src/main/java/org/jephacake/world/World.java:123-129 | w == c*16 + l with 0 <= l < 16 holds exactly for the floor quotient and remainder |
| Coords.MinusOneResolves | src/main/java/org/jephacake/renderer/BlockSnapshot.java:29-37 | world coordinate -1 lies in chunk -1 at local 15 |
| Keys.IntToString | src/main/java/org/jephacake/world/World.java:27-29 | the decimal text of a coordinate is non-empty and has no comma |
| Keys.ParseIntOfIntToString | src/main/java/org/jephacake/world/World.java:27-29 | the decimal text of every integer reads back as that integer |
| Keys.KeyInjective | src/main/java/org/jephacake/renderer/BlockSnapshot.java:17-19 | two chunk coordinates with the same key "cx,cy,cz" are equal |
| Chunks.Chunk.constructor | src/main/java/org/jephacake/world/Chunk.java:14-19 | a new chunk keeps its coordinates, has 4096 air cells and no mesh or model |
| Chunks.Chunk.GetBlock | src/main/java/org/jephacake/world/Chunk.java:30-32 | getBlock reads the cell the flat index names; with SetThenGet a read after setBlock returns the written id there and the old contents elsewhere |
| Chunks.Chunk.SetBlock | src/main/java/org/jephacake/world/Chunk.java:26-28 | setBlock replaces exactly the cell at the flat index |
| Chunks.SetThenGet | src/main/java/org/jephacake/world/Chunk.java:26-32 | reading after a set returns the new id at that coordinate and the old contents at every other |
| Chunks.Chunk.ApplyMeshData | src/main/java/org/jephacake/world/Chunk.java:48-64 | null or index-free data leaves no mesh and no model; other data becomes the mesh, and a new mesh and model are created only when none existed; mesh and model stay together |
| Chunks.Chunk.Close | src/main/java/org/jephacake/world/Chunk.java:69-76 | afterwards there is no mesh and no model, and a second call changes nothing |
| Snapshots.BlockAt | src/main/java/org/jephacake/renderer/BlockSnapshot.java:28-40 | getBlockGlobal fails only when the copy held for the chunk is shorter than a chunk |
| Snapshots.MissingChunkIsAir | src/main/java/org/jephacake/renderer/BlockSnapshot.java:33-34 | a coordinate in a chunk never put reads as 0 |
| Snapshots.WholeCopiesNeverFail | src/main/java/org/jephacake/renderer/BlockSnapshot.java:38-39 | when every copy has 4096 cells, every lookup is in bounds |
| Snapshots.PutThenGet | src/main/java/org/jephacake/renderer/BlockSnapshot.java:21-40 | after put(cx,cy,cz,v), world coordinate (cx*16+lx, cy*16+ly, cz*16+lz) reads v[lx + 16ly + 256lz] |
| Snapshots.SplitOf | src/main/java/org/jephacake/renderer/BlockSnapshot.java:29-37 | the world coordinate of local cell l of chunk c splits back into exactly c and l |
| Snapshots.PutKeepsOthers | src/main/java/org/jephacake/renderer/BlockSnapshot.java:17-23 | put for one chunk leaves every coordinate of every other chunk reading as before |
| Snapshots.BlockSnapshot.constructor | src/main/java/org/jephacake/renderer/BlockSnapshot.java:15 | a new snapshot holds no copies |
| Snapshots.BlockSnapshot.GetBlockGlobal | src/main/java/org/jephacake/renderer/BlockSnapshot.java:28-40 | reads the stored copies exactly as BlockAt does: a chunk the snapshot does not hold reads 0, and a failure happens only for a held chunk |
| Snapshots.BlockSnapshot.Put | src/main/java/org/jephacake/renderer/BlockSnapshot.java:21-23 | put replaces the entry under the chunk's key and keeps all others |
| FlatGenerator.FlatCell | src/main/java/org/jephacake/world/FlatWorldGenerator.java:17-22 | cell (x,y,z) is 2 exactly when cy*16 + y < groundHeight, and 0 otherwise |
| FlatGenerator.ColumnsAgree | src/main/java/org/jephacake/world/FlatWorldGenerator.java:15-22 | every (x,z) column of a generated chunk is the same |
| FlatGenerator.AllAirAbove | src/main/java/org/jephacake/world/FlatWorldGenerator.java:18-20 | if cy*16 >= groundHeight the chunk is all air |
| FlatGenerator.AllStoneBelow | src/main/java/org/jephacake/world/FlatWorldGenerator.java:18-20 | if cy*16 + 15 < groundHeight the chunk is all id 2 |
| FlatGenerator.FlatWorldGenerator.constructor | src/main/java/org/jephacake/world/FlatWorldGenerator.java:6-8 | the generator keeps its ground height |
| FlatGenerator.FlatWorldGenerator.GenerateChunk | src/main/java/org/jephacake/world/FlatWorldGenerator.java:11-27 | the new chunk carries (cx,cy,cz), has no mesh, and holds the flat terrain, which depends only on cy and the ground height |
| Worlds.KeysDistinguishPositions | src/main/java/org/jephacake/world/World.java:27-29 | distinct chunk positions have distinct string keys |
| Worlds.SourceKeyed | src/main/java/org/jephacake/world/World.java:10-15 | the source's string-keyed map holds each position's entry under its key and nothing else |
| Worlds.UnloadThenLoad | src/main/java/org/jephacake/world/World.java:58-81 | loading from a saved map just updated at a position returns the copy saved there; UnloadThenReload states the round trip on the methods |
| Worlds.NeverSavedIsGenerated | src/main/java/org/jephacake/world/World.java:58-66 | a chunk with no saved copy loads as the generator's terrain for its height |
| Worlds.PartsLoad | src/main/java/org/jephacake/world/World.java:68-71 | adding a new chunk under its own position keeps the world invariant |
| Worlds.PartsUnload | src/main/java/org/jephacake/world/World.java:74-81 | removing, saving and queueing a resident chunk keeps the world invariant |
| Worlds.ArrayCopy | src/main/java/org/jephacake/world/World.java:63 | System.arraycopy sets the first cells to the source and leaves the rest |
| Worlds.World.constructor | src/main/java/org/jephacake/world/World.java:19-25 | a new world has no resident, dirty, saved or pending chunks |
| Worlds.World.LoadOrGenerateChunk | src/main/java/org/jephacake/world/World.java:54-72 | a resident chunk is returned with no change; otherwise a new chunk with the saved copy or the generator's voxels becomes resident and dirty |
| Worlds.World.BuildChunk | src/main/java/org/jephacake/world/World.java:58-66 | a new chunk holds the saved copy when there is one and the generator's terrain otherwise |
| Worlds.World.UnloadThenReload | src/main/java/org/jephacake/world/World.java:58-81 | unloading a resident chunk and loading it again yields a new chunk with the voxels the old one had, saved under its position |
| Worlds.World.UnloadChunk | src/main/java/org/jephacake/world/World.java:74-81 | a resident chunk leaves the map, a copy of its voxels is saved under its position and it is queued; the dirty set is untouched; a non-resident position changes nothing |
| Worlds.World.SetBlock | src/main/java/org/jephacake/world/World.java:122-134 | the owning chunk is found by floor division and loaded if needed, only the floor-remainder cell changes, and only that chunk is added to the dirty set |
| Worlds.World.LoadAround | src/main/java/org/jephacake/world/World.java:89-95 | every position within renderDistance on each axis becomes resident; resident chunks are kept and new ones are loaded |
| Worlds.World.LoadSlab | src/main/java/org/jephacake/world/World.java:90-94 | one x-slab of the cube becomes resident |
| Worlds.World.LoadRow | src/main/java/org/jephacake/world/World.java:91-93 | one (x,y) row of the cube becomes resident |
| Worlds.World.UnloadFar | src/main/java/org/jephacake/world/World.java:97-107 | exactly the resident chunks outside the cube are unloaded, each saved with its contents and queued |
| Worlds.World.Reconcile | src/main/java/org/jephacake/world/World.java:88-107 | after the load and unload phases the resident set is exactly the (2r+1)³ cube around the camera chunk |
| Worlds.World.UpdateAndRender | src/main/java/org/jephacake/world/World.java:83-120 | after a tick the resident set is exactly the cube, chunks left behind are saved and closed, and the dirty set and pending queue are empty |
| Worlds.World.Close | src/main/java/org/jephacake/world/World.java:136-147 | every resident chunk's voxels are saved and its GPU resources freed, then the resident map and pending queue are emptied |
| Worlds.World.SaveAll | src/main/java/org/jephacake/world/World.java:138-141 | close's first loop saves and closes every resident chunk and changes no other saved copy |
| Worlds.World.SaveAndClose | src/main/java/org/jephacake/world/World.java:139-140 | one chunk's voxels are saved under its own key and its GPU resources freed |
| Worlds.World.ClosePending | src/main/java/org/jephacake/world/World.java:117-119 | every queued chunk is closed and the queue is emptied |
| Mesher.MeshCounts | src/main/java/org/jephacake/renderer/ChunkMesher.java:118-127 | n quads give 12n position, 12n normal, 8n texture, 16n colour components and 6n indices |
| Mesher.MeshSlices | src/main/java/org/jephacake/renderer/ChunkMesher.java:66-109 | quad i owns its own slice of every list, and its indices name vertices 4i..4i+3 in the order 0,1,2,2,3,0 |
| Mesher.IndicesInRange | src/main/java/org/jephacake/renderer/ChunkMesher.java:66-109 | every index is below the vertex count |
| Mesher.CornersOnFace | src/main/java/org/jephacake/renderer/ChunkMesher.java:68-104 | every corner lies in the unit cell on the face's plane, and the four corners take the four UV corners |
| Mesher.SideTexturesUpright | src/main/java/org/jephacake/renderer/ChunkMesher.java:68-104 | on side faces a corner takes the high v exactly at the top of the cell |
| Mesher.GridOfAt | src/main/java/org/jephacake/renderer/ChunkMesher.java:21 | cell (x,y,z) of the grid is voxels[x + y*width + z*width*height], in bounds |
| Mesher.VoxelAt | src/main/java/org/jephacake/renderer/ChunkMesher.java:21 | the flat read returns the grid cell |
| Mesher.IsEmptyAt | src/main/java/org/jephacake/renderer/ChunkMesher.java:113-116 | a cell is empty when it is outside the grid or holds 0 |
| Mesher.FaceEmittedIffExposed | src/main/java/org/jephacake/renderer/ChunkMesher.java:18-61 | a quad is emitted exactly for a face of a registered, non-air cell whose neighbour is outside the grid or 0, and its normal is the face's direction |
| Mesher.CellQuadsMembers | src/main/java/org/jephacake/renderer/ChunkMesher.java:22-34 | air and unregistered cells give no quads; a solid cell gives one quad per exposed face |
| Mesher.LoneCellIsCube | src/main/java/org/jephacake/renderer/ChunkMesher.java:29-34 | a solid cell with six empty neighbours gives 6 quads, 24 vertices and 36 indices |
| Mesher.SurroundedCellHidden | src/main/java/org/jephacake/renderer/ChunkMesher.java:113-116 | a cell whose six neighbours are in the grid and non-zero gives no geometry |
| Mesher.SingleBlockMesh | src/main/java/org/jephacake/renderer/ChunkMesher.java:11-46 | a 1×1×1 grid holding a solid block meshes to 24 vertices and 36 indices |
| Mesher.AddVertex | src/main/java/org/jephacake/renderer/ChunkMesher.java:118-127 | one vertex appends 3 position, 3 normal, 2 texture and 4 colour components and no index |
| Mesher.AddCorners | src/main/java/org/jephacake/renderer/ChunkMesher.java:68-105 | the four vertices of a face are its quad's corners in table order |
| Mesher.EmitFace | src/main/java/org/jephacake/renderer/ChunkMesher.java:62-109 | an exposed face adds its quad textured with the tile's UV rectangle, indexed from the prior vertex count |
| Mesher.AddFaceIfEmpty | src/main/java/org/jephacake/renderer/ChunkMesher.java:48-111 | the mesh grows by the face's quad exactly when the neighbour is empty, and is unchanged otherwise |
| Mesher.MeshStep | src/main/java/org/jephacake/renderer/ChunkMesher.java:21-34 | air and unregistered ids add nothing, a half-constructed block throws, and any other block adds its exposed faces |
| Mesher.MeshCell | src/main/java/org/jephacake/renderer/ChunkMesher.java:29-34 | the six face calls add the cell's quads in the order NORTH, SOUTH, BOTTOM, TOP, WEST, EAST |
| Mesher.MeshRow | src/main/java/org/jephacake/renderer/ChunkMesher.java:20-35 | the x loop adds the quads of one row in increasing x, and fails with NullPointerException exactly when the row holds a half-constructed block |
| Mesher.MeshLayer | src/main/java/org/jephacake/renderer/ChunkMesher.java:19-36 | the y loop adds the quads of one layer in increasing y, and fails exactly when the layer holds a half-constructed block |
| Mesher.MeshLayers | src/main/java/org/jephacake/renderer/ChunkMesher.java:18-37 | the z loop adds all quads in z, y, x order, or stops at a half-constructed block |
| Mesher.MeshFromVoxels | src/main/java/org/jephacake/renderer/ChunkMesher.java:11-46 | the result is exactly the mesh of the emitted quad list, and it fails exactly when the grid holds a half-constructed block |
| Atlas.IsPngNameChars | src/main/java/org/jephacake/renderer/TextureAtlas.java:62-63 | a name is kept exactly when it ends in '.', p, n, g in either case |
| Atlas.PngNamesMembers | src/main/java/org/jephacake/renderer/TextureAtlas.java:60-64 | a name is kept exactly when it is listed and passes the filter |
| Atlas.FilterPngs | src/main/java/org/jephacake/renderer/TextureAtlas.java:60-64 | the filter loop keeps the PNG names in their listed order |
| Atlas.SortStrings | src/main/java/org/jephacake/renderer/TextureAtlas.java:65 | sorting keeps the same names, as a multiset |
| Atlas.SortStringsSorted | src/main/java/org/jephacake/renderer/TextureAtlas.java:65 | the sorted names are in ascending string order |
| Atlas.TileName | src/main/java/org/jephacake/renderer/TextureAtlas.java:88-89 | a trailing lower-case ".png" is removed and any other name is kept |
| Atlas.TileNameOfFile | src/main/java/org/jephacake/renderer/TextureAtlas.java:88-89 | the name of base + ".png" is base, and base + ".PNG" keeps its suffix |
| Atlas.CeilSqrt | src/main/java/org/jephacake/renderer/TextureAtlas.java:97 | cols is the least c with c*c >= n |
| Atlas.CeilDiv | src/main/java/org/jephacake/renderer/TextureAtlas.java:98 | rows is the least q with cols*q >= n |
| Atlas.GridHoldsTiles | src/main/java/org/jephacake/renderer/TextureAtlas.java:96-116 | cols*rows >= n, and tile i is at column i % cols and row i / cols < rows |
| Atlas.TileInsideCell | src/main/java/org/jephacake/renderer/TextureAtlas.java:115-120 | a centred image lies inside its own cell and inside the atlas |
| Atlas.PasteRowsAt | src/main/java/org/jephacake/renderer/TextureAtlas.java:123-127 | the row copies change exactly the pixels of the image's rectangle |
| Atlas.AtlasShowsEveryTile | src/main/java/org/jephacake/renderer/TextureAtlas.java:113-128 | every image pixel appears at its centred position in the image's cell |
| Atlas.AtlasTransparentElsewhere | src/main/java/org/jephacake/renderer/TextureAtlas.java:108-110 | a pixel covered by no image stays transparent (0) |
| Atlas.ComposeAtlas | src/main/java/org/jephacake/renderer/TextureAtlas.java:107-128 | the zero-filled buffer followed by the copy loops holds exactly the composed atlas |
| Atlas.CopyTile | src/main/java/org/jephacake/renderer/TextureAtlas.java:114-127 | one pass copies image i at its centred origin |
| Atlas.CopyImage | src/main/java/org/jephacake/renderer/TextureAtlas.java:123-127 | the row loop copies every row of one image |
| Atlas.CopyRow | src/main/java/org/jephacake/renderer/TextureAtlas.java:124-126 | one arraycopy writes one image row into one atlas row and nothing else |
| Atlas.RgbaRoundTrip | src/main/java/org/jephacake/renderer/TextureAtlas.java:154-159 | the four bytes R = (argb>>16)&FF, G = (argb>>8)&FF, B = argb&FF, A = (argb>>24)&FF reassemble the pixel |
| Atlas.PixelBytesAt | src/main/java/org/jephacake/renderer/TextureAtlas.java:147-161 | the upload has w*h*4 bytes, and pixel (x,y) is at offset ((h-1-y)*w + x)*4 as R, G, B, A |
| Atlas.RgbaBottomUp | src/main/java/org/jephacake/renderer/TextureAtlas.java:151-161 | the upload loop produces the rows bottom to top |
| Atlas.RowRgba | src/main/java/org/jephacake/renderer/TextureAtlas.java:153-160 | the inner loop produces one row's pixels left to right |
| Atlas.IndexOf | src/main/java/org/jephacake/renderer/TextureAtlas.java:208-211 | the first position holding the name, or -1 exactly when no tile has it |
| Atlas.IndexOfFirst | src/main/java/org/jephacake/renderer/TextureAtlas.java:208-211 | the first position holding a name is the one found |
| Atlas.TextureAtlas.constructor | src/main/java/org/jephacake/renderer/TextureAtlas.java:33-49 | tilesPerRow and tilesPerColumn are the atlas size divided by the tile size, and there is no texture yet |
| Atlas.TextureAtlas.UploadToGL | src/main/java/org/jephacake/renderer/TextureAtlas.java:140-167 | the first call stores the bottom-up RGBA bytes, and later calls change nothing |
| Atlas.TextureAtlas.GetTexture | src/main/java/org/jephacake/renderer/TextureAtlas.java:175-178 | uploads if needed and returns the texture |
| Atlas.TextureAtlas.ClampTile | src/main/java/org/jephacake/renderer/TextureAtlas.java:182-183 | the tile index is clamped into [0, n-1] and kept when already in range |
| Atlas.TextureAtlas.TileCell | src/main/java/org/jephacake/renderer/TextureAtlas.java:185-186 | the clamped index splits into a column and row inside the grid |
| Atlas.TextureAtlas.GetUVRect | src/main/java/org/jephacake/renderer/TextureAtlas.java:181-206 | the rectangle's bounds are ordered, u0 <= u1 and v0 <= v1 |
| Atlas.UVRectIsCell | src/main/java/org/jephacake/renderer/TextureAtlas.java:188-193 | without padding the rectangle is the tile's cell scaled to the unit square, v measured from the bottom |
| Atlas.UVRectInUnitSquare | src/main/java/org/jephacake/renderer/TextureAtlas.java:188-205 | without padding every rectangle lies in the unit square with positive area |
| Atlas.TextureAtlas.GetTileIndex | src/main/java/org/jephacake/renderer/TextureAtlas.java:208-211 | the search loop returns the first position holding the name, or -1 |
| Atlas.LoadImages | src/main/java/org/jephacake/renderer/TextureAtlas.java:74-94 | loading succeeds exactly when every resource decodes, with one image per name in order |
| Atlas.LoadStopsAtFirstFailure | src/main/java/org/jephacake/renderer/TextureAtlas.java:74-80 | the error is the one of the first missing or undecodable resource |
| Atlas.MaxWidth | src/main/java/org/jephacake/renderer/TextureAtlas.java:91 | the tile width is the largest image width |
| Atlas.MaxHeight | src/main/java/org/jephacake/renderer/TextureAtlas.java:92 | the tile height is the largest image height |
| Atlas.TileNames | src/main/java/org/jephacake/renderer/TextureAtlas.java:88-90 | tile name i is the name of loaded file i |
| Atlas.AtlasDimensions | src/main/java/org/jephacake/renderer/TextureAtlas.java:100-103 | the atlas is cols*tileW by rows*tileH, with a cell for every tile |
| Atlas.LoadTiles | src/main/java/org/jephacake/renderer/TextureAtlas.java:69-94 | the load loop yields the images, tile names and largest sizes, or the first load error |
| Atlas.BuildFromPackage | src/main/java/org/jephacake/renderer/TextureAtlas.java:56-131 | no PNG names fail; otherwise the atlas holds the sorted tile names, the ceil(sqrt n) grid and the composed pixels, or the first load error |
| ResourceLoader.TexturePath | src/main/java/org/jephacake/renderer/ResourceLoader.java:54 | the path is the texture directory, the name, then ".png" |
| ResourceLoader.TexturePathInjective | src/main/java/org/jephacake/renderer/ResourceLoader.java:54 | distinct texture names give distinct paths |
| ResourceLoader.ReadTexture | src/main/java/org/jephacake/renderer/ResourceLoader.java:53-58 | the bytes of the path's resource, or "Texture not found" exactly when it is missing |
| ResourceLoader.DirPrefix | src/main/java/org/jephacake/renderer/ResourceLoader.java:96 | the prefix is the resource path with a trailing "/" added unless present |
| ResourceLoader.TopLevelName | src/main/java/org/jephacake/renderer/ResourceLoader.java:101-105 | a kept name is a non-directory entry's name after the prefix, non-empty and without "/" |
| ResourceLoader.JarListing | src/main/java/org/jephacake/renderer/ResourceLoader.java:97-107 | at most one name per entry, in entry order |
| ResourceLoader.JarListingMembers | src/main/java/org/jephacake/renderer/ResourceLoader.java:97-107 | a name is listed exactly when a file entry is the prefix followed by it and it is non-empty with no "/" |
| ResourceLoader.ListJarEntries | src/main/java/org/jephacake/renderer/ResourceLoader.java:96-107 | the enumeration loop returns exactly the jar listing |

## Left out

- GPU objects: `Mesh`, `Model`, `TextureGL` and the buffer creation in `Chunk.applyMeshData`
  are foreign calls. A chunk's mesh is kept as the mesh data last applied and its model
  as a flag. The uploaded texture is kept as its byte sequence. `ApplyMeshData` takes no
  atlas, so the `atlas.getTexture()` upload that happens when the first model is created
  is not modelled. A `MeshData` whose `indices` is null cannot be represented, because
  the model's index list is a sequence; only the empty list takes that branch.
- `ChunkMesher.meshDataFromChunk`, the `ChunkMesher.MeshData` type and `Mesh.update` are
  used by `Chunk` but not defined in the code shown, so `Chunk.generateMeshData`, which
  only forwards to `meshDataFromChunk`, has no member. `MeshData` is modelled by the
  five lists `meshFromVoxels` builds.
- `Chunk.markDirty`, `Chunk.rebuildMesh` and `Chunk.render` are called but not defined in
  the code shown. Rebuilding and rendering leave voxel state alone, so
  `World.UpdateAndRender` treats them as no-ops, and dirtiness is the world's dirty set.
- `World.loadFromDisk` and `saveToDisk` are Java object serialization to a file. The
  saved-data map lives in memory and starts empty.
- The float camera conversion `Math.floor(camX / 16)` of `updateAndRender`: the camera
  chunk is an integer input.
- The generator is the flat generator. The `WorldGenerator` interface is not part of
  this model.
- Floating point: mesh positions and normals are whole numbers in the model. UVs and tints
  are reals passed through. The float arithmetic of `getUVRect` is modelled over exact
  reals, and only its ordering and unit-square bounds are stated.
- Image decoding and conversion by ImageIO: a resource is given as missing, undecodable
  or a decoded ARGB raster. The atlas pixel buffer is a 2-D array addressed by (row,
  column) instead of one flat row-major `int[]`.
- The directory and file-system branches of `listResources`, `getResource`,
  `readResourceAsString` and `getJarDirectory` are I/O. `readTexture` takes the
  class-path lookup as a parameter.
- FlatGenerator.FlatWorldGenerator.GenerateChunk: integers are unbounded, so the 32-bit
  wrap-around of `cy * 16 + y` (once |cy| reaches 2^27) is not modelled. There Java
  computes a wrapped height and the model's terrain differs.
- Worlds.World.LoadAround: integers are unbounded, so the overflow of `cx + renderDistance`
  near `Integer.MAX_VALUE` is not modelled. There Java's loops load nothing or never end,
  while the model loads the whole cube.
- Blocks.Registry.Register: the id counter is unbounded; Java's `incrementingRegisterID++`
  would wrap after 2^31 registrations. The atlas products `cols * tileW`,
  `atlasW * atlasH` and `w * h * 4` are likewise unbounded in the model.
- Atlas.SortStringsSorted: strings are sequences of Unicode scalar values, so the order is
  by code point. Java's `String.compareTo` compares UTF-16 units, which orders names
  with supplementary characters differently (U+10000 sorts before U+FFFF in Java).
- Console logging (`System.out.println` in the registry and the atlas build) is not
  modelled. It changes no state.
- Concurrency: `synchronized` methods and the `ConcurrentHashMap` of the registry are
  modelled sequentially. No meshing pool exists in the code.
- `BlockSnapshot.put` keeps a reference to the caller's array, while the model stores a
  sequence value. A caller that changed its array after `put` would change what the
  source's snapshot reads, and the model does not capture that aliasing. Callers pass
  copies.
- `ChunkMesher.toArray` copies the lists into arrays. The model's lists are already
  sequences.
- `Block`'s own `isOpaque` (true) and `getTintRGBA` (white) are always overridden by
  `SimpleBlock`, the only concrete block class, so the model has no member for them.
- `StoneBlock`, `DirtBlock` and `GrassBlock` have no classes of their own. `Registry.Init`
  builds them through the convenience constructor with their atlas tiles.
- `Camera`, `ChunkRenderer`, `StressTester`, `Options` and the window/shader classes are
  not part of this model.
- Mesher.MeshFromVoxels: requires the voxel array to hold at least width×height×depth
  cells. The source would throw an index exception on a shorter array. The sizes are
  `nat`. The source also accepts negative sizes and returns an empty mesh for them,
  because no loop runs.
- Chunks.Chunk.SetBlock: requires the flat index to fall inside the array. The source
  would throw an index exception otherwise.
- Chunks.Chunk.GetBlock: requires the flat index to fall inside the array. The source
  would throw an index exception otherwise.
- Atlas.TextureAtlas.GetUVRect: states only that the bounds are ordered (and, through
  UVRectIsCell, the exact rectangle without padding), not float rounding.

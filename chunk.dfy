/** Chunk: a 16×16×16 block of voxel ids at fixed chunk coordinates, together with the
    GPU mesh and model built from it. The mesh and the model are represented by what
    the model needs of them: the mesh data last uploaded, and whether a model exists. */
module Chunks {
  import opened Wrappers
  import opened Coords
  import opened Mesher

  class Chunk {
    /** Chunk coordinates; fixed at construction (getCX, getCY, getCZ). */
    const cx: int
    const cy: int
    const cz: int

    /** The voxel ids, indexed by Index(x, y, z); getVoxelData hands out this very array. */
    const voxels: array<int>

    /** The GPU mesh, as the data last uploaded into it; None while there is no mesh. */
    var mesh: Option<MeshData>

    /** Whether a Model (mesh plus atlas texture) exists. */
    var hasModel: bool

    /** How many times a new GPU mesh has been created for this chunk. */
    ghost var meshesCreated: nat

    /** The array has one cell per voxel. */
    predicate Sized()
    {
      voxels.Length == VOLUME
    }

    /** The array has one cell per voxel, and the mesh and the model exist together. */
    ghost predicate Valid()
      reads this
    {
      Sized() && (mesh.Some? <==> hasModel)
    }

    /** A new chunk at (cx, cy, cz): every voxel is air (0) and there is no mesh. */
    constructor(cx: int, cy: int, cz: int)
      ensures Valid()
      ensures this.cx == cx && this.cy == cy && this.cz == cz
      ensures fresh(voxels)
      ensures forall i | 0 <= i < VOLUME :: voxels[i] == 0
      ensures mesh == None && !hasModel && meshesCreated == 0
    {
      this.cx := cx;
      this.cy := cy;
      this.cz := cz;
      voxels := new int[VOLUME](_ => 0);
      mesh := None;
      hasModel := false;
      meshesCreated := 0;
    }

    /** The id stored for local coordinate (x, y, z). Only the flat index has to fall
        inside the array: coordinates outside the cube alias another cell. */
    function GetBlock(x: int, y: int, z: int): (id: int)
      reads this, voxels
      requires Valid() && 0 <= Index(x, y, z) < VOLUME
      ensures id == voxels[..][Index(x, y, z)]
    {
      voxels[Index(x, y, z)]
    }

    /** Stores blockId at local (x, y, z): the array is the old one with that one cell
        replaced (SetThenGet reads it back cell by cell). */
    method SetBlock(x: int, y: int, z: int, blockId: int)
      requires Valid() && 0 <= Index(x, y, z) < VOLUME
      modifies voxels
      ensures voxels[..] == old(voxels[..])[Index(x, y, z) := blockId]
    {
      voxels[Index(x, y, z)] := blockId;
    }

    /** Installs freshly built mesh data. Missing or index-free data drops the mesh and
        the model; otherwise the mesh holds the new data, and a mesh and model are
        created only when there was none before. */
    method ApplyMeshData(data: Option<MeshData>)
      requires Valid()
      modifies this
      ensures Valid()
      ensures data.None? || |data.value.indices| == 0 ==>
                mesh == None && !hasModel && meshesCreated == old(meshesCreated)
      ensures data.Some? && |data.value.indices| > 0 ==>
                mesh == data && hasModel &&
                meshesCreated == old(meshesCreated) + (if old(mesh).None? then 1 else 0)
    {
      if data.None? || |data.value.indices| == 0 {
        if hasModel {
          hasModel := false;
          mesh := None;
        }
        return;
      }
      if mesh.None? {
        mesh := data;
        hasModel := true;
        meshesCreated := meshesCreated + 1;
      } else {
        mesh := data;
      }
    }

    /** Releases the GPU resources: afterwards there is no mesh and no model, whatever
        the state before, so a second call changes nothing. */
    method Close()
      requires Valid()
      modifies this
      ensures Valid()
      ensures mesh == None && !hasModel
      ensures meshesCreated == old(meshesCreated)
      ensures old(mesh) == None ==> mesh == old(mesh) && hasModel == old(hasModel)
    {
      if hasModel {
        hasModel := false;
        mesh := None;
      }
    }
  }

  /** Setting a cell and reading it back through any coordinate with the same flat index
      gives the stored id; reading another in-chunk cell gives the old contents. */
  lemma SetThenGet(before: seq<int>, x: int, y: int, z: int, id: int, x': int, y': int, z': int)
    requires |before| == VOLUME && InChunk(x, y, z) && InChunk(x', y', z')
    ensures before[Index(x, y, z) := id][Index(x', y', z')] ==
              if (x, y, z) == (x', y', z') then id else before[Index(x', y', z')]
  {
    if (x, y, z) != (x', y', z') {
      if Index(x, y, z) == Index(x', y', z') {
        IndexInjective(x, y, z, x', y', z');
      }
    }
  }
}

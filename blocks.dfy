/** Blocks and the block registry: ids, per-face tiles, tints, and the registration that
    every block constructor performs. */
module Blocks {
  import opened Wrappers
  import opened BlockFaces
  import Keys
  import Atlas

  /** Six tile indices, one per face in ordinal order. */
  type Tiles = s: seq<int> | |s| == 6 witness [0, 0, 0, 0, 0, 0]

  /** An RGBA tint. */
  type Tint = s: seq<real> | |s| == 4 witness [1.0, 1.0, 1.0, 1.0]

  const WHITE: Tint := [1.0, 1.0, 1.0, 1.0]

  /** What a SimpleBlock holds once its constructor has run. Unfinished is a block whose
      constructor threw after the base constructor had already registered it: its tile
      array and tint are null and its opaque flag false. */
  datatype Look = Simple(perFaceTile: Tiles, tint: Tint, solid: bool) | Unfinished

  /** A block. The registry overwrites `id` on registration, hence a mutable field. */
  class Block {
    var id: int
    const name: string
    const look: Look

    constructor (id: int, name: string, look: Look)
      ensures this.id == id && this.name == name && this.look == look
    {
      this.id := id;
      this.name := name;
      this.look := look;
    }

    /** getTileForFace: the tile stored at the face's ordinal; None where Java would
        dereference the null tile array. */
    function TileForFace(face: Face): (t: Option<int>)
      ensures t.Some? <==> look.Simple?
      ensures t.Some? ==> t.value == look.perFaceTile[Ordinal(face)]
    {
      match look
      case Simple(tiles, _, _) => Some(tiles[Ordinal(face)])
      case Unfinished => None
    }

    /** getTintRGBA: a copy of the tint; None where Java would copy a null array. */
    function TintRGBA(): (t: Option<Tint>)
      ensures t.Some? <==> look.Simple?
      ensures t.Some? ==> t.value == look.tint
    {
      match look
      case Simple(_, tint, _) => Some(tint[..4])
      case Unfinished => None
    }

    /** isOpaque: the opacity flag given to the constructor; false while it was never set. */
    predicate IsOpaque()
      ensures IsOpaque() ==> look.Simple?
    {
      look.Simple? && look.solid
    }
  }

  /** Arrays.copyOf(tint, 4) for a non-null tint; white for a null one. */
  function TintCopy(tint: Option<seq<real>>): (r: Tint)
    ensures tint.None? ==> r == WHITE
    ensures tint.Some? ==> forall i | 0 <= i < 4 ::
      r[i] == if i < |tint.value| then tint.value[i] else 0.0
  {
    match tint
    case None => WHITE
    case Some(t) =>
      if |t| >= 4 then t[..4]
      else if |t| == 3 then t + [0.0]
      else if |t| == 2 then t + [0.0, 0.0]
      else if |t| == 1 then t + [0.0, 0.0, 0.0]
      else [0.0, 0.0, 0.0, 0.0]
  }

  /** The tile array of the convenience constructor: side, side, bottom, top, side, side. */
  function CubeTiles(top: int, bottom: int, side: int): (tiles: Tiles)
  {
    [side, side, bottom, top, side, side]
  }

  /** A cube's top face shows the top tile, its bottom face the bottom tile, and the four
      others the side tile. */
  lemma CubeTilesFaces(top: int, bottom: int, side: int, face: Face)
    ensures CubeTiles(top, bottom, side)[Ordinal(face)] ==
      (if face == Top then top else if face == Bottom then bottom else side)
  {
  }

  /** BlockRegistry: the next id to hand out and the id -> block map. */
  class Registry {
    var counter: int
    var blocks: map<int, Block>

    /** Every registered id lies in [2, counter): ids 0 (air) and 1 (debug) are never
        handed out, and the counter is always past every id in use. */
    predicate Valid()
      reads this
    {
      counter >= 2 && forall id | id in blocks :: 2 <= id < counter
    }

    constructor ()
      ensures Valid() && counter == 2 && blocks == map[]
    {
      counter := 2;
      blocks := map[];
    }

    /** register: a null block is rejected; otherwise the block gets the counter as its id
        and is added under it, and the counter moves on. An id already taken (which Valid
        rules out) throws after the block's id has been overwritten. */
    method Register(b: Block?) returns (o: Outcome<string>)
      modifies this, b
      ensures b == null ==> o == Fail("block") && counter == old(counter) && blocks == old(blocks)
      ensures b != null ==> b.id == old(counter)
      ensures b != null && old(counter) in old(blocks) ==>
        && o == Fail("Block id already registered: " + Keys.IntToString(old(counter))
                     + " (" + old(blocks)[old(counter)].name + ")")
        && counter == old(counter) && blocks == old(blocks)
      ensures b != null && old(counter) !in old(blocks) ==>
        o == Pass && blocks == old(blocks)[old(counter) := b] && counter == old(counter) + 1
      ensures old(Valid()) ==> Valid() && (b != null ==> o == Pass)
    {
      if b == null {
        return Fail("block");
      }
      b.id := counter;
      if b.id in blocks {
        var prev := blocks[b.id];
        return Fail("Block id already registered: " + Keys.IntToString(b.id) + " (" + prev.name + ")");
      }
      blocks := blocks[b.id := b];
      counter := counter + 1;
      o := Pass;
    }

    /** get (and getOrNull, which is the same lookup): the block under an id, if any. */
    function Get(id: int): (b: Option<Block>)
      reads this
      ensures b.Some? <==> id in blocks
      ensures b.Some? ==> b.value == blocks[id]
    {
      if id in blocks then Some(blocks[id]) else None
    }

    /** contains: exactly the ids get finds a block for. */
    predicate Contains(id: int)
      reads this
      ensures Contains(id) <==> Get(id).Some?
    {
      id in blocks
    }

    /** clear: forgets every block but not the counter, so ids are never reused. */
    method Clear()
      modifies this
      ensures blocks == map[] && counter == old(counter)
      ensures old(Valid()) ==> Valid()
    {
      blocks := map[];
    }

    /** init: constructs stone, dirt and grass, which register under the next three ids.
        Each takes its tiles from the atlas by name. */
    method Init(atlas: Atlas.TextureAtlas)
      requires Valid()
      modifies this
      ensures Valid() && counter == old(counter) + 3
      ensures var c := old(counter);
        var stone := Atlas.IndexOf(atlas.tileNames, "stone");
        var dirt := Atlas.IndexOf(atlas.tileNames, "dirt");
        var top := Atlas.IndexOf(atlas.tileNames, "grass_top");
        var side := Atlas.IndexOf(atlas.tileNames, "grass_side");
        && c in blocks && c + 1 in blocks && c + 2 in blocks
        && blocks == old(blocks)[c := blocks[c]][c + 1 := blocks[c + 1]][c + 2 := blocks[c + 2]]
        && blocks[c].name == "stone" && blocks[c].look == Simple(CubeTiles(stone, stone, stone), WHITE, true)
        && blocks[c + 1].name == "dirt" && blocks[c + 1].look == Simple(CubeTiles(dirt, dirt, dirt), WHITE, true)
        && blocks[c + 2].name == "grass" && blocks[c + 2].look == Simple(CubeTiles(top, dirt, side), WHITE, true)
    {
      var stoneTile := atlas.GetTileIndex("stone");
      var stone := NewCubeBlock(this, "stone", stoneTile, stoneTile, stoneTile);
      var dirtTile := atlas.GetTileIndex("dirt");
      var dirt := NewCubeBlock(this, "dirt", dirtTile, dirtTile, dirtTile);
      var grassTop := atlas.GetTileIndex("grass_top");
      var grassSide := atlas.GetTileIndex("grass_side");
      var grassBottom := atlas.GetTileIndex("dirt");
      var grass := NewCubeBlock(this, "grass", grassTop, grassBottom, grassSide);
    }
  }

  /** SimpleBlock(id, name, perFaceTiles, tintRGBA, opaque), including the Block
      constructor it starts with. A non-positive id throws before anything is registered.
      Otherwise the block is registered first, and only then are the tiles checked: a
      missing array or one whose length is not 6 throws, leaving an unfinished block in
      the registry. */
  method NewSimpleBlock(reg: Registry, id: int, name: string, perFaceTiles: Option<seq<int>>,
                        tintRGBA: Option<seq<real>>, solid: bool) returns (r: Result<Block, string>)
    requires reg.Valid()
    modifies reg
    ensures reg.Valid()
    ensures id <= 0 ==>
      r == Failure("Block id must be > 0") && reg.blocks == old(reg.blocks) && reg.counter == old(reg.counter)
    ensures id > 0 ==>
      && reg.counter == old(reg.counter) + 1
      && old(reg.counter) in reg.blocks
      && reg.blocks == old(reg.blocks)[old(reg.counter) := reg.blocks[old(reg.counter)]]
      && fresh(reg.blocks[old(reg.counter)])
      && reg.blocks[old(reg.counter)].id == old(reg.counter)
      && reg.blocks[old(reg.counter)].name == name
    ensures id > 0 && (perFaceTiles.None? || |perFaceTiles.value| != 6) ==>
      r == Failure("perFaceTiles length must be 6") && reg.blocks[old(reg.counter)].look == Unfinished
    ensures id > 0 && perFaceTiles.Some? && |perFaceTiles.value| == 6 ==>
      && r.Success? && r.value == reg.blocks[old(reg.counter)]
      && r.value.look == Simple(perFaceTiles.value, TintCopy(tintRGBA), solid)
  {
    if id <= 0 {
      return Failure("Block id must be > 0");
    }
    var b: Block;
    if perFaceTiles.None? || |perFaceTiles.value| != 6 {
      b := new Block(id, name, Unfinished);
      var _ := reg.Register(b);
      return Failure("perFaceTiles length must be 6");
    }
    b := new Block(id, name, Simple(perFaceTiles.value, TintCopy(tintRGBA), solid));
    var _ := reg.Register(b);
    r := Success(b);
  }

  /** SimpleBlock(name, top, bottom, side): an opaque white cube registered under the next
      id; it cannot fail. */
  method NewCubeBlock(reg: Registry, name: string, top: int, bottom: int, side: int)
    returns (r: Result<Block, string>)
    requires reg.Valid()
    modifies reg
    ensures reg.Valid() && reg.counter == old(reg.counter) + 1
    ensures r.Success? && fresh(r.value)
    ensures r.value.id == old(reg.counter) && r.value.name == name
    ensures r.value.look == Simple(CubeTiles(top, bottom, side), WHITE, true)
    ensures reg.blocks == old(reg.blocks)[old(reg.counter) := r.value]
  {
    r := NewSimpleBlock(reg, 1, name, Some(CubeTiles(top, bottom, side)), Some(WHITE), true);
  }
}

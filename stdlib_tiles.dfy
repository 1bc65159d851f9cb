/** The tile natives of the `Scene` class: a tile word packs a 24-bit tile
    id, a horizontal and a vertical flip bit, and collision bits;
    `GetTileID`, `GetTileFlipX` and `GetTileFlipY` unpack the word of a
    layer's tile, `SetTile` packs one and `SetTileCollisionSides` replaces
    its collision bits. Every native returns `Null` without touching a tile
    when the layer, `x` or `y` lies outside the scene. */
module TileNatives {
  import opened Wrappers
  import opened Machine
  import opened Values
  import opened NativeArgs
  import opened SceneLayers

  const FLIPX_MASK: bv32 := 0x8000_0000
  const FLIPY_MASK: bv32 := 0x4000_0000
  const COLLA_MASK: bv32 := 0x3000_0000
  const COLLB_MASK: bv32 := 0x0C00_0000
  const COLLC_MASK: bv32 := 0x0300_0000
  const IDENT_MASK: bv32 := 0x00FF_FFFF
  /** What `SetTileCollisionSides` keeps of a tile: the flips and the id. */
  const KEPT_BY_SIDES: bv32 := 0xC0FF_FFFF

  /** An `int` OR-ed into a `Uint32`: its two's complement bits. */
  function Bits(i: int32): bv32
  {
    AsUint32(i) as bv32
  }

  /** The word `SetTile` writes: the id's low 24 bits, the flips, and the
      two collision values OR-ed in as they are. */
  function TileWord(id: bv32, flipX: bool, flipY: bool, collA: bv32, collB: bv32): bv32
  {
    (id & IDENT_MASK)
    | (if flipX then FLIPX_MASK else 0)
    | (if flipY then FLIPY_MASK else 0)
    | collA | collB
  }

  /** The word `SetTileCollisionSides` leaves: the flips and id of `w`, and
      the bits of the two collision values shifted into place. The source
      shifts an `int`; the model shifts its 32 bits, which is what the
      machine does for values that do not fit. */
  function SidesWord(w: bv32, collA: bv32, collB: bv32): bv32
  {
    (w & KEPT_BY_SIDES) | (collA << 28) | (collB << 26)
  }

  /** What `GetTileID`, `GetTileFlipX` and `GetTileFlipY` read. */
  datatype TileField = TileID | TileFlipX | TileFlipY

  /** `GetTileID`'s reading of a word: its low 24 bits. */
  function IdOf(w: bv32): (r: int32)
    ensures 0 <= r < 0x100_0000
  {
    ((w & 0xFF_FFFF) as bv24) as int
  }

  /** `!!(w & mask)`: 1 exactly when a bit of the mask is set. */
  function FlagOf(w: bv32, mask: bv32): (r: int32)
    ensures r == 0 || r == 1
  {
    if w & mask != 0 then 1 else 0
  }

  /** The integer a getter returns for a tile word. */
  function Read(field: TileField, w: bv32): int32
  {
    match field
    case TileID => IdOf(w)
    case TileFlipX => FlagOf(w, FLIPX_MASK)
    case TileFlipY => FlagOf(w, FLIPY_MASK)
  }

  /** Collision values confined to the collision bits leave the id and
      both flips as `SetTile` was given them. */
  lemma TileWordReadsBack(id: bv32, flipX: bool, flipY: bool, collA: bv32, collB: bv32)
    requires collA & KEPT_BY_SIDES == 0 && collB & KEPT_BY_SIDES == 0
    ensures IdOf(TileWord(id, flipX, flipY, collA, collB)) == IdOf(id)
    ensures FlagOf(TileWord(id, flipX, flipY, collA, collB), FLIPX_MASK) == if flipX then 1 else 0
    ensures FlagOf(TileWord(id, flipX, flipY, collA, collB), FLIPY_MASK) == if flipY then 1 else 0
  {
    WordBits(id, flipX, flipY, collA, collB);
    IdOfMasked(TileWord(id, flipX, flipY, collA, collB), id);
  }

  lemma WordBits(id: bv32, flipX: bool, flipY: bool, collA: bv32, collB: bv32)
    requires collA & KEPT_BY_SIDES == 0 && collB & KEPT_BY_SIDES == 0
    ensures TileWord(id, flipX, flipY, collA, collB) & IDENT_MASK == id & IDENT_MASK
    ensures TileWord(id, flipX, flipY, collA, collB) & FLIPX_MASK != 0 <==> flipX
    ensures TileWord(id, flipX, flipY, collA, collB) & FLIPY_MASK != 0 <==> flipY
  {
  }

  /** The id read depends on the id bits alone. */
  lemma IdOfMasked(s: bv32, w: bv32)
    requires s & IDENT_MASK == w & IDENT_MASK
    ensures IdOf(s) == IdOf(w)
  {
    assert s & 0xFF_FFFF == w & 0xFF_FFFF;
  }

  /** The collision values `SetTile` uses when it is given none are the
      full collision-A and collision-B masks, which are confined to the
      collision bits and so read back as in `TileWordReadsBack`. */
  lemma DefaultCollisionsConfined()
    ensures COLLA_MASK & KEPT_BY_SIDES == 0 && COLLB_MASK & KEPT_BY_SIDES == 0
    ensures COLLA_MASK & COLLB_MASK == 0
  {
  }

  /** `SetTileCollisionSides` with sides from 0 to 3 keeps the id and the
      flips, and the sides read back from bits 28-29 and 26-27. */
  lemma SidesReadBack(w: bv32, collA: bv32, collB: bv32)
    requires collA < 4 && collB < 4
    ensures SidesWord(w, collA, collB) & KEPT_BY_SIDES == w & KEPT_BY_SIDES
    ensures (SidesWord(w, collA, collB) >> 28) & 3 == collA
    ensures (SidesWord(w, collA, collB) >> 26) & 3 == collB
    ensures IdOf(SidesWord(w, collA, collB)) == IdOf(w)
    ensures FlagOf(SidesWord(w, collA, collB), FLIPX_MASK) == FlagOf(w, FLIPX_MASK)
    ensures FlagOf(SidesWord(w, collA, collB), FLIPY_MASK) == FlagOf(w, FLIPY_MASK)
  {
    SideBits(w, collA, collB);
    IdOfMasked(SidesWord(w, collA, collB), w);
  }

  lemma SideBits(w: bv32, collA: bv32, collB: bv32)
    requires collA < 4 && collB < 4
    ensures SidesWord(w, collA, collB) & KEPT_BY_SIDES == w & KEPT_BY_SIDES
    ensures SidesWord(w, collA, collB) & IDENT_MASK == w & IDENT_MASK
    ensures SidesWord(w, collA, collB) & FLIPX_MASK == w & FLIPX_MASK
    ensures SidesWord(w, collA, collB) & FLIPY_MASK == w & FLIPY_MASK
    ensures (SidesWord(w, collA, collB) >> 28) & 3 == collA
    ensures (SidesWord(w, collA, collB) >> 26) & 3 == collB
  {
  }

  /** Setting the sides again overrides the earlier sides completely. */
  lemma LastSidesWin(w: bv32, a0: bv32, b0: bv32, a1: bv32, b1: bv32)
    requires a0 < 4 && b0 < 4
    ensures SidesWord(SidesWord(w, a0, b0), a1, b1) == SidesWord(w, a1, b1)
  {
  }

  /** The bits of a side value from 0 to 3 are that value, below 4, as
      `SidesReadBack` asks. */
  lemma SmallBits(c: int32)
    requires 0 <= c < 4
    ensures Bits(c) < 4 && Bits(c) as int == c
  {
    if c == 0 {
      assert Bits(0) == 0;
    } else if c == 1 {
      assert Bits(1) == 1;
    } else if c == 2 {
      assert Bits(2) == 2;
    } else {
      assert Bits(3) == 3;
    }
  }


  /** The sides a script passes to `SetTileCollisionSides` as integers
      from 0 to 3 read back as those integers, the id and the flips are
      kept, and a later call with other sides overrides them. */
  lemma ScriptSidesReadBack(w: bv32, a: int32, b: int32, a1: int32, b1: int32)
    requires 0 <= a < 4 && 0 <= b < 4
    ensures ((SidesWord(w, Bits(a), Bits(b)) >> 28) & 3) as int == a
    ensures ((SidesWord(w, Bits(a), Bits(b)) >> 26) & 3) as int == b
    ensures IdOf(SidesWord(w, Bits(a), Bits(b))) == IdOf(w)
    ensures FlagOf(SidesWord(w, Bits(a), Bits(b)), FLIPX_MASK) == FlagOf(w, FLIPX_MASK)
    ensures FlagOf(SidesWord(w, Bits(a), Bits(b)), FLIPY_MASK) == FlagOf(w, FLIPY_MASK)
    ensures SidesWord(SidesWord(w, Bits(a), Bits(b)), Bits(a1), Bits(b1)) == SidesWord(w, Bits(a1), Bits(b1))
  {
    SmallBits(a);
    SmallBits(b);
    SidesReadBack(w, Bits(a), Bits(b));
    LastSidesWin(w, Bits(a), Bits(b), Bits(a1), Bits(b1));
  }

  // ---------------------------------------------------------------------
  // The natives.

  /** The scene state the tile natives use: its layers, the flag that any
      tile changed, and the tile batches the renderer was asked to
      rebuild, as (layer, x / 8, y / 8). */
  class TileScene {
    var Layers: seq<SceneLayer>
    var AnyLayerTileChange: bool
    var BatchUpdates: seq<(int, int, int)>

    constructor (layers: seq<SceneLayer>)
      ensures Layers == layers && !AnyLayerTileChange && BatchUpdates == []
    {
      Layers := layers;
      AnyLayerTileChange := false;
      BatchUpdates := [];
    }
  }

  /** Every layer's grid covers it, as its constructor leaves it. */
  predicate Covered(layers: seq<SceneLayer>)
    reads layers
  {
    forall i :: 0 <= i < |layers| ==> layers[i].GridCovers()
  }

  function TileArrays(layers: seq<SceneLayer>): set<object>
    reads layers
  {
    set i | 0 <= i < |layers| && layers[i].Tiles != null :: layers[i].Tiles
  }

  /** `CHECK_TILE_LAYER_POS_BOUNDS`: the layer exists and `(x, y)` lies in
      its grid. */
  predicate InBounds(layers: seq<SceneLayer>, layer: int, x: int, y: int)
    reads layers
  {
    !(layer < 0 || layer >= |layers| || x < 0 || y < 0
      || x >= layers[layer].Width || y >= layers[layer].Height)
  }

  /** A tile position as the natives read it: the layer through
      `GetInteger`, `x` and `y` through `GetDecimal` cast to `int`. */
  datatype Position = Position(layer: int32, x: int32, y: int32, err: Option<NativeError>)

  function ReadPosition(args: seq<Value>): Position
    requires |args| >= 3
    reads ArgReads(args)
  {
    assert LinkReads(args[0]) + LinkReads(args[1]) + LinkReads(args[2]) <= ArgReads(args);
    var (layer, e0) := GetInteger(args, 0);
    var (x, e1) := GetDecimalAsInteger(args, 1);
    var (y, e2) := GetDecimalAsInteger(args, 2);
    Position(layer, x, y, FirstError(e0, FirstError(e1, e2)))
  }

  /** The tile array and entry a position in bounds names: entry
      `x + y * Width` of the layer's grid. */
  function TileIndex(layers: seq<SceneLayer>, p: Position): (k: nat)
    requires Covered(layers) && InBounds(layers, p.layer, p.x, p.y)
    reads layers
    ensures k < layers[p.layer].Tiles.Length
  {
    TileIndexInGrid(p.x, p.y, layers[p.layer].Width, layers[p.layer].Height);
    p.x + p.y * layers[p.layer].Width
  }

  /** The tile array a write to this position may change. */
  function Addressed(layers: seq<SceneLayer>, p: Position): set<object>
    reads layers
  {
    if InBounds(layers, p.layer, p.x, p.y) && layers[p.layer].Tiles != null
    then {layers[p.layer].Tiles} else {}
  }

  /** `Scene.GetTileID(layer, x, y)`, `Scene.GetTileFlipX(...)` and
      `Scene.GetTileFlipY(...)`: the tile's id or flip bit, or `Null` when
      the position is outside the scene. */
  function GetTile(layers: seq<SceneLayer>, args: seq<Value>, field: TileField): (r: (Value, Option<NativeError>))
    requires Covered(layers)
    reads layers, TileArrays(layers), ArgReads(args)
    ensures |args| != 3 ==> r == (Null, CheckArgCount(args, 3))
    ensures |args| == 3 ==>
      var p := ReadPosition(args);
      r.1 == p.err
      && (r.0 != Null <==> InBounds(layers, p.layer, p.x, p.y))
      && (r.0 != Null ==> r.0 == Integer(Read(field, layers[p.layer].Tiles[TileIndex(layers, p)])))
  {
    if |args| != 3 then (Null, CheckArgCount(args, 3))
    else
      var p := ReadPosition(args);
      if !InBounds(layers, p.layer, p.x, p.y) then (Null, p.err)
      else
        assert layers[p.layer].Tiles in TileArrays(layers);
        (Integer(Read(field, layers[p.layer].Tiles[TileIndex(layers, p)])), p.err)
  }

  /** What `SetTile` reads: the position, the id, the two flips, and the
      collision values (argument 6 for both when there are seven
      arguments, arguments 6 and 7 when there are eight, the full masks
      otherwise). */
  datatype TileWrite = TileWrite(pos: Position, id: int32, flipX: int32, flipY: int32, collA: bv32, collB: bv32, err: Option<NativeError>)

  function ReadTileWrite(args: seq<Value>): (t: TileWrite)
    requires |args| >= 6
    reads ArgReads(args)
    ensures |args| != 7 && |args| != 8 ==> t.collA == COLLA_MASK && t.collB == COLLB_MASK
    ensures |args| == 7 ==> t.collA == t.collB
  {
    assert forall i :: 3 <= i < |args| ==> LinkReads(args[i]) <= ArgReads(args);
    var p := ReadPosition(args);
    var (id, e3) := GetInteger(args, 3);
    var (flipX, e4) := GetInteger(args, 4);
    var (flipY, e5) := GetInteger(args, 5);
    var err := FirstError(p.err, FirstError(e3, FirstError(e4, e5)));
    if |args| == 7 then
      var (c, e6) := GetInteger(args, 6);
      TileWrite(p, id, flipX, flipY, Bits(c), Bits(c), FirstError(err, e6))
    else if |args| == 8 then
      var (a, e6) := GetInteger(args, 6);
      var (b, e7) := GetInteger(args, 7);
      TileWrite(p, id, flipX, flipY, Bits(a), Bits(b), FirstError(err, FirstError(e6, e7)))
    else
      TileWrite(p, id, flipX, flipY, COLLA_MASK, COLLB_MASK, err)
  }

  function SetTileTarget(layers: seq<SceneLayer>, args: seq<Value>): set<object>
    reads layers, ArgReads(args)
  {
    if |args| >= 6 then Addressed(layers, ReadPosition(args)) else {}
  }

  /** `Scene.SetTile(layer, x, y, id, flipX, flipY[, collA[, collB]])`:
      the tile at the position becomes the packed word, its batch is
      queued for rebuilding and the scene is marked changed; nothing
      happens outside the scene. */
  method SetTile(scene: TileScene, args: seq<Value>) returns (r: Value, err: Option<NativeError>)
    requires Covered(scene.Layers)
    modifies scene`AnyLayerTileChange, scene`BatchUpdates, SetTileTarget(scene.Layers, args)
    ensures r == Null
    ensures |args| < 6 ==>
      err == CheckAtLeastArgCount(args, 6)
      && scene.AnyLayerTileChange == old(scene.AnyLayerTileChange) && scene.BatchUpdates == old(scene.BatchUpdates)
    ensures |args| >= 6 ==>
      var t := old(ReadTileWrite(args));
      var p := t.pos;
      err == t.err
      && (!old(InBounds(scene.Layers, p.layer, p.x, p.y)) ==>
            scene.AnyLayerTileChange == old(scene.AnyLayerTileChange)
            && scene.BatchUpdates == old(scene.BatchUpdates))
      && (old(InBounds(scene.Layers, p.layer, p.x, p.y)) ==>
            var tiles := old(scene.Layers[p.layer].Tiles);
            var k := old(TileIndex(scene.Layers, p));
            tiles[k] == TileWord(Bits(t.id), t.flipX != 0, t.flipY != 0, t.collA, t.collB)
            && (forall j :: 0 <= j < tiles.Length && j != k ==> tiles[j] == old(tiles[j]))
            && scene.AnyLayerTileChange
            && scene.BatchUpdates == old(scene.BatchUpdates) + [(p.layer as int, p.x / 8, p.y / 8)])
  {
    r := Null;
    err := CheckAtLeastArgCount(args, 6);
    if err.Some? {
      return;
    }
    var t := ReadTileWrite(args);
    var p := t.pos;
    err := t.err;
    if !InBounds(scene.Layers, p.layer, p.x, p.y) {
      return;
    }
    var tiles := scene.Layers[p.layer].Tiles;
    var k := TileIndex(scene.Layers, p);
    tiles[k] := TileWord(Bits(t.id), t.flipX != 0, t.flipY != 0, t.collA, t.collB);
    scene.BatchUpdates := scene.BatchUpdates + [(p.layer as int, p.x / 8, p.y / 8)];
    scene.AnyLayerTileChange := true;
  }

  function SidesTarget(layers: seq<SceneLayer>, args: seq<Value>): set<object>
    reads layers, ArgReads(args)
  {
    if |args| == 5 then Addressed(layers, ReadPosition(args)) else {}
  }

  /** `Scene.SetTileCollisionSides(layer, x, y, collA, collB)`: the tile
      keeps its flips and id and takes the new collision sides, and the
      scene is marked changed; nothing happens outside the scene. */
  method SetTileCollisionSides(scene: TileScene, args: seq<Value>) returns (r: Value, err: Option<NativeError>)
    requires Covered(scene.Layers)
    modifies scene`AnyLayerTileChange, SidesTarget(scene.Layers, args)
    ensures r == Null
    ensures |args| != 5 ==> err == CheckArgCount(args, 5) && scene.AnyLayerTileChange == old(scene.AnyLayerTileChange)
    ensures |args| == 5 ==>
      var p := old(ReadPosition(args));
      var (a, e3) := old(GetInteger(args, 3));
      var (b, e4) := old(GetInteger(args, 4));
      err == FirstError(p.err, FirstError(e3, e4))
      && (!old(InBounds(scene.Layers, p.layer, p.x, p.y)) ==> scene.AnyLayerTileChange == old(scene.AnyLayerTileChange))
      && (old(InBounds(scene.Layers, p.layer, p.x, p.y)) ==>
            var tiles := old(scene.Layers[p.layer].Tiles);
            var k := old(TileIndex(scene.Layers, p));
            tiles[k] == SidesWord(old(tiles[k]), Bits(a), Bits(b))
            && (forall j :: 0 <= j < tiles.Length && j != k ==> tiles[j] == old(tiles[j]))
            && scene.AnyLayerTileChange)
  {
    r := Null;
    err := CheckArgCount(args, 5);
    if err.Some? {
      return;
    }
    assert LinkReads(args[3]) + LinkReads(args[4]) <= ArgReads(args);
    var p := ReadPosition(args);
    var (a, e3) := GetInteger(args, 3);
    var (b, e4) := GetInteger(args, 4);
    err := FirstError(p.err, FirstError(e3, e4));
    if !InBounds(scene.Layers, p.layer, p.x, p.y) {
      return;
    }
    var tiles := scene.Layers[p.layer].Tiles;
    var k := TileIndex(scene.Layers, p);
    tiles[k] := SidesWord(tiles[k], Bits(a), Bits(b));
    scene.AnyLayerTileChange := true;
  }
}

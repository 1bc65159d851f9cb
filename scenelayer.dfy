/** A layer of the scene's tile map (`SceneLayer`): its declared field
    defaults, the `w` by `h` grid its constructor allocates, and the
    buffers `Dispose` releases. Tile `(x, y)` of the grid is entry
    `x + y * Width` of `Tiles`. */
module SceneLayers {
  import opened Machine

  type int8 = x: int | -0x80 <= x < 0x80

  /** An entry of the scroll-info table; its fields are not part of this
      model. */
  datatype ScrollingInfo = ScrollingInfo

  /** Rows of deform and scroll-index data per row of tiles. */
  const LINES_PER_ROW: nat := 16

  /** The buffers a layer owns, as `Dispose` names them. */
  datatype Buffer =
    | ScrollInfosBuffer
    | ScrollInfosSplitIndexesBuffer
    | TilesBuffer
    | TilesBackupBuffer
    | DeformBuffer
    | ScrollIndexesBuffer

  /** The buffers every `Dispose` hands to `Memory::Free`, in order, after
      the two optional scroll-info buffers. */
  const ALWAYS_FREED := [TilesBuffer, TilesBackupBuffer, DeformBuffer, ScrollIndexesBuffer]

  class SceneLayer {
    var Visible: bool
    var Width: int32
    var Height: int32
    var RelativeY: int32
    var ConstantY: int32
    var OffsetX: int32
    var OffsetY: int32
    var UseDeltaCameraX: bool
    var UseDeltaCameraY: bool
    var Tiles: array?<bv32>
    var TilesBackup: array?<bv32>
    var TileOffsetY: array?<bv16>
    var Deform: array?<int8>
    var Flags: int32
    var DrawGroup: int32
    var ScrollInfoCount: int32
    var ScrollInfos: array?<ScrollingInfo>
    var ScrollInfosSplitIndexesCount: int32
    var ScrollInfosSplitIndexes: array?<bv16>
    var ScrollIndexes: array?<bv8>
    var BufferID: uint32
    var VertexCount: int32

    /** Every field at the value its declaration gives it. */
    predicate HasDeclaredDefaults(includingGrid: bool)
      reads this
    {
      Visible && RelativeY == 0x0100 && ConstantY == 0 && OffsetX == 0 && OffsetY == 0
      && !UseDeltaCameraX && !UseDeltaCameraY
      && TileOffsetY == null && Flags == 0 && DrawGroup == 0
      && ScrollInfoCount == 0 && ScrollInfos == null
      && ScrollInfosSplitIndexesCount == 0 && ScrollInfosSplitIndexes == null
      && BufferID == 0 && VertexCount == 0
      && (includingGrid ==>
            Width == 0 && Height == 0 && Tiles == null && TilesBackup == null
            && Deform == null && ScrollIndexes == null)
    }

    /** The tile grid covers the layer: `Width * Height` entries, so every
        in-bounds `(x, y)` has a tile. */
    predicate GridCovers()
      reads this
    {
      Tiles != null && 0 <= Width && 0 <= Height && Tiles.Length == Width * Height
    }

    /** `SceneLayer()`: every field keeps its declared default. */
    constructor Empty()
      ensures HasDeclaredDefaults(true)
    {
      Visible := true;
      Width, Height := 0, 0;
      RelativeY, ConstantY, OffsetX, OffsetY := 0x0100, 0, 0, 0;
      UseDeltaCameraX, UseDeltaCameraY := false, false;
      Tiles, TilesBackup, TileOffsetY, Deform := null, null, null, null;
      Flags, DrawGroup := 0, 0;
      ScrollInfoCount, ScrollInfos := 0, null;
      ScrollInfosSplitIndexesCount, ScrollInfosSplitIndexes := 0, null;
      ScrollIndexes := null;
      BufferID, VertexCount := 0, 0;
    }

    /** `SceneLayer(w, h)`: a `w` by `h` grid of zero tiles with a zero
        backup copy, sixteen deform entries per row whose contents are left
        unset, and sixteen zero scroll indexes per row. The other fields
        keep their declared defaults. The source multiplies in `int`, so the
        sizes must not overflow it. */
    constructor (w: int32, h: int32)
      requires 0 <= w && 0 <= h && w * h < TWO_TO_31 && h * LINES_PER_ROW < TWO_TO_31
      ensures Width == w && Height == h
      ensures HasDeclaredDefaults(false)
      ensures GridCovers() && fresh(Tiles)
      ensures forall k :: 0 <= k < Tiles.Length ==> Tiles[k] == 0
      ensures TilesBackup != null && fresh(TilesBackup) && TilesBackup.Length == w * h
      ensures forall k :: 0 <= k < TilesBackup.Length ==> TilesBackup[k] == 0
      ensures Deform != null && fresh(Deform) && Deform.Length == h * LINES_PER_ROW
      ensures ScrollIndexes != null && fresh(ScrollIndexes) && ScrollIndexes.Length == h * LINES_PER_ROW
      ensures forall k :: 0 <= k < ScrollIndexes.Length ==> ScrollIndexes[k] == 0
      ensures Tiles != TilesBackup
    {
      Visible := true;
      RelativeY, ConstantY, OffsetX, OffsetY := 0x0100, 0, 0, 0;
      UseDeltaCameraX, UseDeltaCameraY := false, false;
      TileOffsetY := null;
      Flags, DrawGroup := 0, 0;
      ScrollInfoCount, ScrollInfos := 0, null;
      ScrollInfosSplitIndexesCount, ScrollInfosSplitIndexes := 0, null;
      BufferID, VertexCount := 0, 0;
      Width := w;
      Height := h;
      var cells := w * h;
      var lines := h * LINES_PER_ROW;
      var tiles := ZeroWords(cells);
      var backup := ZeroWords(cells);
      Tiles := tiles;
      TilesBackup := backup;
      Deform := new int8[lines];
      ScrollIndexes := new bv8[lines](_ => 0);
    }

    /** `Dispose`: the scroll-info buffers are freed only when they exist,
        each at most once; the tile, backup, deform and scroll-index
        buffers are then handed to `Memory::Free` whatever they hold, in
        that order. No field changes. */
    method Dispose() returns (freed: seq<Buffer>)
      ensures ScrollInfosBuffer in freed <==> ScrollInfos != null
      ensures ScrollInfosSplitIndexesBuffer in freed <==> ScrollInfosSplitIndexes != null
      ensures |freed| >= |ALWAYS_FREED| && freed[|freed| - |ALWAYS_FREED|..] == ALWAYS_FREED
      ensures freed == (if ScrollInfos != null then [ScrollInfosBuffer] else [])
                       + (if ScrollInfosSplitIndexes != null then [ScrollInfosSplitIndexesBuffer] else [])
                       + ALWAYS_FREED
    {
      freed := [];
      if ScrollInfos != null {
        freed := freed + [ScrollInfosBuffer];
      }
      if ScrollInfosSplitIndexes != null {
        freed := freed + [ScrollInfosSplitIndexesBuffer];
      }
      freed := freed + ALWAYS_FREED;
    }
  }

  /** `TrackedCalloc(n, sizeof(Uint32))`: `n` zero words. */
  method ZeroWords(n: nat) returns (a: array<bv32>)
    ensures fresh(a) && a.Length == n
    ensures forall k :: 0 <= k < n ==> a[k] == 0
  {
    a := new bv32[n](_ => 0);
  }

  /** The grid position of tile `(x, y)` lies inside a covering grid. */
  lemma TileIndexInGrid(x: int, y: int, w: int, h: int)
    requires 0 <= x < w && 0 <= y < h
    ensures 0 <= x + y * w < w * h
  {
    assert y * w <= (h - 1) * w;
  }
}

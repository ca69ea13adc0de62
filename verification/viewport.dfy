/** The terrain part of a minimap frame (the two branches of `Minimap.update` taken when
    the primary layer is drawn by the cached world renderer): how the 128×128 image is
    stitched from cached 128-block tiles, and which tile keys the frame declares it uses.

    A tile is fetched as `tiles(world, originX, originZ)`; the cache itself is not part
    of this model. */
module Viewport {
  import opened Common

  // ---------------------------------------------------------------- 1:1 scale

  /** `v % 128` with Java's remainder, moved into [0, 128) by adding 128 when negative:
      the position of block `v` inside its tile. */
  function BlockOffset(v: int): (o: int)
    ensures InMap(o)
    ensures ShiftAlign(v) + o == v
  {
    var o := JavaRem(v, 128);
    if o < 0 then o + 128 else o
  }

  /** Which of the four fetched tiles a source pixel comes from. */
  datatype Quadrant = Containing | PlusX | PlusXZ | PlusZ

  /** The tile choice of the 1:1 loop, from the signs of `x - offsetX` and `z - offsetZ`. */
  function ChooseQuadrant(dataX: int, dataZ: int): (q: Quadrant)
    ensures q == PlusXZ <==> dataX < 0 && dataZ < 0
    ensures q == PlusX <==> dataX < 0 && dataZ >= 0
    ensures q == PlusZ <==> dataX >= 0 && dataZ < 0
    ensures q == Containing <==> dataX >= 0 && dataZ >= 0
  {
    if dataX < 0 && dataZ < 0 then PlusXZ
    else if dataX < 0 then PlusX
    else if dataZ < 0 then PlusZ
    else Containing
  }

  /** Origin of the tile a quadrant stands for, given the aligned origin of the
      containing tile. */
  function QuadrantOrigin(q: Quadrant, alignedX: int, alignedZ: int): (int, int)
  {
    match q
    case Containing => (alignedX, alignedZ)
    case PlusX => (alignedX + 128, alignedZ)
    case PlusXZ => (alignedX + 128, alignedZ + 128)
    case PlusZ => (alignedX, alignedZ + 128)
  }

  /** A coordinate difference in (-128, 128) moved into [0, 128). */
  function Wrap(d: int): (w: int)
    requires -128 < d < 128
    ensures InMap(w)
    ensures w == d % 128
  {
    if d < 0 then d + 128 else d
  }

  /** The loop position (x or z, in [0, 128)) whose adjusted coordinate is `data`. */
  function Source(data: int, offset: int): (s: int)
    requires InMap(data) && InMap(offset)
    ensures InMap(s)
  {
    (data + offset) % 128
  }

  /** `Source` and `Wrap` are inverse to each other: the loop position `s` adjusts to
      `data` exactly when `data` comes from `s`. */
  lemma SourceWrap(data: int, offset: int, s: int)
    requires InMap(data) && InMap(offset) && InMap(s)
    ensures Source(data, offset) == s <==> Wrap(s - offset) == data
  {
  }

  /** The 1:1 image as a function of each output pixel (reference definition).  Row 127
      and column 127 are never written and stay 0; pixel (row, col) otherwise holds
      the adjusted coordinates `dataZ = 127 - row`, `dataX = 127 - col`, which the loop
      reaches at `z = Source(dataZ, offsetZ)`, `x = Source(dataX, offsetX)`, copying
      pixel (127 - z, 127 - x) of the tile chosen by the signs of `x - offsetX` and
      `z - offsetZ`. */
  function OneToOnePixel(tiles: (World, int, int) -> Tile, world: World, blockX: int, blockZ: int, row: int, col: int): Byte
    requires InMap(row) && InMap(col)
  {
    if row == 127 || col == 127 then 0
    else
      var offsetX, offsetZ := BlockOffset(blockX), BlockOffset(blockZ);
      var x, z := Source(127 - col, offsetX), Source(127 - row, offsetZ);
      var origin := QuadrantOrigin(ChooseQuadrant(x - offsetX, z - offsetZ), ShiftAlign(blockX), ShiftAlign(blockZ));
      CellInjective(127 - z, 127 - x, 0, 0);
      tiles(world, origin.0, origin.1)[Cell(127 - z, 127 - x)]
  }

  function OneToOneImage(tiles: (World, int, int) -> Tile, world: World, blockX: int, blockZ: int): (img: Tile)
  {
    seq(TileSize, i requires 0 <= i < TileSize => OneToOnePixel(tiles, world, blockX, blockZ, i / 128, i % 128))
  }

  /** Whether the loop, standing at (x, z) of the z-outer, x-inner scan, has already
      visited (x', z'). */
  predicate Visited(z: int, x: int, z': int, x': int)
  {
    z' < z || (z' == z && x' < x)
  }

  /** The 1:1 scan's progress: standing at (x, z), exactly the output pixels it has
      visited hold their final value, and every other pixel is still 0. */
  ghost predicate OneToOneScanned(s: seq<Byte>, tiles: (World, int, int) -> Tile, world: World, blockX: int, blockZ: int, z: int, x: int)
  {
    && |s| == TileSize
    && forall row, col {:trigger s[Cell(row, col)]} | InMap(row) && InMap(col) ::
      s[Cell(row, col)] == ScanValue(tiles, world, blockX, blockZ, z, x, row, col)
  }

  /** What output pixel (row, col) holds when the scan stands at (x, z). */
  function ScanValue(tiles: (World, int, int) -> Tile, world: World, blockX: int, blockZ: int, z: int, x: int, row: int, col: int): Byte
    requires InMap(row) && InMap(col)
  {
    if row < 127 && col < 127 && Visited(z, x, Source(127 - row, BlockOffset(blockZ)), Source(127 - col, BlockOffset(blockX)))
    then OneToOnePixel(tiles, world, blockX, blockZ, row, col) else 0
  }

  /** The 1:1 branch of `update`: the four tiles around the holder's block (containing,
      +X, +X+Z, +Z) are stitched by a scan over z then x that writes each output pixel
      whose adjusted coordinates are both positive, once. */
  method RenderOneToOne(tiles: (World, int, int) -> Tile, world: World, blockX: int, blockZ: int) returns (pixels: Tile)
    ensures pixels == OneToOneImage(tiles, world, blockX, blockZ)
  {
    var layer := new Byte[TileSize](_ => 0);
    var alignedX := ShiftAlign(blockX);
    var alignedZ := ShiftAlign(blockZ);
    var offsetX := JavaRem(blockX, 128);
    var offsetZ := JavaRem(blockZ, 128);
    if offsetX < 0 {
      offsetX := offsetX + 128;
    }
    if offsetZ < 0 {
      offsetZ := offsetZ + 128;
    }
    assert offsetX == BlockOffset(blockX) && offsetZ == BlockOffset(blockZ);
    var data := tiles(world, alignedX, alignedZ);
    var dataRight := tiles(world, alignedX + 128, alignedZ);
    var dataUpRight := tiles(world, alignedX + 128, alignedZ + 128);
    var dataUp := tiles(world, alignedX, alignedZ + 128);
    ScanStart(layer[..], tiles, world, blockX, blockZ);
    var z := 0;
    while z < 128
      invariant 0 <= z <= 128
      invariant OneToOneScanned(layer[..], tiles, world, blockX, blockZ, z, 0)
    {
      var x := 0;
      while x < 128
        invariant 0 <= x <= 128
        invariant OneToOneScanned(layer[..], tiles, world, blockX, blockZ, z, x)
      {
        var dataX := x - offsetX;
        var dataZ := z - offsetZ;
        var buffer := data;
        if dataX < 0 && dataZ < 0 {
          dataX := dataX + 128;
          dataZ := dataZ + 128;
          buffer := dataUpRight;
        } else if dataX < 0 {
          dataX := dataX + 128;
          buffer := dataRight;
        } else if dataZ < 0 {
          dataZ := dataZ + 128;
          buffer := dataUp;
        }
        assert dataX == Wrap(x - offsetX) && dataZ == Wrap(z - offsetZ);
        StepOneToOne(layer, tiles, world, blockX, blockZ, z, x, dataZ, dataX, buffer);
        x := x + 1;
      }
      RowScanned(layer[..], tiles, world, blockX, blockZ, z);
      z := z + 1;
    }
    pixels := layer[..];
    ScanComplete(pixels, tiles, world, blockX, blockZ);
  }

  /** One pass of the inner loop body of the 1:1 scan, at (x, z): writes output pixel
      (127 - dataZ, 127 - dataX) when both adjusted coordinates are positive. */
  method StepOneToOne(layer: array<Byte>, tiles: (World, int, int) -> Tile, world: World, blockX: int, blockZ: int,
                      z: int, x: int, dataZ: int, dataX: int, buffer: Tile)
    requires layer.Length == TileSize
    requires InMap(z) && InMap(x)
    requires dataX == Wrap(x - BlockOffset(blockX)) && dataZ == Wrap(z - BlockOffset(blockZ))
    requires
      var origin := QuadrantOrigin(ChooseQuadrant(x - BlockOffset(blockX), z - BlockOffset(blockZ)), ShiftAlign(blockX), ShiftAlign(blockZ));
      buffer == tiles(world, origin.0, origin.1)
    requires OneToOneScanned(layer[..], tiles, world, blockX, blockZ, z, x)
    modifies layer
    ensures OneToOneScanned(layer[..], tiles, world, blockX, blockZ, z, x + 1)
  {
    if dataX > 0 && dataZ > 0 {
      CellInjective(127 - dataZ, 127 - dataX, 0, 0);
      CellInjective(127 - z, 127 - x, 0, 0);
      StepSource(tiles, world, blockX, blockZ, z, x, buffer);
      var target := (127 - dataZ) * 128 + (127 - dataX);
      var pixel := buffer[(127 - z) * 128 + (127 - x)];
      ghost var before := layer[..];
      layer[target] := pixel;
      assert layer[..] == before[target := pixel];
      ScanWrites(before, tiles, world, blockX, blockZ, z, x);
    } else {
      ScanSkips(layer[..], tiles, world, blockX, blockZ, z, x);
    }
  }

  /** The pixel a step copies from its quadrant's tile is the 1:1 image's pixel at the
      output cell it writes. */
  lemma StepSource(tiles: (World, int, int) -> Tile, world: World, blockX: int, blockZ: int, z: int, x: int, buffer: Tile)
    requires InMap(z) && InMap(x)
    requires Wrap(x - BlockOffset(blockX)) > 0 && Wrap(z - BlockOffset(blockZ)) > 0
    requires
      var origin := QuadrantOrigin(ChooseQuadrant(x - BlockOffset(blockX), z - BlockOffset(blockZ)), ShiftAlign(blockX), ShiftAlign(blockZ));
      buffer == tiles(world, origin.0, origin.1)
    ensures buffer[Cell(127 - z, 127 - x)] ==
      OneToOnePixel(tiles, world, blockX, blockZ, 127 - Wrap(z - BlockOffset(blockZ)), 127 - Wrap(x - BlockOffset(blockX)))
  {
    SourceWrap(Wrap(z - BlockOffset(blockZ)), BlockOffset(blockZ), z);
    SourceWrap(Wrap(x - BlockOffset(blockX)), BlockOffset(blockX), x);
  }

  /** A fresh buffer is the scan's state before its first step. */
  lemma ScanStart(s: seq<Byte>, tiles: (World, int, int) -> Tile, world: World, blockX: int, blockZ: int)
    requires |s| == TileSize && forall i | 0 <= i < TileSize :: s[i] == 0
    ensures OneToOneScanned(s, tiles, world, blockX, blockZ, 0, 0)
  {
    forall row, col | InMap(row) && InMap(col) ensures s[Cell(row, col)] == 0 {
      CellInjective(row, col, 0, 0);
    }
  }

  /** Finishing a row of the scan is starting the next. */
  lemma RowScanned(s: seq<Byte>, tiles: (World, int, int) -> Tile, world: World, blockX: int, blockZ: int, z: int)
    requires OneToOneScanned(s, tiles, world, blockX, blockZ, z, 128)
    ensures OneToOneScanned(s, tiles, world, blockX, blockZ, z + 1, 0)
  {
  }

  /** After the last row, the buffer is the 1:1 image. */
  lemma ScanComplete(s: seq<Byte>, tiles: (World, int, int) -> Tile, world: World, blockX: int, blockZ: int)
    requires OneToOneScanned(s, tiles, world, blockX, blockZ, 128, 0)
    ensures s == OneToOneImage(tiles, world, blockX, blockZ)
  {
    forall i | 0 <= i < TileSize
      ensures s[i] == OneToOneImage(tiles, world, blockX, blockZ)[i]
    {
      CellDecompose(i);
      assert s[i] == s[Cell(i / 128, i % 128)];
    }
  }

  /** A step whose adjusted coordinates are both positive writes the one pixel it
      visits, with its final value. */
  lemma ScanWrites(s: seq<Byte>, tiles: (World, int, int) -> Tile, world: World, blockX: int, blockZ: int, z: int, x: int)
    requires InMap(z) && InMap(x)
    requires Wrap(x - BlockOffset(blockX)) > 0 && Wrap(z - BlockOffset(blockZ)) > 0
    requires OneToOneScanned(s, tiles, world, blockX, blockZ, z, x)
    ensures var row, col := 127 - Wrap(z - BlockOffset(blockZ)), 127 - Wrap(x - BlockOffset(blockX));
      OneToOneScanned(s[Cell(row, col) := OneToOnePixel(tiles, world, blockX, blockZ, row, col)], tiles, world, blockX, blockZ, z, x + 1)
  {
    var row', col' := 127 - Wrap(z - BlockOffset(blockZ)), 127 - Wrap(x - BlockOffset(blockX));
    CellInjective(row', col', 0, 0);
    var s' := s[Cell(row', col') := OneToOnePixel(tiles, world, blockX, blockZ, row', col')];
    forall row, col | InMap(row) && InMap(col)
      ensures s'[Cell(row, col)] == ScanValue(tiles, world, blockX, blockZ, z, x + 1, row, col)
    {
      CellInjective(row, col, row', col');
      WrittenCell(tiles, world, blockX, blockZ, z, x, row, col);
      if row == row' && col == col' {
        assert s'[Cell(row, col)] == OneToOnePixel(tiles, world, blockX, blockZ, row, col);
      } else {
        assert s'[Cell(row, col)] == s[Cell(row, col)];
      }
    }
    assert OneToOneScanned(s', tiles, world, blockX, blockZ, z, x + 1);
  }

  /** At a step that writes, a pixel gains its value exactly when it is the one written. */
  lemma WrittenCell(tiles: (World, int, int) -> Tile, world: World, blockX: int, blockZ: int, z: int, x: int, row: int, col: int)
    requires InMap(z) && InMap(x) && InMap(row) && InMap(col)
    requires Wrap(x - BlockOffset(blockX)) > 0 && Wrap(z - BlockOffset(blockZ)) > 0
    ensures var row', col' := 127 - Wrap(z - BlockOffset(blockZ)), 127 - Wrap(x - BlockOffset(blockX));
      ScanValue(tiles, world, blockX, blockZ, z, x + 1, row, col) ==
        if row == row' && col == col' then OneToOnePixel(tiles, world, blockX, blockZ, row, col)
        else ScanValue(tiles, world, blockX, blockZ, z, x, row, col)
  {
    if row < 127 && col < 127 {
      NextVisited(row, col, z, x, BlockOffset(blockZ), BlockOffset(blockX));
    }
  }

  /** A step with an adjusted coordinate of 0 visits no written pixel. */
  lemma ScanSkips(s: seq<Byte>, tiles: (World, int, int) -> Tile, world: World, blockX: int, blockZ: int, z: int, x: int)
    requires InMap(z) && InMap(x)
    requires Wrap(x - BlockOffset(blockX)) == 0 || Wrap(z - BlockOffset(blockZ)) == 0
    requires OneToOneScanned(s, tiles, world, blockX, blockZ, z, x)
    ensures OneToOneScanned(s, tiles, world, blockX, blockZ, z, x + 1)
  {
    forall row, col | InMap(row) && InMap(col)
      ensures ScanValue(tiles, world, blockX, blockZ, z, x + 1, row, col) == ScanValue(tiles, world, blockX, blockZ, z, x, row, col)
    {
      if row < 127 && col < 127 {
        NextVisited(row, col, z, x, BlockOffset(blockZ), BlockOffset(blockX));
      }
    }
  }

  /** Advancing the scan from (x, z) to (x + 1, z) visits one more output pixel: the
      one whose adjusted coordinates are those of (x, z). */
  lemma NextVisited(row: int, col: int, z: int, x: int, offsetZ: int, offsetX: int)
    requires InMap(row) && InMap(col) && row < 127 && col < 127
    requires InMap(z) && InMap(x) && InMap(offsetZ) && InMap(offsetX)
    ensures Visited(z, x + 1, Source(127 - row, offsetZ), Source(127 - col, offsetX)) <==>
      Visited(z, x, Source(127 - row, offsetZ), Source(127 - col, offsetX))
      || (Wrap(z - offsetZ) == 127 - row && Wrap(x - offsetX) == 127 - col)
  {
    SourceWrap(127 - row, offsetZ, z);
    SourceWrap(127 - col, offsetX, x);
  }

  /** With the holder at offset (0, 0) of its tile, the 1:1 image is the containing tile
      itself, pixel for pixel, but for row 127 and column 127, which stay 0. */
  lemma AlignedViewIsContainingTile(tiles: (World, int, int) -> Tile, world: World, blockX: int, blockZ: int)
    requires BlockOffset(blockX) == 0 && BlockOffset(blockZ) == 0
    ensures forall row, col | InMap(row) && InMap(col) ::
      OneToOneImage(tiles, world, blockX, blockZ)[Cell(row, col)] ==
        if row == 127 || col == 127 then 0 else tiles(world, blockX, blockZ)[Cell(row, col)]
  {
    forall row, col | InMap(row) && InMap(col)
      ensures OneToOneImage(tiles, world, blockX, blockZ)[Cell(row, col)] ==
        if row == 127 || col == 127 then 0 else tiles(world, blockX, blockZ)[Cell(row, col)]
    {
      CellInjective(row, col, 0, 0);
      var i := Cell(row, col);
      CellDecompose(i);
      CellInjective(row, col, i / 128, i % 128);
    }
  }

  /** The tile keys the 1:1 branch hands to the cache: the tile containing the block
      (`(int) Math.floor` of `playerX`, `playerZ`) and its +X, +X+Z and +Z neighbours,
      in that order. */
  function OneToOneKeys(world: World, playerX: real, playerZ: real): (keys: seq<TileKey>)
    ensures |keys| == 4
    ensures forall k | 0 <= k < 4 ::
      keys[k] == TileKey(world, ShiftAlign(Floor(playerX)) + (if k == 1 || k == 2 then 128 else 0),
                                ShiftAlign(Floor(playerZ)) + (if k == 2 || k == 3 then 128 else 0))
  {
    var alignedTrackX := ShiftAlign(Floor(playerX));
    var alignedTrackZ := ShiftAlign(Floor(playerZ));
    [TileKey(world, alignedTrackX, alignedTrackZ),
     TileKey(world, alignedTrackX + 128, alignedTrackZ),
     TileKey(world, alignedTrackX + 128, alignedTrackZ + 128),
     TileKey(world, alignedTrackX, alignedTrackZ + 128)]
  }

  /** The keys of the four tiles the 1:1 image is stitched from. */
  function FetchedKeys(world: World, blockX: int, blockZ: int): (keys: seq<TileKey>)
  {
    seq(4, k requires 0 <= k < 4 =>
      var q := [Containing, PlusX, PlusXZ, PlusZ][k];
      var origin := QuadrantOrigin(q, ShiftAlign(blockX), ShiftAlign(blockZ));
      TileKey(world, origin.0, origin.1))
  }

  /** The declared keys are those of the tiles actually used only because the caller
      passes the holder's own coordinates: the stitching takes its origin from the
      holder's block, the keys from the `playerX`, `playerZ` arguments.  They agree
      exactly when both name the same block. */
  lemma KeysMatchFetchedTiles(world: World, playerX: real, playerZ: real, blockX: int, blockZ: int)
    ensures OneToOneKeys(world, playerX, playerZ) == FetchedKeys(world, blockX, blockZ)
      <==> ShiftAlign(Floor(playerX)) == ShiftAlign(blockX) && ShiftAlign(Floor(playerZ)) == ShiftAlign(blockZ)
  {
    var keys, fetched := OneToOneKeys(world, playerX, playerZ), FetchedKeys(world, blockX, blockZ);
    if ShiftAlign(Floor(playerX)) == ShiftAlign(blockX) && ShiftAlign(Floor(playerZ)) == ShiftAlign(blockZ) {
      forall k | 0 <= k < 4 ensures keys[k] == fetched[k] {
      }
    } else {
      assert keys[0] != fetched[0];
    }
  }

  // ---------------------------------------------------------------- zoomed

  /** Start of the zoomed view along one axis: the scaled block of the player, less 64
      pixels' worth of blocks. */
  function ViewStart(p: real, scale: int): int
    requires scale >= 1
  {
    Floor(p / scale as real) * scale - 64 * scale
  }

  /** Origin of the tile a world coordinate is read from: tiles of the zoomed path sit
      on a grid shifted by 64. */
  function ZoomedOrigin(w: int): int
  {
    ShiftAlign(w + 64)
  }

  /** Position of world coordinate `w` inside its zoomed-path tile. */
  function ZoomedData(w: int): (d: int)
    ensures InMap(d)
    ensures ZoomedOrigin(w) - 64 + d == w
  {
    w - (ZoomedOrigin(w) - 64)
  }

  /** World coordinate of loop position `i` of a view starting at `start`. */
  function WorldAt(start: int, i: int, scale: int): int
  {
    start + i * scale
  }

  /** The 128 loop positions of a view stay within its 128·scale blocks. */
  lemma WorldAtBounds(start: int, i: int, scale: int)
    requires InMap(i) && scale >= 1
    ensures start <= WorldAt(start, i, scale) <= start + 128 * scale - 1
  {
    assert i * scale >= 0;
    assert (127 - i) * scale >= 0;
  }

  /** The pixel the zoomed scan copies for world block (worldX, worldZ): pixel
      (127 - dataZ, 127 - dataX) of the tile holding it. */
  function ZoomedPixel(tiles: (World, int, int) -> Tile, world: World, worldX: int, worldZ: int): Byte
  {
    CellInjective(127 - ZoomedData(worldZ), 127 - ZoomedData(worldX), 0, 0);
    tiles(world, ZoomedOrigin(worldX), ZoomedOrigin(worldZ))[Cell(127 - ZoomedData(worldZ), 127 - ZoomedData(worldX))]
  }

  /** The zoomed image, pixel by pixel: output pixel (row, col) is written at loop
      position x = 127 - col, z = 127 - row. */
  function ZoomedImage(tiles: (World, int, int) -> Tile, world: World, startX: int, startZ: int, scale: int): Tile
  {
    seq(TileSize, i requires 0 <= i < TileSize =>
      ZoomedPixel(tiles, world, WorldAt(startX, 127 - i % 128, scale), WorldAt(startZ, 127 - i / 128, scale)))
  }

  /** The zoomed branch of `update`: every output pixel is written exactly once, at
      (127 - z, 127 - x), from the tile holding block (startX + x·scale, startZ + z·scale). */
  method RenderZoomed(tiles: (World, int, int) -> Tile, world: World, playerX: real, playerZ: real, scale: int)
    returns (pixels: Tile)
    requires scale >= 1
    ensures pixels == ZoomedImage(tiles, world, ViewStart(playerX, scale), ViewStart(playerZ, scale), scale)
  {
    var layer := new Byte[TileSize](_ => 0);
    var centerX := Floor(playerX / scale as real) * scale;
    var centerZ := Floor(playerZ / scale as real) * scale;
    var startX := centerX - 64 * scale;
    var startZ := centerZ - 64 * scale;
    var z := 0;
    while z < 128
      invariant 0 <= z <= 128
      invariant forall row, col {:trigger layer[Cell(row, col)]} | InMap(row) && InMap(col) ::
        layer[Cell(row, col)] ==
          if Visited(z, 0, 127 - row, 127 - col) then ZoomedPixel(tiles, world, WorldAt(startX, 127 - col, scale), WorldAt(startZ, 127 - row, scale)) else 0
    {
      var worldZ := startZ + z * scale;
      assert worldZ == WorldAt(startZ, z, scale);
      var alignedZ := ShiftAlign(worldZ + 64);
      var dataZ := worldZ - (alignedZ - 64);
      assert alignedZ == ZoomedOrigin(worldZ) && dataZ == ZoomedData(worldZ);
      var x := 0;
      while x < 128
        invariant 0 <= x <= 128
        invariant forall row, col {:trigger layer[Cell(row, col)]} | InMap(row) && InMap(col) ::
          layer[Cell(row, col)] ==
            if Visited(z, x, 127 - row, 127 - col) then ZoomedPixel(tiles, world, WorldAt(startX, 127 - col, scale), WorldAt(startZ, 127 - row, scale)) else 0
      {
        StepZoomed(layer, tiles, world, startX, startZ, scale, z, x, alignedZ, dataZ);
        x := x + 1;
      }
      z := z + 1;
    }
    pixels := layer[..];
    forall i | 0 <= i < TileSize
      ensures pixels[i] == ZoomedImage(tiles, world, startX, startZ, scale)[i]
    {
      CellDecompose(i);
      assert pixels[i] == layer[Cell(i / 128, i % 128)];
    }
  }

  /** One pass of the inner loop body of the zoomed scan, at (x, z): copies the pixel of
      block (startX + x·scale, startZ + z·scale) to output pixel (127 - z, 127 - x). */
  method StepZoomed(layer: array<Byte>, tiles: (World, int, int) -> Tile, world: World, startX: int, startZ: int,
                    scale: int, z: int, x: int, alignedZ: int, dataZ: int)
    requires layer.Length == TileSize
    requires InMap(z) && InMap(x)
    requires alignedZ == ZoomedOrigin(WorldAt(startZ, z, scale)) && dataZ == ZoomedData(WorldAt(startZ, z, scale))
    requires forall row, col {:trigger layer[Cell(row, col)]} | InMap(row) && InMap(col) ::
      layer[Cell(row, col)] ==
        if Visited(z, x, 127 - row, 127 - col) then ZoomedPixel(tiles, world, WorldAt(startX, 127 - col, scale), WorldAt(startZ, 127 - row, scale)) else 0
    modifies layer
    ensures forall row, col {:trigger layer[Cell(row, col)]} | InMap(row) && InMap(col) ::
      layer[Cell(row, col)] ==
        if Visited(z, x + 1, 127 - row, 127 - col) then ZoomedPixel(tiles, world, WorldAt(startX, 127 - col, scale), WorldAt(startZ, 127 - row, scale)) else 0
  {
    var worldX := startX + x * scale;
    assert worldX == WorldAt(startX, x, scale);
    var alignedX := ShiftAlign(worldX + 64);
    var dataX := worldX - (alignedX - 64);
    var buffer := tiles(world, alignedX, alignedZ);
    assert dataX == ZoomedData(worldX);
    CellInjective(127 - dataZ, 127 - dataX, 0, 0);
    CellInjective(127 - z, 127 - x, 0, 0);
    var inputIndex := (127 - dataZ) * 128 + (127 - dataX);
    var outputIndex := (127 - z) * 128 + (127 - x);
    layer[outputIndex] := buffer[inputIndex];
    forall row, col {:trigger layer[Cell(row, col)]} | InMap(row) && InMap(col)
      ensures layer[Cell(row, col)] ==
        if Visited(z, x + 1, 127 - row, 127 - col) then ZoomedPixel(tiles, world, WorldAt(startX, 127 - col, scale), WorldAt(startZ, 127 - row, scale)) else 0
    {
      CellInjective(row, col, 127 - z, 127 - x);
    }
  }

  /** The keys `x`, `x + 128`, ... up to `zEnd` along Z, at X origin `x`. */
  function KeyColumn(world: World, x: int, z: int, zEnd: int): seq<TileKey>
    decreases zEnd - z + 128
  {
    if z > zEnd then [] else [TileKey(world, x, z)] + KeyColumn(world, x, z + 128, zEnd)
  }

  /** The key list of the zoomed branch: X outer, Z inner, each from its aligned start
      to its aligned end in steps of 128. */
  function KeyGrid(world: World, x: int, xEnd: int, zStart: int, zEnd: int): seq<TileKey>
    decreases xEnd - x + 128
  {
    if x > xEnd then [] else KeyColumn(world, x, zStart, zEnd) + KeyGrid(world, x + 128, xEnd, zStart, zEnd)
  }

  /** The key list of the zoomed branch for a view starting at (startX, startZ). */
  function ZoomedKeys(world: World, startX: int, startZ: int, scale: int): seq<TileKey>
  {
    var endX, endZ := startX + 128 * scale - 1, startZ + 128 * scale - 1;
    KeyGrid(world, ZoomedOrigin(startX), ZoomedOrigin(endX), ZoomedOrigin(startZ), ZoomedOrigin(endZ))
  }

  /** The key-collecting loops of the zoomed branch. */
  method CollectZoomedKeys(world: World, startX: int, startZ: int, scale: int) returns (usedChunks: seq<TileKey>)
    requires scale >= 1
    ensures usedChunks == ZoomedKeys(world, startX, startZ, scale)
  {
    var endX := startX + 128 * scale - 1;
    var endZ := startZ + 128 * scale - 1;
    usedChunks := [];
    var alignedStartX := ((startX + 64) / 128) * 128;
    var alignedStartZ := ((startZ + 64) / 128) * 128;
    var alignedEndX := ((endX + 64) / 128) * 128;
    var alignedEndZ := ((endZ + 64) / 128) * 128;
    var x := alignedStartX;
    while x <= alignedEndX
      invariant usedChunks + KeyGrid(world, x, alignedEndX, alignedStartZ, alignedEndZ)
        == KeyGrid(world, alignedStartX, alignedEndX, alignedStartZ, alignedEndZ)
      decreases alignedEndX - x + 128
    {
      ghost var before := usedChunks;
      usedChunks := AppendColumn(usedChunks, world, x, alignedStartZ, alignedEndZ);
      ghost var column := KeyColumn(world, x, alignedStartZ, alignedEndZ);
      ghost var rest := KeyGrid(world, x + 128, alignedEndX, alignedStartZ, alignedEndZ);
      assert KeyGrid(world, x, alignedEndX, alignedStartZ, alignedEndZ) == column + rest;
      Associative(before, column, rest);
      x := x + 128;
    }
  }

  /** The inner loop of the zoomed key collection: appends the keys of column `x`, from
      `zStart` to `zEnd` in steps of 128. */
  method AppendColumn(usedChunks: seq<TileKey>, world: World, x: int, zStart: int, zEnd: int) returns (r: seq<TileKey>)
    ensures r == usedChunks + KeyColumn(world, x, zStart, zEnd)
  {
    r := usedChunks;
    var z := zStart;
    while z <= zEnd
      invariant r + KeyColumn(world, x, z, zEnd) == usedChunks + KeyColumn(world, x, zStart, zEnd)
      decreases zEnd - z + 128
    {
      ghost var rest := KeyColumn(world, x, z + 128, zEnd);
      assert KeyColumn(world, x, z, zEnd) == [TileKey(world, x, z)] + rest;
      Associative(r, [TileKey(world, x, z)], rest);
      r := r + [TileKey(world, x, z)];
      z := z + 128;
    }
    assert KeyColumn(world, x, z, zEnd) == [];
  }

  lemma Associative<T>(a: seq<T>, b: seq<T>, c: seq<T>)
    ensures (a + b) + c == a + (b + c)
  {
  }

  /** A key is in a column exactly when its Z lies on the column's 128-step grid. */
  lemma {:induction false} InKeyColumn(world: World, x: int, z: int, zEnd: int, key: TileKey)
    ensures key in KeyColumn(world, x, z, zEnd) <==>
      key.world == world && key.x == x && z <= key.z <= zEnd && (key.z - z) % 128 == 0
    decreases zEnd - z + 128
  {
    if z <= zEnd {
      InKeyColumn(world, x, z + 128, zEnd, key);
      StepMod(key.z - z);
    }
  }

  lemma StepMod(d: int)
    ensures (d - 128) % 128 == d % 128
  {
  }

  /** A key is in the grid exactly when both its coordinates lie on the grid. */
  lemma {:induction false} InKeyGrid(world: World, x: int, xEnd: int, zStart: int, zEnd: int, key: TileKey)
    ensures key in KeyGrid(world, x, xEnd, zStart, zEnd) <==>
      key.world == world && x <= key.x <= xEnd && (key.x - x) % 128 == 0
      && zStart <= key.z <= zEnd && (key.z - zStart) % 128 == 0
    decreases xEnd - x + 128
  {
    if x <= xEnd {
      InKeyColumn(world, x, zStart, zEnd, key);
      InKeyGrid(world, x + 128, xEnd, zStart, zEnd, key);
      StepMod(key.x - x);
    }
  }

  lemma AlignMonotone(a: int, b: int)
    requires a <= b
    ensures ShiftAlign(a) <= ShiftAlign(b)
  {
  }

  lemma AlignedDifference(a: int, b: int)
    ensures (ShiftAlign(a) - ShiftAlign(b)) % 128 == 0
  {
    assert ShiftAlign(a) - ShiftAlign(b) == (a / 128 - b / 128) * 128;
  }

  /** Every tile the zoomed scan reads, at any loop position, is among the keys the
      branch declares. */
  lemma ZoomedKeysCoverFetchedTiles(world: World, startX: int, startZ: int, scale: int, x: int, z: int)
    requires scale >= 1 && InMap(x) && InMap(z)
    ensures TileKey(world, ZoomedOrigin(WorldAt(startX, x, scale)), ZoomedOrigin(WorldAt(startZ, z, scale)))
      in ZoomedKeys(world, startX, startZ, scale)
  {
    OriginOnViewGrid(startX, x, scale);
    OriginOnViewGrid(startZ, z, scale);
    InZoomedKeys(world, startX, startZ, scale, TileKey(world, ZoomedOrigin(WorldAt(startX, x, scale)), ZoomedOrigin(WorldAt(startZ, z, scale))));
  }

  /** Along one axis, the tile origin of every loop position lies on the 128-grid from
      the origin of the view's first block to that of its last. */
  lemma OriginOnViewGrid(start: int, i: int, scale: int)
    requires scale >= 1 && InMap(i)
    ensures var origin, end := ZoomedOrigin(WorldAt(start, i, scale)), start + 128 * scale - 1;
      ZoomedOrigin(start) <= origin <= ZoomedOrigin(end) && (origin - ZoomedOrigin(start)) % 128 == 0
  {
    var end, w := start + 128 * scale - 1, WorldAt(start, i, scale);
    WorldAtBounds(start, i, scale);
    AlignMonotone(start + 64, w + 64);
    AlignMonotone(w + 64, end + 64);
    AlignedDifference(w + 64, start + 64);
  }

  /** A key is declared by the zoomed branch exactly when both its coordinates lie on
      the 128-grid of tile origins spanning the view. */
  lemma InZoomedKeys(world: World, startX: int, startZ: int, scale: int, key: TileKey)
    ensures var endX, endZ := startX + 128 * scale - 1, startZ + 128 * scale - 1;
      key in ZoomedKeys(world, startX, startZ, scale) <==>
        && key.world == world
        && ZoomedOrigin(startX) <= key.x <= ZoomedOrigin(endX) && (key.x - ZoomedOrigin(startX)) % 128 == 0
        && ZoomedOrigin(startZ) <= key.z <= ZoomedOrigin(endZ) && (key.z - ZoomedOrigin(startZ)) % 128 == 0
  {
    var endX, endZ := startX + 128 * scale - 1, startZ + 128 * scale - 1;
    InKeyGrid(world, ZoomedOrigin(startX), ZoomedOrigin(endX), ZoomedOrigin(startZ), ZoomedOrigin(endZ), key);
  }
}

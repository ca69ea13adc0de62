/** Shared vocabulary of the minimap core: Java bytes and 128×128 pixel buffers,
    worlds, players and tile keys, layer renderers, the effects a frame sends out,
    and the outside collaborators a frame depends on (bundled in `Env`). */
module Common {

  datatype Option<T> = None | Some(value: T)

  /** A Java `byte`. */
  newtype Byte = b: int | -128 <= b < 128

  /** Side of a map image, in pixels. */
  const MapSide: int := 128

  /** Number of pixels of a map image. */
  const TileSize: int := 16384

  /** A 128×128 map image in row-major order, one palette index per pixel. */
  type Tile = s: seq<Byte> | |s| == TileSize witness seq(16384, _ => 0)

  /** The zero-filled buffer `new byte[128 * 128]`. */
  function Blank(): (t: Tile)
    ensures forall i | 0 <= i < TileSize :: t[i] == 0
  {
    seq(TileSize, _ => 0)
  }

  /** Index of pixel (row, col) in a row-major 128×128 buffer. */
  function Cell(row: int, col: int): int
  {
    row * 128 + col
  }

  predicate InMap(v: int)
  {
    0 <= v < 128
  }

  /** Every index of a buffer is the cell of exactly one (row, col). */
  lemma CellDecompose(i: int)
    requires 0 <= i < TileSize
    ensures InMap(i / 128) && InMap(i % 128) && Cell(i / 128, i % 128) == i
  {
  }

  lemma CellInjective(r1: int, c1: int, r2: int, c2: int)
    requires InMap(r1) && InMap(c1) && InMap(r2) && InMap(c2)
    ensures 0 <= Cell(r1, c1) < TileSize
    ensures Cell(r1, c1) == Cell(r2, c2) <==> r1 == r2 && c1 == c2
  {
  }

  // ---------------------------------------------------------------- Java arithmetic

  /** Java's `a % b` for a positive divisor: the remainder takes the sign of `a`. */
  function JavaRem(a: int, b: int): (r: int)
    requires b > 0
    ensures -b < r < b
    ensures a >= 0 ==> r >= 0
    ensures a < 0 ==> r <= 0
  {
    if a >= 0 then a % b else -((-a) % b)
  }

  /** Java's `a / b` for a positive divisor: the quotient is truncated toward zero. */
  function JavaDiv(a: int, b: int): (q: int)
    requires b > 0
    ensures a >= 0 ==> q * b <= a < q * b + b
    ensures a < 0 ==> q * b - b < a <= q * b
  {
    if a >= 0 then a / b else -((-a) / b)
  }

  /** `(v >> 7) << 7` on a two's-complement int: an arithmetic shift right by 7 is
      division by 128 rounded toward negative infinity, which is what Dafny's `/`
      does for a positive divisor. */
  function ShiftAlign(v: int): int
  {
    (v / 128) * 128
  }

  /** `(int) Math.floor(r)` (integer overflow is not modelled). */
  function Floor(r: real): int
  {
    r.Floor
  }

  /** `Math.round(r)`: the nearest integer, halves rounded up. */
  function Round(r: real): (n: int)
    ensures r - 0.5 < n as real <= r + 0.5
  {
    (r + 0.5).Floor
  }

  /** The cast `(int) r` of a double: truncation toward zero. */
  function Truncate(r: real): (n: int)
    ensures r >= 0.0 ==> n == r.Floor
    ensures r < 0.0 ==> n == -((-r).Floor)
  {
    if r >= 0.0 then r.Floor else -((-r).Floor)
  }

  // ---------------------------------------------------------------- entities

  /** Identity of a world. */
  type World = nat

  /** The player holding a minimap: identity, current world and exact position. */
  datatype Player = Player(id: nat, world: World, x: real, y: real, z: real)

  /** A location whose world may be unset (Bukkit's `Location`). */
  datatype Location = Location(world: Option<World>, x: real, y: real, z: real)

  /** Key of a cached terrain tile: its world and 128-aligned origin.  Keeping the
      three parts apart makes the key injective by construction. */
  datatype TileKey = TileKey(world: World, x: int, z: int)

  datatype Shape = Circle | Square

  datatype ScreenPosition = Left | Right

  datatype Icon = Icon(width: int, height: int)

  /** What draws a layer: the cached world-map renderer, an icon renderer, or some
      other renderer the core does not look into. */
  datatype Renderer = WorldCache | IconRenderer(icon: Icon) | Custom(id: nat)

  /** A client-side map surface and the renderer attached to it, if any. */
  datatype BaseLayer = BaseLayer(id: nat, renderer: Option<Renderer>)

  /** A marker layer over the minimap (`SecondaryMinimapLayer`); `isMarker` tells
      whether it is a `MarkerMinimapLayer`. */
  datatype SecondaryLayer = SecondaryLayer(
    base: BaseLayer,
    renderer: Option<Renderer>,
    trackLocation: bool,
    keepOnEdge: bool,
    world: Option<World>,
    positionX: int,
    positionZ: int,
    depth: real,
    isMarker: bool)

  /** What a frame or a registry operation sends to the outside world, in order. */
  datatype Effect =
    | ViewerChunks(viewer: nat, keys: seq<TileKey>)
    | LayerUpdate(layer: nat, pixels: Tile)
    | SpawnLayer(layer: nat)
    | DespawnLayer(layer: nat)
    | SpawnMinimap
    | DespawnMinimap

  // ---------------------------------------------------------------- collaborators

  /** The bytes one fixed-point value occupies in a buffer. */
  type Word = s: seq<Byte> | |s| == 8 witness [0, 0, 0, 0, 0, 0, 0, 0]

  /** The bytes written into the four corner cells of an encoded buffer. */
  type CornerMarks = s: seq<Byte> | |s| == 4 witness [0, 0, 0, 0]

  ghost predicate IsSqrt(sqrt: real -> real)
  {
    forall x: real :: 0.0 <= x ==> 0.0 <= sqrt(x) && sqrt(x) * sqrt(x) == x
  }

  /** Everything a frame reads from outside the core:
      - `scale`: the process-wide zoom (blocks per pixel);
      - `shape`: the configured minimap shape;
      - `tiles`: the world-map cache lookup, deterministic per world and origin;
      - `draw`: what a renderer other than the world cache draws into a fresh buffer;
      - `fixedPoint`, `corners`: the byte patterns of the shared fixed-point encoding;
      - `sqrt`: the square root of the host's double arithmetic. */
  datatype Env = Env(
    scale: int,
    shape: Shape,
    tiles: (World, int, int) -> Tile,
    draw: Renderer -> Tile,
    fixedPoint: real -> Word,
    corners: CornerMarks,
    sqrt: real -> real)
  {
    ghost predicate Valid()
    {
      scale >= 1 && IsSqrt(sqrt)
    }
  }
}

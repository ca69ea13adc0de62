/** The secondary-layer protocol encoder (`SecondaryMapEncoder`): restates the
    primary encoding in a marker layer's buffer, then writes where on the minimap
    the marker is drawn, or that it is not drawn this frame.  Doubles are modelled
    as reals; the square root is `Env.sqrt`. */
module SecondaryEncoding {
  import opened Common
  import opened Border
  import opened PrimaryEncoding

  /** `resolveIcon`: the icon of an icon renderer, nothing for any other renderer. */
  function ResolveIcon(layer: SecondaryLayer): (icon: Option<Icon>)
    ensures icon.Some? <==> layer.renderer.Some? && layer.renderer.value.IconRenderer?
    ensures icon.Some? ==> layer.renderer.value.icon == icon.value
  {
    match layer.renderer
    case Some(IconRenderer(i)) => Some(i)
    case _ => None
  }

  /** `v / length * radius`: one component of a vector of length `length` rescaled to
      length `radius`. */
  function Rescaled(v: real, length: real, radius: real): real
    requires length != 0.0
  {
    v / length * radius
  }

  /** The keep-on-edge clamp: `direction.normalize(); direction.multiply(radius)` when
      the vector is longer than `radius`, the vector itself otherwise. */
  function ClampToEdge(x: real, z: real, radius: real, sqrt: real -> real): (real, real)
    requires IsSqrt(sqrt) && radius >= 0.0
  {
    var lengthSquared := x * x + z * z;
    if lengthSquared > radius * radius then
      var length := sqrt(lengthSquared);
      assert length != 0.0 by { NonzeroLength(x * x + z * z, radius, length); }
      (Rescaled(x, length, radius), Rescaled(z, length, radius))
    else (x, z)
  }

  /** The clamp leaves a vector within the radius unchanged; a longer one is brought
      onto the circle of that radius, on the same ray. */
  lemma ClampToEdgeOnCircle(x: real, z: real, radius: real, sqrt: real -> real)
    requires IsSqrt(sqrt) && radius >= 0.0
    ensures x * x + z * z <= radius * radius ==> ClampToEdge(x, z, radius, sqrt) == (x, z)
    ensures x * x + z * z > radius * radius ==>
      && ClampToEdge(x, z, radius, sqrt).0 * ClampToEdge(x, z, radius, sqrt).0
        + ClampToEdge(x, z, radius, sqrt).1 * ClampToEdge(x, z, radius, sqrt).1 == radius * radius
      && ClampToEdge(x, z, radius, sqrt).0 * z == ClampToEdge(x, z, radius, sqrt).1 * x
      && ClampToEdge(x, z, radius, sqrt).0 * x + ClampToEdge(x, z, radius, sqrt).1 * z >= 0.0
    ensures WithinRadius(ClampToEdge(x, z, radius, sqrt).0, ClampToEdge(x, z, radius, sqrt).1, radius)
  {
    var lengthSquared := x * x + z * z;
    if lengthSquared > radius * radius {
      var length := sqrt(lengthSquared);
      ClampScales(x, z, radius, length);
      assert ClampToEdge(x, z, radius, sqrt) == (Rescaled(x, length, radius), Rescaled(z, length, radius));
    } else {
      assert ClampToEdge(x, z, radius, sqrt) == (x, z);
    }
  }

  lemma NonzeroLength(lengthSquared: real, radius: real, length: real)
    requires length * length == lengthSquared && lengthSquared > radius * radius
    ensures length != 0.0
  {
    assert radius * radius >= 0.0;
  }

  lemma Square(v: real, k: real)
    ensures (v * k) * (v * k) == (v * v) * (k * k)
  {
  }

  /** Scaling a vector of length `length` by `radius / length` gives length `radius`
      and keeps the direction. */
  lemma ClampScales(x: real, z: real, radius: real, length: real)
    requires radius >= 0.0 && length >= 0.0 && length * length == x * x + z * z
    requires x * x + z * z > radius * radius
    ensures length > 0.0
    ensures Rescaled(x, length, radius) * Rescaled(x, length, radius)
      + Rescaled(z, length, radius) * Rescaled(z, length, radius) == radius * radius
    ensures Rescaled(x, length, radius) * z == Rescaled(z, length, radius) * x
    ensures Rescaled(x, length, radius) * x + Rescaled(z, length, radius) * z >= 0.0
  {
    NonzeroLength(x * x + z * z, radius, length);
    var k := radius / length;
    assert Rescaled(x, length, radius) == x * k && Rescaled(z, length, radius) == z * k;
    assert k * length == radius;
    ScaledOnCircle(x, z, k, length, radius);
    ScaledForward(x, z, k);
  }

  /** Scaling a vector of length `length` by `k` gives length `k * length`. */
  lemma ScaledOnCircle(x: real, z: real, k: real, length: real, radius: real)
    requires length * length == x * x + z * z && k * length == radius
    ensures (x * k) * (x * k) + (z * k) * (z * k) == radius * radius
  {
    calc {
      (x * k) * (x * k) + (z * k) * (z * k);
      == { Square(x, k); Square(z, k); }
      (x * x) * (k * k) + (z * z) * (k * k);
      == { Distribute(x * x, z * z, k * k); }
      (length * length) * (k * k);
      == { Square(length, k); }
      radius * radius;
    }
  }

  /** Scaling by a non-negative factor keeps the vector pointing the same way. */
  lemma ScaledForward(x: real, z: real, k: real)
    requires k >= 0.0
    ensures (x * k) * x + (z * k) * z >= 0.0
  {
    assert (x * k) * x + (z * k) * z == (x * x + z * z) * k;
    NonnegativeProduct(x * x + z * z, k);
  }

  lemma Distribute(u: real, v: real, w: real)
    ensures u * w + v * w == (u + v) * w
  {
  }

  lemma NonnegativeProduct(u: real, w: real)
    requires u >= 0.0 && w >= 0.0
    ensures u * w >= 0.0
  {
  }

  /** Offset, in pixels, of a tracked location from the viewer's scaled block, with
      the axes swapped: screen X comes from the world Z offset and screen Z from the
      world X offset. */
  function TrackedOffset(holder: Player, layer: SecondaryLayer, scale: int): (v: (real, real))
    requires scale >= 1
  {
    var centerBlockX := Floor(holder.x / scale as real) * scale;
    var centerBlockZ := Floor(holder.z / scale as real) * scale;
    ((centerBlockZ - layer.positionZ) as real / scale as real, (centerBlockX - layer.positionX) as real / scale as real)
  }

  /** The vector (x, z) reaches no farther than `radius` from the origin. */
  predicate WithinRadius(x: real, z: real, radius: real)
  {
    x * x + z * z <= radius * radius
  }

  /** The exact screen position (pixels, before rounding) at which a layer is drawn.
      A layer that does not track a location gives its raw position.  A tracking
      layer takes its `TrackedOffset`, clamped to the border when it is kept on the
      edge, from the centre of the map at 64. */
  function ScreenPoint(holder: Player, layer: SecondaryLayer, env: Env): (p: (real, real))
    requires env.Valid()
    ensures !layer.trackLocation ==> p == (layer.positionX as real, layer.positionZ as real)
    ensures layer.trackLocation ==> p == (EdgeOffset(holder, layer, env).0 + 64.0, EdgeOffset(holder, layer, env).1 + 64.0)
  {
    if !layer.trackLocation then (layer.positionX as real, layer.positionZ as real)
    else
      var v := EdgeOffset(holder, layer, env);
      (v.0 + 64.0, v.1 + 64.0)
  }

  /** A tracking layer's offset from the centre of the map: its `TrackedOffset`,
      clamped to the border when it is kept on the edge. */
  function EdgeOffset(holder: Player, layer: SecondaryLayer, env: Env): (v: (real, real))
    requires env.Valid()
    ensures !layer.keepOnEdge ==> v == TrackedOffset(holder, layer, env.scale)
  {
    var offset := TrackedOffset(holder, layer, env.scale);
    if layer.keepOnEdge
    then ClampToEdge(offset.0, offset.1, ClampRadius(env.shape, ResolveIcon(layer), env.sqrt), env.sqrt)
    else offset
  }

  /** `location.distanceSquared(position)`: the marker position is taken at the
      holder's height, so only X and Z count. */
  function DistanceSquared(holder: Player, layer: SecondaryLayer): (d: real)
    ensures d >= 0.0
  {
    var dx := holder.x - layer.positionX as real;
    var dy := holder.y - holder.y;
    var dz := holder.z - layer.positionZ as real;
    dx * dx + dy * dy + dz * dz
  }

  /** The visibility decision: a layer is shown unless it tracks a location, is not
      kept on the edge, and lies 64·scale blocks or more from the holder. */
  predicate Tracked(holder: Player, layer: SecondaryLayer, scale: int)
  {
    var maxDistance := 64.0 * scale as real;
    !layer.trackLocation || layer.keepOnEdge || DistanceSquared(holder, layer) < maxDistance * maxDistance
  }

  /** Whether the marker's cells are written: tracked, and both rounded screen
      coordinates inside the map. */
  predicate Placed(holder: Player, layer: SecondaryLayer, env: Env)
    requires env.Valid()
  {
    var p := ScreenPoint(holder, layer, env);
    Tracked(holder, layer, env.scale) && InMap(Round(p.0)) && InMap(Round(p.1))
  }

  /** The cells a secondary encoding writes beyond the primary ones: depth (row 1,
      columns 1..8), screen X (row 1, 9..16), the tracked flag 256, screen Z (row 2,
      1..8) and the keep-on-edge flag 265. */
  predicate LayerCell(i: int)
  {
    129 <= i <= 144 || 256 <= i <= 265
  }

  /** The second half of `encodeSecondaryLayer`, on the primary encoding `primary`:
      when the marker is placed, its depth, rounded screen X, the tracked flag, its
      rounded screen Z and the keep-on-edge flag; otherwise the "not tracked" flag;
      in both cases the secondary-layer flag in cell 128. */
  function LayerWrites(primary: Tile, placed: bool, depth: real, mapX: int, mapZ: int, keepOnEdge: bool, fixedPoint: real -> Word): Tile
  {
    var written: Tile :=
      if placed then
        var withDepth := WriteRun(primary, Cell(1, 1), fixedPoint(depth));
        var withX := WriteRun(withDepth, Cell(1, 9), fixedPoint(mapX as real / 128.0));
        var flagged := withX[256 := 4];
        var withZ := WriteRun(flagged, Cell(2, 1), fixedPoint(mapZ as real / 128.0));
        withZ[265 := if keepOnEdge then 4 else 0]
      else primary[256 := 0];
    written[128 := 4]
  }

  /** The layer's writes, cell by cell. */
  lemma LayerWritesCells(primary: Tile, placed: bool, depth: real, mapX: int, mapZ: int, keepOnEdge: bool, fixedPoint: real -> Word)
    ensures var r := LayerWrites(primary, placed, depth, mapX, mapZ, keepOnEdge, fixedPoint);
      && r[128] == 4
      && (forall i | 0 <= i < TileSize && i != 128 && !LayerCell(i) :: r[i] == primary[i])
      && (r[256] == 4 <==> placed)
      && (!placed ==> r[256] == 0 && forall i | 0 <= i < TileSize && i != 128 && i != 256 :: r[i] == primary[i])
      && (placed ==>
        && r[129..137] == fixedPoint(depth)
        && r[137..145] == fixedPoint(mapX as real / 128.0)
        && r[257..265] == fixedPoint(mapZ as real / 128.0)
        && (r[265] == 4 <==> keepOnEdge)
        && (!keepOnEdge ==> r[265] == 0))
  {
    if placed {
      var withDepth := WriteRun(primary, Cell(1, 1), fixedPoint(depth));
      var withX := WriteRun(withDepth, Cell(1, 9), fixedPoint(mapX as real / 128.0));
      var flagged := withX[256 := 4];
      var withZ: seq<Byte> := WriteRun(flagged, Cell(2, 1), fixedPoint(mapZ as real / 128.0));
      assert withZ[129..137] == withX[129..137] == withDepth[129..137];
      assert LayerWrites(primary, placed, depth, mapX, mapZ, keepOnEdge, fixedPoint)
        == withZ[265 := if keepOnEdge then 4 else 0][128 := 4];
    } else {
      var cleared: seq<Byte> := primary[256 := 0];
      assert LayerWrites(primary, placed, depth, mapX, mapZ, keepOnEdge, fixedPoint) == cleared[128 := 4];
    }
  }

  /** What `encodeSecondaryLayer(minimap, layer, data)` leaves in `data`: the primary
      encoding of the holder's position, then the layer's own cells (described cell by
      cell in `SecondaryEncodedCells`). */
  function SecondaryEncoded(data: Tile, holder: Player, position: ScreenPosition, layer: SecondaryLayer, env: Env): Tile
    requires env.Valid()
  {
    var p := ScreenPoint(holder, layer, env);
    LayerWrites(PrimaryEncoded(data, position == Right, holder.x, holder.z, env), Placed(holder, layer, env),
      layer.depth, Round(p.0), Round(p.1), layer.keepOnEdge, env.fixedPoint)
  }

  /** The secondary encoding, cell by cell: the secondary-layer flag; the primary
      encoding everywhere outside the layer's cells; the tracked flag exactly when the
      layer is placed, and nothing else of the layer when it is not; when placed, its
      depth and the keep-on-edge flag (its position is `SecondaryEncodedPosition`). */
  lemma SecondaryEncodedCells(data: Tile, holder: Player, position: ScreenPosition, layer: SecondaryLayer, env: Env)
    requires env.Valid()
    ensures var r, primary := SecondaryEncoded(data, holder, position, layer, env), PrimaryEncoded(data, position == Right, holder.x, holder.z, env);
      && r[128] == 4
      && (forall i | 0 <= i < TileSize && i != 128 && !LayerCell(i) :: r[i] == primary[i])
      && (r[256] == 4 <==> Placed(holder, layer, env))
      && (!Placed(holder, layer, env) ==> r[256] == 0 && forall i | 0 <= i < TileSize && i != 128 && i != 256 :: r[i] == primary[i])
      && (Placed(holder, layer, env) ==>
        && r[129..137] == env.fixedPoint(layer.depth)
        && (r[265] == 4 <==> layer.keepOnEdge)
        && (!layer.keepOnEdge ==> r[265] == 0))
  {
    var p := ScreenPoint(holder, layer, env);
    var primary := PrimaryEncoded(data, position == Right, holder.x, holder.z, env);
    var placed := Placed(holder, layer, env);
    var mapX, mapZ := Round(p.0), Round(p.1);
    LayerWritesCells(primary, placed, layer.depth, mapX, mapZ, layer.keepOnEdge, env.fixedPoint);
    assert SecondaryEncoded(data, holder, position, layer, env)
      == LayerWrites(primary, placed, layer.depth, mapX, mapZ, layer.keepOnEdge, env.fixedPoint);
  }

  /** Where a placed layer is drawn: its rounded screen position (`mapX`, `mapZ`), as
      fixed-point fractions of the map width, in row 1 (X) and row 2 (Z). */
  lemma SecondaryEncodedPosition(data: Tile, holder: Player, position: ScreenPosition, layer: SecondaryLayer, env: Env,
                                 mapX: int, mapZ: int)
    requires env.Valid() && Placed(holder, layer, env)
    requires mapX == Round(ScreenPoint(holder, layer, env).0) && mapZ == Round(ScreenPoint(holder, layer, env).1)
    ensures var r := SecondaryEncoded(data, holder, position, layer, env);
      && r[137..145] == env.fixedPoint(mapX as real / 128.0)
      && r[257..265] == env.fixedPoint(mapZ as real / 128.0)
  {
    var primary := PrimaryEncoded(data, position == Right, holder.x, holder.z, env);
    PlacedPosition(primary, layer.depth, mapX, mapZ, layer.keepOnEdge, env.fixedPoint);
    assert SecondaryEncoded(data, holder, position, layer, env)
      == LayerWrites(primary, true, layer.depth, mapX, mapZ, layer.keepOnEdge, env.fixedPoint);
  }

  lemma PlacedPosition(primary: Tile, depth: real, mapX: int, mapZ: int, keepOnEdge: bool, fixedPoint: real -> Word)
    ensures var r := LayerWrites(primary, true, depth, mapX, mapZ, keepOnEdge, fixedPoint);
      && r[137..145] == fixedPoint(mapX as real / 128.0)
      && r[257..265] == fixedPoint(mapZ as real / 128.0)
  {
    LayerWritesCells(primary, true, depth, mapX, mapZ, keepOnEdge, fixedPoint);
  }

  /** The first half of `encodeSecondaryLayer`: where the layer's centre falls on the
      map, before rounding. */
  method TrackedPosition(holder: Player, layer: SecondaryLayer, env: Env) returns (trackedX: real, trackedZ: real)
    requires env.Valid()
    ensures (trackedX, trackedZ) == ScreenPoint(holder, layer, env)
  {
    trackedX := layer.positionX as real;
    trackedZ := layer.positionZ as real;
    var scale := env.scale;
    if layer.trackLocation {
      var centerBlockX := Floor(holder.x / scale as real) * scale;
      var centerBlockZ := Floor(holder.z / scale as real) * scale;
      trackedZ := (centerBlockX - layer.positionX) as real / scale as real;
      trackedX := (centerBlockZ - layer.positionZ) as real / scale as real;
      assert (trackedX, trackedZ) == TrackedOffset(holder, layer, scale);
      if layer.keepOnEdge {
        var edgeRadius := ClampRadius(env.shape, ResolveIcon(layer), env.sqrt);
        var direction := ClampToEdge(trackedX, trackedZ, edgeRadius, env.sqrt);
        trackedX, trackedZ := direction.0, direction.1;
      }
      assert (trackedX, trackedZ) == EdgeOffset(holder, layer, env);
      trackedX := trackedX + 64.0;
      trackedZ := trackedZ + 64.0;
    }
  }

  /** `encodeSecondaryLayer(minimap, layer, data)`, for the minimap's holder and
      screen side. */
  method EncodeSecondaryLayer(holder: Player, position: ScreenPosition, layer: SecondaryLayer, data: array<Byte>, env: Env)
    requires env.Valid()
    requires data.Length == TileSize
    modifies data
    ensures data[..] == SecondaryEncoded(old(data[..]), holder, position, layer, env)
  {
    var trackedX, trackedZ := TrackedPosition(holder, layer, env);
    EncodePrimaryLayer(position == Right, holder.x, holder.z, data, env);
    ghost var primary := data[..];
    var mapX := Round(trackedX);
    var mapZ := Round(trackedZ);
    var tracked := Tracked(holder, layer, env.scale);
    ghost var placed := tracked && 0 <= mapX < 128 && 0 <= mapZ < 128;
    assert placed == Placed(holder, layer, env);
    WriteLayerCells(data, tracked && 0 <= mapX < 128 && 0 <= mapZ < 128, layer.depth, mapX, mapZ, layer.keepOnEdge, env);
    assert data[..] == LayerWrites(primary, placed, layer.depth, mapX, mapZ, layer.keepOnEdge, env.fixedPoint);
  }

  /** The writes of `encodeSecondaryLayer` after the primary encoding. */
  method WriteLayerCells(data: array<Byte>, placed: bool, depth: real, mapX: int, mapZ: int, keepOnEdge: bool, env: Env)
    requires data.Length == TileSize
    modifies data
    ensures data[..] == LayerWrites(old(data[..]), placed, depth, mapX, mapZ, keepOnEdge, env.fixedPoint)
  {
    ghost var primary: Tile := data[..];
    ghost var written: Tile;
    if placed {
      EncodeFixedPoint(data, 1, 1, depth, env);
      ghost var withDepth := data[..];
      assert withDepth == WriteRun(primary, Cell(1, 1), env.fixedPoint(depth));
      EncodeFixedPoint(data, 9, 1, mapX as real / 128.0, env);
      ghost var withX := data[..];
      assert withX == WriteRun(withDepth, Cell(1, 9), env.fixedPoint(mapX as real / 128.0));
      data[128 * 2] := 4;
      ghost var flagged := data[..];
      assert flagged == withX[256 := 4];
      EncodeFixedPoint(data, 1, 2, mapZ as real / 128.0, env);
      ghost var withZ := data[..];
      assert withZ == WriteRun(flagged, Cell(2, 1), env.fixedPoint(mapZ as real / 128.0));
      data[128 * 2 + 9] := if keepOnEdge then 4 else 0;
      written := data[..];
      assert written == withZ[265 := if keepOnEdge then 4 else 0];
    } else {
      data[128 * 2] := 0;
      written := data[..];
      assert written == primary[256 := 0];
    }
    data[128] := 4;
    assert data[..] == written[128 := 4];
  }

  // ---------------------------------------------------------------- properties

  /** Tracking swaps the axes: moving a tracked marker `scale` blocks along world Z
      moves it one pixel along screen X (toward smaller X) and leaves screen Z alone,
      and a move along world X does the same to screen Z. */
  lemma AxisSwap(holder: Player, layer: SecondaryLayer, env: Env)
    requires env.Valid() && layer.trackLocation && !layer.keepOnEdge
    ensures ScreenPoint(holder, layer.(positionZ := layer.positionZ + env.scale), env).0 == ScreenPoint(holder, layer, env).0 - 1.0
    ensures ScreenPoint(holder, layer.(positionZ := layer.positionZ + env.scale), env).1 == ScreenPoint(holder, layer, env).1
    ensures ScreenPoint(holder, layer.(positionX := layer.positionX + env.scale), env).1 == ScreenPoint(holder, layer, env).1 - 1.0
    ensures ScreenPoint(holder, layer.(positionX := layer.positionX + env.scale), env).0 == ScreenPoint(holder, layer, env).0
  {
    var s := env.scale as real;
    var cz := Floor(holder.z / s) * env.scale;
    var cx := Floor(holder.x / s) * env.scale;
    StepOne((cz - layer.positionZ) as real, s);
    StepOne((cx - layer.positionX) as real, s);
  }

  lemma StepOne(a: real, s: real)
    requires s > 0.0
    ensures (a - s) / s == a / s - 1.0
  {
    assert (a - s) / s == a / s - s / s;
    assert s / s == 1.0;
  }

  /** A layer that does not track a location is drawn at its raw position and is
      always considered tracked. */
  lemma UntrackedRaw(holder: Player, layer: SecondaryLayer, env: Env)
    requires env.Valid() && !layer.trackLocation
    ensures ScreenPoint(holder, layer, env) == (layer.positionX as real, layer.positionZ as real)
    ensures Tracked(holder, layer, env.scale)
  {
  }

  /** A keep-on-edge tracking layer is always drawn within the clamp radius of the
      centre of the map. */
  lemma KeptOnEdgeWithinRadius(holder: Player, layer: SecondaryLayer, env: Env)
    requires env.Valid() && layer.trackLocation && layer.keepOnEdge
    ensures WithinRadius(ScreenPoint(holder, layer, env).0 - 64.0, ScreenPoint(holder, layer, env).1 - 64.0,
      ClampRadius(env.shape, ResolveIcon(layer), env.sqrt))
  {
    var offset := TrackedOffset(holder, layer, env.scale);
    ClampToEdgeOnCircle(offset.0, offset.1, ClampRadius(env.shape, ResolveIcon(layer), env.sqrt), env.sqrt);
    var v := EdgeOffset(holder, layer, env);
    assert ScreenPoint(holder, layer, env).0 - 64.0 == v.0;
    assert ScreenPoint(holder, layer, env).1 - 64.0 == v.1;
  }

  /** A tracking marker that is not kept on the edge and lies 64·scale blocks or more
      from the holder is not drawn: only the "not tracked" flag is written, and every
      other cell but 128 keeps its primary encoding. */
  lemma FarMarkerHidden(data: Tile, holder: Player, position: ScreenPosition, layer: SecondaryLayer, env: Env)
    requires env.Valid() && layer.trackLocation && !layer.keepOnEdge
    requires DistanceSquared(holder, layer) >= (64.0 * env.scale as real) * (64.0 * env.scale as real)
    ensures SecondaryEncoded(data, holder, position, layer, env)[256] == 0
    ensures forall i | 0 <= i < TileSize && i != 128 && i != 256 ::
      SecondaryEncoded(data, holder, position, layer, env)[i] == PrimaryEncoded(data, position == Right, holder.x, holder.z, env)[i]
  {
    assert !Tracked(holder, layer, env.scale);
    SecondaryEncodedCells(data, holder, position, layer, env);
  }
}

/** The primary-layer protocol encoder (`PrimaryMapEncoder`): stamps the corner
    marks, the sub-pixel position of the player and two display flags into reserved
    cells of a 128×128 buffer, in place.

    `MapEncoderUtils` is not part of this model.  Its two operations are taken as:
    `markCorners` writes the four `Env.corners` bytes into the four corner cells, and
    `encodeFixedPoint(data, x, y, v)` writes the eight bytes `Env.fixedPoint(v)` from
    cell (row y, column x) on; the anchors 1, 9 and the flag cells 17, 18 of row 0
    leave exactly eight cells per value. */
module PrimaryEncoding {
  import opened Common

  /** `v - Math.floor(v)`: the part of `v` after the point. */
  function Fraction(v: real): (f: real)
    ensures 0.0 <= f < 1.0
    ensures (v - f).Floor as real == v - f
  {
    v - v.Floor as real
  }

  /** `s` with the bytes of `w` written from index `start` on. */
  function WriteRun(s: seq<Byte>, start: int, w: seq<Byte>): (r: seq<Byte>)
    requires 0 <= start && start + |w| <= |s|
    ensures |r| == |s|
    ensures r[start..start + |w|] == w
    ensures forall i | 0 <= i < |s| && !(start <= i < start + |w|) :: r[i] == s[i]
  {
    s[..start] + w + s[start + |w|..]
  }

  /** The four corner cells, in the order their marks are written. */
  const Corners: seq<int> := [0, 127, 16256, 16383]

  predicate IsCorner(i: int)
  {
    i == 0 || i == 127 || i == 16256 || i == 16383
  }

  /** `markCorners`. */
  function MarkCorners(s: Tile, marks: CornerMarks): (r: Tile)
    ensures forall k | 0 <= k < 4 :: r[Corners[k]] == marks[k]
    ensures forall i | 0 <= i < TileSize && !IsCorner(i) :: r[i] == s[i]
  {
    s[0 := marks[0]][127 := marks[1]][16256 := marks[2]][16383 := marks[3]]
  }

  /** The cells the primary encoding may change: the corners, the two fixed-point
      runs of row 0 (1..8 and 9..16), the flags 17 and 18, and cell 128. */
  predicate PrimaryFootprint(i: int)
  {
    IsCorner(i) || 1 <= i <= 18 || i == 128
  }

  /** What `encodePrimaryLayer(right, playerX, playerZ, data)` leaves in `data`. */
  function PrimaryEncoded(data: Tile, right: bool, playerX: real, playerZ: real, env: Env): Tile
    requires env.scale >= 1
  {
    var fractionalX := Fraction(playerX / env.scale as real);
    var fractionalZ := Fraction(playerZ / env.scale as real);
    var marked := MarkCorners(data, env.corners);
    var withX := WriteRun(marked, Cell(0, 1), env.fixedPoint(fractionalX));
    var withZ := WriteRun(withX, Cell(0, 9), env.fixedPoint(fractionalZ));
    withZ[17 := if right then 4 else 0][18 := if env.shape == Square then 4 else 0][128 := 0]
  }

  /** The primary encoding, cell by cell: the corner marks, the fractional parts of
      the scaled position as fixed-point runs in row 0, the screen-side and shape
      flags, a cleared cell 128, and every other cell as it was. */
  lemma PrimaryEncodedCells(data: Tile, right: bool, playerX: real, playerZ: real, env: Env)
    requires env.scale >= 1
    ensures var r := PrimaryEncoded(data, right, playerX, playerZ, env);
      && (forall k | 0 <= k < 4 :: r[Corners[k]] == env.corners[k])
      && r[1..9] == env.fixedPoint(Fraction(playerX / env.scale as real))
      && r[9..17] == env.fixedPoint(Fraction(playerZ / env.scale as real))
      && (r[17] == 4 <==> right)
      && (!right ==> r[17] == 0)
      && (r[18] == 4 <==> env.shape == Square)
      && (env.shape != Square ==> r[18] == 0)
      && r[128] == 0
      && (forall i | 0 <= i < TileSize && !PrimaryFootprint(i) :: r[i] == data[i])
  {
    var marked := MarkCorners(data, env.corners);
    var withX := WriteRun(marked, Cell(0, 1), env.fixedPoint(Fraction(playerX / env.scale as real)));
    var withZ: seq<Byte> := WriteRun(withX, Cell(0, 9), env.fixedPoint(Fraction(playerZ / env.scale as real)));
    assert withZ[1..9] == withX[1..9];
    assert PrimaryEncoded(data, right, playerX, playerZ, env)
      == withZ[17 := if right then 4 else 0][18 := if env.shape == Square then 4 else 0][128 := 0];
  }

  /** `MapEncoderUtils.markCorners(data)`. */
  method MarkCornersInPlace(data: array<Byte>, marks: CornerMarks)
    requires data.Length == TileSize
    modifies data
    ensures data[..] == MarkCorners(old(data[..]), marks)
  {
    data[0] := marks[0];
    data[127] := marks[1];
    data[16256] := marks[2];
    data[16383] := marks[3];
  }

  /** `MapEncoderUtils.encodeFixedPoint(data, x, y, value)`. */
  method EncodeFixedPoint(data: array<Byte>, x: int, y: int, value: real, env: Env)
    requires 0 <= x && 0 <= y && Cell(y, x) + 8 <= data.Length
    modifies data
    ensures data[..] == WriteRun(old(data[..]), Cell(y, x), env.fixedPoint(value))
  {
    var word := env.fixedPoint(value);
    var start := Cell(y, x);
    var k := 0;
    while k < 8
      invariant 0 <= k <= 8
      invariant forall i | 0 <= i < data.Length ::
        data[i] == if start <= i < start + k then word[i - start] else old(data[i])
    {
      data[start + k] := word[k];
      k := k + 1;
    }
    assert data[..] == WriteRun(old(data[..]), start, word);
  }

  /** `encodePrimaryLayer(right, playerX, playerZ, data)`. */
  method EncodePrimaryLayer(right: bool, playerX: real, playerZ: real, data: array<Byte>, env: Env)
    requires env.scale >= 1
    requires data.Length == TileSize
    modifies data
    ensures data[..] == PrimaryEncoded(old(data[..]), right, playerX, playerZ, env)
  {
    var scale := env.scale;
    var scaledX := playerX / scale as real;
    var scaledZ := playerZ / scale as real;
    var fractionalX := scaledX - Floor(scaledX) as real;
    var fractionalZ := scaledZ - Floor(scaledZ) as real;
    ghost var original: Tile := data[..];
    MarkCornersInPlace(data, env.corners);
    ghost var marked := data[..];
    assert marked == MarkCorners(original, env.corners);
    EncodeFixedPoint(data, 1, 0, fractionalX, env);
    ghost var withX := data[..];
    assert withX == WriteRun(marked, Cell(0, 1), env.fixedPoint(Fraction(playerX / env.scale as real)));
    EncodeFixedPoint(data, 9, 0, fractionalZ, env);
    ghost var encoded := data[..];
    assert encoded == WriteRun(withX, Cell(0, 9), env.fixedPoint(Fraction(playerZ / env.scale as real)));
    data[17] := if right then 4 else 0;
    data[18] := if env.shape == Square then 4 else 0;
    data[128] := 0;
    assert data[..] == encoded[17 := if right then 4 else 0][18 := if env.shape == Square then 4 else 0][128 := 0];
  }

  /** `encodePrimaryLayer(minimap, data)`: the same encoding, for the side the minimap
      is shown on and the holder's current position. */
  method EncodePrimaryLayerFor(holder: Player, position: ScreenPosition, data: array<Byte>, env: Env)
    requires env.scale >= 1
    requires data.Length == TileSize
    modifies data
    ensures data[..] == PrimaryEncoded(old(data[..]), position == Right, holder.x, holder.z, env)
  {
    EncodePrimaryLayer(position == Right, holder.x, holder.z, data, env);
  }
}

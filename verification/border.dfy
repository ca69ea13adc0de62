/** Geometry of the minimap border (`MinimapBorder`): how far from the centre content
    stays visible, and how far an icon's centre may go so that the whole icon stays
    inside.  Distances are in map pixels from the centre; doubles are modelled as reals. */
module Border {
  import opened Common

  /** Half the side of the map image. */
  const MapHalfSize: real := 64.0

  /** Squared relative radius of the circular mask of the client shader. */
  const CircleBorderOuter: real := 0.93

  /** Relative half-side of the square mask of the client shader. */
  const SquareBorderOuter: real := 0.97

  /** `outerRadius()`: 0.97·64 for a square minimap, √0.93·64 for a round one. */
  function OuterRadius(shape: Shape, sqrt: real -> real): (r: real)
    requires IsSqrt(sqrt)
    ensures shape == Square ==> r == 62.08
    ensures shape == Circle ==> r > 0.0 && r * r == CircleBorderOuter * MapHalfSize * MapHalfSize
  {
    if shape == Square then SquareBorderOuter * MapHalfSize
    else
      var s := sqrt(CircleBorderOuter);
      assert s * s == CircleBorderOuter;
      assert (s * MapHalfSize) * (s * MapHalfSize) == (s * s) * (MapHalfSize * MapHalfSize);
      s * MapHalfSize
  }

  /** Half the larger side of an icon, with Java's truncating integer division;
      zero without an icon. */
  function IconHalf(icon: Option<Icon>): (h: int)
    ensures icon.None? ==> h == 0
    ensures icon.Some? && icon.value.width >= 0 && icon.value.height >= 0 ==>
      0 <= h && 2 * h <= Max(icon.value.width, icon.value.height) < 2 * h + 2
  {
    if icon.None? then 0 else JavaDiv(Max(icon.value.width, icon.value.height), 2)
  }

  function Max(a: int, b: int): int
  {
    if a >= b then a else b
  }

  /** `clampRadius(icon)`: the border radius less the icon's half extent, never below zero. */
  function ClampRadius(shape: Shape, icon: Option<Icon>, sqrt: real -> real): (r: real)
    requires IsSqrt(sqrt)
    ensures r >= 0.0
    ensures r >= OuterRadius(shape, sqrt) - IconHalf(icon) as real
    ensures r == 0.0 || r == OuterRadius(shape, sqrt) - IconHalf(icon) as real
    ensures icon.None? ==> r == OuterRadius(shape, sqrt)
  {
    var radius := OuterRadius(shape, sqrt) - IconHalf(icon) as real;
    if 0.0 >= radius then 0.0 else radius
  }

  /** An icon with sides of non-negative size never widens the clamp radius. */
  lemma ClampWithinBorder(shape: Shape, icon: Icon, sqrt: real -> real)
    requires IsSqrt(sqrt)
    requires icon.width >= 0 && icon.height >= 0
    ensures ClampRadius(shape, Some(icon), sqrt) <= OuterRadius(shape, sqrt)
  {
  }

  /** The clamp radius does not grow as the icon grows. */
  lemma ClampMonotone(shape: Shape, small: Icon, large: Icon, sqrt: real -> real)
    requires IsSqrt(sqrt)
    requires 0 <= small.width <= large.width && 0 <= small.height <= large.height
    ensures ClampRadius(shape, Some(large), sqrt) <= ClampRadius(shape, Some(small), sqrt)
  {
    assert Max(small.width, small.height) <= Max(large.width, large.height);
    assert IconHalf(Some(small)) <= IconHalf(Some(large));
  }

  /** Odd icon sizes round the half extent down. */
  lemma OddSizeRoundsDown(k: nat, sqrt: real -> real)
    requires IsSqrt(sqrt)
    ensures IconHalf(Some(Icon(2 * k + 1, 2 * k + 1))) == k
  {
  }

  /** A 16×16 icon on a round minimap may come within √0.93·64 − 8 of the centre. */
  lemma ClampCircle16(sqrt: real -> real)
    requires IsSqrt(sqrt)
    ensures ClampRadius(Circle, Some(Icon(16, 16)), sqrt) == OuterRadius(Circle, sqrt) - 8.0
  {
    var r := OuterRadius(Circle, sqrt);
    assert IconHalf(Some(Icon(16, 16))) == 8;
    assert r * r == CircleBorderOuter * MapHalfSize * MapHalfSize;
    assert CircleBorderOuter * MapHalfSize * MapHalfSize == 3809.28;
    assert r * r == 3809.28;
    AboveEight(r);
  }

  lemma AboveEight(r: real)
    requires r >= 0.0 && r * r > 64.0
    ensures r > 8.0
  {
    var q := (r * r - 64.0) / (r + 8.0);
    assert q * (r + 8.0) == (r - 8.0) * (r + 8.0);
    assert q > 0.0;
  }
}

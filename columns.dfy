/** The per-column part of `Game.draw` (py/main.py): which of the two ray
    hits of a screen column is drawn, and the `prev_shaded` flag carried from
    column to column that lightens walls. The two hits of every column are
    inputs; the projection of the wall height is not modelled. */
module Columns {
  import opened PyWorld
  import opened Raycaster

  /** `SHADE = pg.Color(20, 20, 20)`, whose alpha defaults to 255. */
  const Shade: Rgba := Rgba(20, 20, 20, 255)

  /** `DIST_ERR_TOLERANCE`. */
  const Tolerance: real := 0.03

  /** The two hits of one column: `rays[0]` searches the lines parallel to
      the x axis, `rays[1]` the lines parallel to the y axis. */
  datatype ColumnRays = ColumnRays(horizontal: RayHit, vertical: RayHit)

  /** One drawn column: the hit that is drawn, whether it is lightened and
      its final colour. */
  datatype Column = Column(hit: RayHit, shaded: bool, color: Rgba)

  /** One channel of pygame's colour addition, which saturates at 255. */
  function AddChannel(a: byte, b: byte): (c: byte)
    ensures c == a + b || c == 255
    ensures c >= a && c >= b
    ensures c <= a + b
  {
    if a + b > 255 then 255 else a + b
  }

  /** Every channel of `c` is at least the same channel of `d`. */
  predicate NoDarker(c: Rgba, d: Rgba) {
    c.r >= d.r && c.g >= d.g && c.b >= d.b && c.a >= d.a
  }

  /** `pg.Color.__add__`: channel-wise saturating addition. */
  function AddColor(c: Rgba, d: Rgba): (e: Rgba)
    ensures NoDarker(e, c) && NoDarker(e, d)
    ensures d == Invisible ==> e == c
    ensures e.r < 255 ==> e.r == c.r + d.r
    ensures e.g < 255 ==> e.g == c.g + d.g
    ensures e.b < 255 ==> e.b == c.b + d.b
    ensures e.a < 255 ==> e.a == c.a + d.a
    ensures e.r <= c.r + d.r && e.g <= c.g + d.g && e.b <= c.b + d.b && e.a <= c.a + d.a
  {
    Rgba(AddChannel(c.r, d.r), AddChannel(c.g, d.g), AddChannel(c.b, d.b), AddChannel(c.a, d.a))
  }

  /** `min(rays, key=lambda x: x[0])`: the nearer hit, the first one on a tie. */
  function Nearer(rays: ColumnRays): (h: RayHit)
    ensures h == rays.horizontal || h == rays.vertical
    ensures h.distSq <= rays.horizontal.distSq && h.distSq <= rays.vertical.distSq
    ensures rays.horizontal.distSq <= rays.vertical.distSq ==> h == rays.horizontal
  {
    if rays.vertical.distSq < rays.horizontal.distSq then rays.vertical else rays.horizontal
  }

  /** The two distances differ by more than the tolerance, so the column
      decides the shading flag. */
  predicate Decisive(rays: ColumnRays)
    requires rays.vertical.distSq > 0.0
  {
    var ratio := rays.horizontal.distSq / rays.vertical.distSq;
    !(1.0 - Tolerance <= ratio <= 1.0 + Tolerance)
  }

  /** The update of `prev_shaded` after a column. */
  function NextShade(prevShaded: bool, rays: ColumnRays): (shaded: bool)
    requires rays.vertical.distSq > 0.0
    ensures !Decisive(rays) ==> shaded == prevShaded
    ensures Decisive(rays) ==> (shaded <==> Nearer(rays) == rays.horizontal && Nearer(rays).distSq < rays.vertical.distSq)
  {
    if Decisive(rays) then rays.horizontal.distSq < rays.vertical.distSq else prevShaded
  }

  /** Every column's divisor is positive, as `raycast` guarantees. */
  predicate Positive(rays: seq<ColumnRays>) {
    forall n :: 0 <= n < |rays| ==> rays[n].vertical.distSq > 0.0
  }

  /** The value of `prev_shaded` when column n is drawn. */
  function ShadeBefore(rays: seq<ColumnRays>, n: nat): bool
    requires Positive(rays) && n <= |rays|
  {
    if n == 0 then false else NextShade(ShadeBefore(rays, n - 1), rays[n - 1])
  }

  /** The colour indices of both hits of every column lie in the palette. */
  predicate InPalette(colors: seq<Rgba>, rays: seq<ColumnRays>) {
    forall n :: 0 <= n < |rays| ==>
      0 <= rays[n].horizontal.color < |colors| && 0 <= rays[n].vertical.color < |colors|
  }

  /** Column n as `draw` paints it: the nearer hit, shaded by the flag left
      by the columns before it, in its palette colour lightened by `SHADE`
      when shaded. */
  predicate DrawnAs(colors: seq<Rgba>, rays: seq<ColumnRays>, n: nat, col: Column)
    requires Positive(rays) && InPalette(colors, rays) && n < |rays|
  {
    && col.hit == Nearer(rays[n])
    && col.shaded == ShadeBefore(rays, n)
    && col.color == (if col.shaded then AddColor(colors[col.hit.color], Shade) else colors[col.hit.color])
  }

  /** The column loop of `draw`, without the projection and the drawing. */
  method ComposeColumns(colors: seq<Rgba>, rays: seq<ColumnRays>) returns (cols: seq<Column>)
    requires Positive(rays) && InPalette(colors, rays)
    ensures |cols| == |rays|
    ensures |cols| > 0 ==> !cols[0].shaded
    ensures forall n :: 0 <= n < |rays| ==> DrawnAs(colors, rays, n, cols[n])
  {
    var prevShaded := false;
    cols := [];
    for x := 0 to |rays|
      invariant |cols| == x
      invariant prevShaded == ShadeBefore(rays, x)
      invariant forall n :: 0 <= n < x ==> DrawnAs(colors, rays, n, cols[n])
    {
      var r0, r1 := rays[x].horizontal, rays[x].vertical;
      var hit := if r1.distSq < r0.distSq then r1 else r0;
      var color := colors[hit.color];
      if prevShaded {
        color := AddColor(color, Shade);
      }
      cols := cols + [Column(hit, prevShaded, color)];
      assert DrawnAs(colors, rays, x, cols[x]);
      var ratio := r0.distSq / r1.distSq;
      if !(1.0 - Tolerance <= ratio <= 1.0 + Tolerance) {
        prevShaded := r0.distSq < r1.distSq;
      }
    }
  }

  /** A column is decisive exactly when the horizontal distance is below 97%
      or above 103% of the vertical one. */
  lemma DecisiveIff(rays: ColumnRays)
    requires rays.vertical.distSq > 0.0
    ensures Decisive(rays) <==>
              rays.horizontal.distSq < 0.97 * rays.vertical.distSq
              || rays.horizontal.distSq > 1.03 * rays.vertical.distSq
  {
    var r0, r1 := rays.horizontal.distSq, rays.vertical.distSq;
    RatioCompare(r0, r1, 0.97);
    RatioCompare(r0, r1, 1.03);
  }

  /** Comparing a ratio with a bound is comparing the numerator with the
      bound times the (positive) denominator. */
  lemma RatioCompare(r0: real, r1: real, b: real)
    requires r1 > 0.0
    ensures r0 / r1 < b <==> r0 < b * r1
    ensures b < r0 / r1 <==> b * r1 < r0
  {
    var q := r0 / r1;
    assert q * r1 == r0;
    Scale(q, b, r1);
    Scale(b, q, r1);
  }

  /** Multiplying by a positive factor keeps a strict order, both ways. */
  lemma Scale(a: real, b: real, c: real)
    requires c > 0.0
    ensures a < b <==> a * c < b * c
  {
    if a < b {
      assert (b - a) * c > 0.0;
    } else {
      assert (a - b) * c >= 0.0;
    }
  }

  /** Two hits at the same distance never change the flag. */
  lemma EqualDistancesKeepFlag(prevShaded: bool, rays: ColumnRays)
    requires rays.vertical.distSq > 0.0
    requires rays.horizontal.distSq == rays.vertical.distSq
    ensures NextShade(prevShaded, rays) == prevShaded
  {
    assert rays.horizontal.distSq / rays.vertical.distSq == 1.0;
  }

  /** The flag is set when column n is drawn exactly when some earlier column
      was decisive with the horizontal hit nearer and no decisive column came
      after it. */
  lemma {:induction false} ShadeBeforeIff(rays: seq<ColumnRays>, n: nat)
    requires Positive(rays) && n <= |rays|
    ensures ShadeBefore(rays, n) <==>
              exists m :: 0 <= m < n && Decisive(rays[m])
                && rays[m].horizontal.distSq < rays[m].vertical.distSq
                && forall j :: m < j < n ==> !Decisive(rays[j])
  {
    if n > 0 {
      ShadeBeforeIff(rays, n - 1);
      var last := rays[n - 1];
      if Decisive(last) {
        if last.horizontal.distSq < last.vertical.distSq {
          assert 0 <= n - 1 < n && Decisive(rays[n - 1]) && rays[n - 1].horizontal.distSq < rays[n - 1].vertical.distSq;
        } else {
          forall m | 0 <= m < n && Decisive(rays[m]) && rays[m].horizontal.distSq < rays[m].vertical.distSq
            ensures exists j :: m < j < n && Decisive(rays[j])
          {
            assert m < n - 1 < n && Decisive(rays[n - 1]);
          }
        }
      } else {
        if ShadeBefore(rays, n) {
          var m :| 0 <= m < n - 1 && Decisive(rays[m])
                   && rays[m].horizontal.distSq < rays[m].vertical.distSq
                   && forall j :: m < j < n - 1 ==> !Decisive(rays[j]);
          assert forall j :: m < j < n ==> !Decisive(rays[j]);
        }
      }
    }
  }

  /** Without a decisive column in between, the flag carries over unchanged. */
  lemma {:induction false} ShadeStable(rays: seq<ColumnRays>, a: nat, b: nat)
    requires Positive(rays) && a <= b <= |rays|
    requires forall j :: a <= j < b ==> !Decisive(rays[j])
    ensures ShadeBefore(rays, b) == ShadeBefore(rays, a)
    decreases b - a
  {
    if a < b {
      ShadeStable(rays, a, b - 1);
    }
  }
}

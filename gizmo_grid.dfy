/** `GizmoGridManager`: an `n` by `n` grid of coloured cells laid over a
    rectangle of the XZ plane; a world position marks the cell nearest to it,
    clamped into the grid. */
module GizmoGrid {
  import opened Base

  datatype Color = Color(r: real, g: real, b: real, a: real)

  /** The zero colour an array of `Color` starts out with. */
  const Clear: Color := Color(0.0, 0.0, 0.0, 0.0)

  /** The covered rectangle: `zMin` and `depth` are the rectangle's `y` and
      `height`, read along Z. */
  datatype Bounds = Bounds(xMin: real, zMin: real, width: real, depth: real)

  const DefaultBounds: Bounds := Bounds(-5.0, -5.0, 10.0, 10.0)
  const DefaultN: int := 32

  /** The extent of one cell: the rectangle's side over `n`. */
  function CellSize(size: real, n: int): real
    requires n >= 1
  {
    size / n as real
  }

  lemma CellSizeFacts(size: real, n: int)
    requires n >= 1
    ensures n as real * CellSize(size, n) == size
    ensures size != 0.0 ==> CellSize(size, n) != 0.0
    ensures size > 0.0 ==> CellSize(size, n) > 0.0
  {
  }

  /** The cell along one axis, for cells of extent `c`: the coordinate in
      cell units, shifted by half a cell, rounded and clamped into
      `[0, n - 1]`. */
  function CellOf(v: real, min: real, c: real, n: int): (k: int)
    requires n >= 1 && c != 0.0
    ensures 0 <= k < n
  {
    ClampI(RoundHalfEven((v - min) / c - 0.5), 0, n - 1)
  }

  /** The centre of cell `k` along one axis. */
  function CenterOf(min: real, c: real, k: int): real
  {
    min + (k as real + 0.5) * c
  }

  /** `WorldToIJ`: the column and row of the cell nearest to `p`. */
  function WorldToIJ(b: Bounds, n: int, p: Vec3): (ij: (int, int))
    requires n >= 1 && b.width != 0.0 && b.depth != 0.0
    ensures 0 <= ij.0 < n && 0 <= ij.1 < n
  {
    CellSizeFacts(b.width, n);
    CellSizeFacts(b.depth, n);
    (CellOf(p.x, b.xMin, CellSize(b.width, n), n), CellOf(p.z, b.zMin, CellSize(b.depth, n), n))
  }

  /** `IJToIndex`: row-major position in the cell buffer. */
  function IJToIndex(n: int, i: int, j: int): (idx: int)
    requires 0 <= i < n && 0 <= j < n
    ensures 0 <= idx < n * n
  {
    IndexBounds(n, i, j);
    j * n + i
  }

  lemma {:induction false} MulMonotone(a: int, b: int, n: int)
    requires 0 <= a <= b && n >= 0
    ensures a * n <= b * n
    decreases b - a
  {
    if a < b {
      MulMonotone(a + 1, b, n);
      assert (a + 1) * n == a * n + n;
    }
  }

  lemma IndexBounds(n: int, i: int, j: int)
    requires 0 <= i < n && 0 <= j < n
    ensures 0 <= j * n + i < n * n
  {
    MulMonotone(0, j, n);
    MulMonotone(j, n - 1, n);
    assert (n - 1) * n == n * n - n;
  }

  /** Distinct cells have distinct buffer positions. */
  lemma IndexInjective(n: int, i: int, j: int, i': int, j': int)
    requires 0 <= i < n && 0 <= j < n && 0 <= i' < n && 0 <= j' < n
    ensures IJToIndex(n, i, j) == IJToIndex(n, i', j') <==> i == i' && j == j'
  {
    if j' < j {
      MulMonotone(1, j - j', n);
      assert (j - j') * n == j * n - j' * n;
    } else if j < j' {
      MulMonotone(1, j' - j, n);
      assert (j' - j) * n == j' * n - j * n;
    }
  }

  /** `IJToCenter`: the centre of a cell, at height `planeY`. */
  function IJToCenter(b: Bounds, n: int, planeY: real, i: int, j: int): Vec3
    requires n >= 1
  {
    Vec3(CenterOf(b.xMin, CellSize(b.width, n), i), planeY, CenterOf(b.zMin, CellSize(b.depth, n), j))
  }

  lemma DivCancel(x: real, c: real)
    requires c != 0.0
    ensures (x * c) / c == x && (x / c) * c == x
  {
  }

  lemma ShiftCancel(min: real, x: real, c: real, v: real)
    requires c != 0.0 && v == min + x * c
    ensures (v - min) / c == x
  {
    DivCancel(x, c);
  }

  lemma MulLe(d: real, e: real, c: real)
    requires d <= e && c >= 0.0
    ensures d * c <= e * c
  {
    assert (e - d) * c >= 0.0;
  }

  lemma MulLt(d: real, e: real, c: real)
    requires d < e && c > 0.0
    ensures d * c < e * c
  {
    assert (e - d) * c > 0.0;
  }

  /** The centre of cell `k` along one axis maps back to `k`. */
  lemma CellOfCenter(min: real, c: real, n: int, k: int)
    requires n >= 1 && c != 0.0 && 0 <= k < n
    ensures CellOf(CenterOf(min, c, k), min, c, n) == k
  {
    var v := CenterOf(min, c, k);
    ShiftCancel(min, k as real + 0.5, c, v);
    assert (v - min) / c - 0.5 == k as real;
    assert (k as real).Floor == k;
  }

  /** Exact arithmetic: the cell holding the centre of `(i, j)` is `(i, j)`. */
  lemma CenterRoundTrip(b: Bounds, n: int, planeY: real, i: int, j: int)
    requires n >= 1 && b.width != 0.0 && b.depth != 0.0
    requires 0 <= i < n && 0 <= j < n
    ensures WorldToIJ(b, n, IJToCenter(b, n, planeY, i, j)) == (i, j)
  {
    CellSizeFacts(b.width, n);
    CellSizeFacts(b.depth, n);
    CellOfCenter(b.xMin, CellSize(b.width, n), n, i);
    CellOfCenter(b.zMin, CellSize(b.depth, n), n, j);
  }

  /** Rounding and then clamping into `[0, n - 1]` moves a value of
      `[-0.5, n - 0.5]` by at most half. */
  lemma ClampedRoundNear(u: real, n: int)
    requires n >= 1 && -0.5 <= u <= n as real - 0.5
    ensures -0.5 <= u - ClampI(RoundHalfEven(u), 0, n - 1) as real <= 0.5
  {
  }

  lemma OffsetFromCenter(v: real, min: real, c: real, w: real, kr: real)
    requires w * c == v - min
    ensures v - (min + (kr + 0.5) * c) == (w - 0.5 - kr) * c
  {
  }

  lemma ScaledWithin(d: real, c: real)
    requires -0.5 <= d <= 0.5 && c > 0.0
    ensures Abs(d * c) <= 0.5 * c
  {
    MulLe(d, 0.5, c);
    MulLe(-0.5, d, c);
  }

  /** Inside the covered stretch `[min, min + n * c]` the chosen cell is the
      nearest one: `v` lies within half a cell of that cell's centre. */
  lemma CellOfNearest(v: real, min: real, c: real, n: int)
    requires n >= 1 && c > 0.0 && min <= v <= min + n as real * c
    ensures Abs(v - CenterOf(min, c, CellOf(v, min, c, n))) <= 0.5 * c
  {
    var w := (v - min) / c;
    assert w * c == v - min by {
      DivCancel(v - min, c);
    }
    assert 0.0 <= w <= n as real by {
      if w > n as real {
        MulLt(n as real, w, c);
        assert false;
      }
      if w < 0.0 {
        MulLt(w, 0.0, c);
        assert false;
      }
    }
    var k := CellOf(v, min, c, n);
    var d := w - 0.5 - k as real;
    assert -0.5 <= d <= 0.5 by {
      assert k == ClampI(RoundHalfEven(w - 0.5), 0, n - 1);
      ClampedRoundNear(w - 0.5, n);
    }
    assert v - CenterOf(min, c, k) == d * c by {
      OffsetFromCenter(v, min, c, w, k as real);
    }
    ScaledWithin(d, c);
  }

  /** Both axes: a point of the rectangle is within half a cell, along X and
      along Z, of the centre of the cell it marks. */
  lemma NearestCell(b: Bounds, n: int, planeY: real, p: Vec3)
    requires n >= 1 && b.width > 0.0 && b.depth > 0.0
    requires b.xMin <= p.x <= b.xMin + b.width && b.zMin <= p.z <= b.zMin + b.depth
    ensures var ij := WorldToIJ(b, n, p);
            var ctr := IJToCenter(b, n, planeY, ij.0, ij.1);
            Abs(p.x - ctr.x) <= 0.5 * CellSize(b.width, n) && Abs(p.z - ctr.z) <= 0.5 * CellSize(b.depth, n)
  {
    CellSizeFacts(b.width, n);
    CellSizeFacts(b.depth, n);
    CellOfNearest(p.x, b.xMin, CellSize(b.width, n), n);
    CellOfNearest(p.z, b.zMin, CellSize(b.depth, n), n);
  }

  /** The `GizmoGridManager` component. */
  class Grid {
    var bounds: Bounds
    var n: int
    var planeY: real
    /** One colour per cell, row-major; empty before the first validation,
        where the component holds no array. */
    var cellColor: array<Color>

    predicate Valid()
      reads this
    {
      n >= 1 && cellColor.Length == n * n
    }

    /** The component with its inspector values, before validation. */
    constructor (bounds: Bounds, n: int, planeY: real)
      ensures this.bounds == bounds && this.n == n && this.planeY == planeY
      ensures cellColor.Length == 0
    {
      this.bounds := bounds;
      this.n := n;
      this.planeY := planeY;
      cellColor := new Color[0];
    }

    /** `OnValidate`: at least one cell per side, and a fresh cleared buffer
        unless the present one already has `n * n` cells. */
    method OnValidate()
      modifies this
      ensures Valid()
      ensures n == MaxI(1, old(n)) && bounds == old(bounds) && planeY == old(planeY)
      ensures old(cellColor.Length) == n * n ==> cellColor == old(cellColor)
      ensures old(cellColor.Length) != n * n ==>
                fresh(cellColor) && forall k :: 0 <= k < cellColor.Length ==> cellColor[k] == Clear
    {
      n := MaxI(1, n);
      if cellColor.Length != n * n {
        cellColor := new Color[n * n](_ => Clear);
      }
    }

    /** `MarkNearestCell`: paints exactly the cell nearest to `p` and leaves
        every other cell as it was. */
    method MarkNearestCell(p: Vec3, c: Color)
      requires Valid() && bounds.width != 0.0 && bounds.depth != 0.0
      modifies cellColor
      ensures var ij := WorldToIJ(bounds, n, p);
              cellColor[..] == old(cellColor[..])[IJToIndex(n, ij.0, ij.1) := c]
    {
      var ij := WorldToIJ(bounds, n, p);
      var idx := IJToIndex(n, ij.0, ij.1);
      cellColor[idx] := c;
    }

    /** The overload on a planar point `(x, z)`, placed at height 0. */
    method MarkNearestCellXZ(xz: Vec2, c: Color)
      requires Valid() && bounds.width != 0.0 && bounds.depth != 0.0
      modifies cellColor
      ensures var ij := WorldToIJ(bounds, n, Vec3(xz.x, 0.0, xz.y));
              cellColor[..] == old(cellColor[..])[IJToIndex(n, ij.0, ij.1) := c]
    {
      MarkNearestCell(Vec3(xz.x, 0.0, xz.y), c);
    }
  }
}

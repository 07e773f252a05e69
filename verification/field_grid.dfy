/**
 The evaluation grid of the pitch-control engine (`calculate_cells` and
 `get_flag_zone` in src/pitch_control/pitch_control.py): cell centres along
 both axes, and the three column thresholds that split the pitch into thirds.
 */
module FieldGrid {

  import opened Common

  /** Python's `int(x)` on a float: truncation toward zero. */
  function Trunc(x: real): (n: int)
    ensures x >= 0.0 ==> n as real <= x < n as real + 1.0
    ensures x < 0.0 ==> n as real - 1.0 < x <= n as real
  {
    if x >= 0.0 then x.Floor else -((-x).Floor)
  }

  /**
   The grid: the requested column count, the derived row count, the cell
   centres (`xgrid`, `ygrid`) and the three zone thresholds.
   */
  datatype Grid = Grid(nx: int, ny: int, xgrid: seq<real>, ygrid: seq<real>,
                       firstZone: real, secondZone: real, thirdZone: real)
  {
    /** The thresholds are a third, two thirds and all of the column count, as reals. */
    predicate Zoned()
    {
      && thirdZone == |xgrid| as real
      && firstZone == |xgrid| as real / 3.0
      && secondZone == |xgrid| as real / 3.0 * 2.0
    }
  }

  /** `np.arange(n) * d - size / 2 + d / 2`: the centres of `n` cells of width `d`. */
  function Centres(n: int, size: real, d: real): (r: seq<real>)
    ensures |r| == if n > 0 then n else 0
    ensures forall i :: 0 <= i < |r| ==> r[i] == i as real * d - size / 2.0 + d / 2.0
  {
    if n <= 0 then [] else seq(n, i => i as real * d - size / 2.0 + d / 2.0)
  }

  /** Consecutive centres are one cell width apart. */
  lemma CentresEvenlySpaced(n: int, size: real, d: real, i: nat)
    requires i + 1 < n
    ensures Centres(n, size, d)[i + 1] - Centres(n, size, d)[i] == d
  {
    assert (i + 1) as real * d == i as real * d + d;
  }

  /** When the cells exactly fill the side, the centres are symmetric about the half-way line. */
  lemma CentresSymmetric(n: int, size: real, i: nat)
    requires n > 0 && i < n
    ensures var r := Centres(n, size, size / n as real); r[i] + r[n - 1 - i] == 0.0
  {
    var d := size / n as real;
    var r := Centres(n, size, d);
    assert n as real * d == size;
    assert i as real * d + (n - 1 - i) as real * d == (n - 1) as real * d;
    assert (n - 1) as real * d == n as real * d - d;
  }

  /**
   `calculate_cells`: `ny = int(nx * width / length)` rows, cells of size
   `length / nx` by `width / ny`, and thresholds nx/3, 2nx/3 and nx over the
   column count. Every division by zero is a ZeroDivisionError.
   */
  function CalculateCells(length: real, width: real, nx: int): (r: Result<Grid>)
    ensures r.Err? <==> length == 0.0 || nx == 0 || Trunc(nx as real * width / length) == 0
    ensures r.Err? ==> r.error == ZeroDivision
    ensures r.Ok? ==> r.value.nx == nx && r.value.ny == Trunc(nx as real * width / length)
    ensures r.Ok? ==> r.value.Zoned()
    ensures r.Ok? ==> |r.value.xgrid| == (if nx > 0 then nx else 0)
    ensures r.Ok? ==> |r.value.ygrid| == (if r.value.ny > 0 then r.value.ny else 0)
    ensures r.Ok? && nx > 0 ==> forall i :: 0 <= i < nx ==> r.value.xgrid[i] + r.value.xgrid[nx - 1 - i] == 0.0
    ensures r.Ok? && r.value.ny > 0 ==>
              forall i :: 0 <= i < r.value.ny ==> r.value.ygrid[i] + r.value.ygrid[r.value.ny - 1 - i] == 0.0
  {
    if length == 0.0 then Err(ZeroDivision)
    else
      var ny := Trunc(nx as real * width / length);
      if nx == 0 || ny == 0 then Err(ZeroDivision)
      else
        var dx := length / nx as real;
        var dy := width / ny as real;
        var xgrid := Centres(nx, length, dx);
        var ygrid := Centres(ny, width, dy);
        assert nx > 0 ==> forall i :: 0 <= i < nx ==> xgrid[i] + xgrid[nx - 1 - i] == 0.0 by {
          if nx > 0 {
            forall i | 0 <= i < nx ensures xgrid[i] + xgrid[nx - 1 - i] == 0.0 {
              CentresSymmetric(nx, length, i);
            }
          }
        }
        assert ny > 0 ==> forall i :: 0 <= i < ny ==> ygrid[i] + ygrid[ny - 1 - i] == 0.0 by {
          if ny > 0 {
            forall i | 0 <= i < ny ensures ygrid[i] + ygrid[ny - 1 - i] == 0.0 {
              CentresSymmetric(ny, width, i);
            }
          }
        }
        var n := |xgrid| as real;
        Ok(Grid(nx, ny, xgrid, ygrid, n / 3.0, n / 3.0 * 2.0, n))
  }

  /** With a positive pitch and column count, the row count is the floor of nx * width / length. */
  lemma RowCountIsFloor(length: real, width: real, nx: int)
    requires length > 0.0 && width >= 0.0 && nx > 0
    ensures Trunc(nx as real * width / length) == (nx as real * width / length).Floor
  {
    assert nx as real * width >= 0.0;
    DivMonotone(0.0, nx as real * width, length);
  }

  /**
   `get_flag_zone`: column `j` is in the first third below nx/3, the second
   below 2nx/3, the third below nx, and out of the field otherwise. The
   comparisons are between the integer `j` and real thresholds.
   */
  function FlagZone(g: Grid, j: int): (r: Result<Zone>)
    ensures r == Ok(First) <==> (j as real) < g.firstZone
    ensures r == Ok(Second) <==> g.firstZone <= j as real < g.secondZone
    ensures r == Ok(Third) <==> g.firstZone <= j as real && g.secondZone <= j as real < g.thirdZone
    ensures r.Err? <==> g.firstZone <= j as real && g.secondZone <= j as real && g.thirdZone <= j as real
    ensures r.Err? ==> r.error == OutOfField
  {
    if (j as real) < g.firstZone then Ok(First)
    else if g.firstZone <= j as real < g.secondZone then Ok(Second)
    else if g.secondZone <= j as real < g.thirdZone then Ok(Third)
    else Err(OutOfField)
  }

  /** The position of a zone from the left goal line. */
  function Rank(z: Zone): nat
  {
    match z
    case First => 0
    case Second => 1
    case Third => 2
  }

  /** Every column of the grid lands in exactly one of the three zones, and none is out of the field. */
  lemma ZonesCoverGrid(g: Grid, j: int)
    requires g.Zoned() && 0 <= j < |g.xgrid|
    ensures FlagZone(g, j).Ok?
  {
  }

  /** Zones never go backwards as the column index grows. */
  lemma ZoneMonotone(g: Grid, j1: int, j2: int)
    requires g.Zoned() && 0 <= j1 <= j2 < |g.xgrid|
    ensures Rank(FlagZone(g, j1).value) <= Rank(FlagZone(g, j2).value)
  {
  }

  /** Columns at or beyond the column count are out of the field. */
  lemma BeyondGridIsOutOfField(g: Grid, j: int)
    requires g.Zoned() && j >= |g.xgrid|
    ensures FlagZone(g, j) == Err(OutOfField)
  {
  }

  /** With 30 columns the thirds are [0, 10), [10, 20) and [20, 30). */
  lemma ThirtyColumns(g: Grid, j: int)
    requires g.Zoned() && |g.xgrid| == 30 && 0 <= j < 30
    ensures FlagZone(g, j) == Ok(if j < 10 then First else if j < 20 then Second else Third)
  {
  }

  /** When the column count is a multiple of three, the first and third zones mirror each other. */
  lemma ZonesMirror(g: Grid, j: int)
    requires g.Zoned() && |g.xgrid| % 3 == 0 && 0 <= j < |g.xgrid|
    ensures FlagZone(g, j) == Ok(First) <==> FlagZone(g, |g.xgrid| - 1 - j) == Ok(Third)
  {
    var n := |g.xgrid|;
    var k := n / 3;
    assert n == 3 * k;
    assert n as real == 3.0 * k as real;
    assert g.firstZone == k as real;
    assert g.secondZone == (2 * k) as real;
    assert (j as real) < k as real <==> j < k;
    assert (2 * k) as real <= (n - 1 - j) as real <==> 2 * k <= n - 1 - j;
  }

  /**
   With the engine's default of 50 columns the thirds are 17, 17 and 16
   columns wide: column 16 is in the first zone while its mirror image,
   column 33, is in the second.
   */
  lemma FiftyColumnsAsymmetric(g: Grid)
    requires g.Zoned() && |g.xgrid| == 50
    ensures FlagZone(g, 16) == Ok(First) && FlagZone(g, 49 - 16) == Ok(Second)
    ensures FlagZone(g, 17) == Ok(Second) && FlagZone(g, 34) == Ok(Third)
  {
  }
}

/** `_draw_points`: a copy of an image with a value written at each point, as a
    single cell or as a square block cut out with numpy slice semantics. */
module DrawPoints {

  /** A coordinate pair as the source indexes it: p[0] is the column (x) and
      p[1] the row (y). */
  datatype Point = Point(x: int, y: int)

  /** `values` is either one number for every point or an iterable indexed by
      the point's position. */
  datatype Values = Scalar(v: int) | PerPoint(vs: seq<int>)

  /** Every point has a value: a scalar always, an iterable when it is long
      enough (a shorter one raises IndexError part-way through). */
  predicate HasValueFor(values: Values, n: nat) {
    values.PerPoint? ==> n <= |values.vs|
  }

  function ValueAt(values: Values, i: nat): int
    requires HasValueFor(values, i + 1)
  {
    if values.PerPoint? then values.vs[i] else values.v
  }

  /** A slice bound as Python and numpy read it for an axis of length n: a
      negative bound counts from the end, and the result is clamped to [0, n]. */
  function SliceBound(i: int, n: nat): (b: nat)
    ensures b <= n
    ensures 0 <= i <= n ==> b == i
  {
    if i < 0 then (if i + n < 0 then 0 else i + n) else if i > n then n else i
  }

  /** An integer index on an axis of length n: a negative one counts from the end. */
  function WrapIndex(i: int, n: nat): int {
    if i < 0 then i + n else i
  }

  /** The single-cell form (side 0) indexes mask[p[1], p[0]], which raises
      IndexError outside [-n, n) on either axis. */
  predicate Indexable(points: seq<Point>, side: int, rows: nat, cols: nat) {
    side == 0 ==> forall k :: 0 <= k < |points| ==>
      -(rows as int) <= points[k].y < rows && -(cols as int) <= points[k].x < cols
  }

  /** Whether the mark drawn for point p covers cell (r, c) of a rows x cols
      grid: cell [p[1], p[0]] when side is 0, otherwise the block of rows
      [p[1]-side, p[1]+side) and columns [p[0]-side, p[0]+side), each read as a
      numpy slice. */
  predicate Covers(p: Point, side: int, rows: nat, cols: nat, r: int, c: int) {
    if side == 0 then r == WrapIndex(p.y, rows) && c == WrapIndex(p.x, cols)
    else SliceBound(p.y - side, rows) <= r < SliceBound(p.y + side, rows) &&
         SliceBound(p.x - side, cols) <= c < SliceBound(p.x + side, cols)
  }

  /** What cell (r, c), holding `orig` in the input, holds after `points` are
      drawn in order: the value of the last point whose mark covers the cell. */
  function DrawnCell(orig: int, points: seq<Point>, values: Values, side: int,
                     rows: nat, cols: nat, r: int, c: int): int
    requires HasValueFor(values, |points|)
  {
    if points == [] then orig
    else
      var k := |points| - 1;
      if Covers(points[k], side, rows, cols, r, c) then ValueAt(values, k)
      else DrawnCell(orig, points[..k], values, side, rows, cols, r, c)
  }

  /** A cell no mark covers keeps its input value. */
  lemma {:induction false} DrawnCellOutsideMarks(orig: int, points: seq<Point>, values: Values, side: int,
                                                 rows: nat, cols: nat, r: int, c: int)
    requires HasValueFor(values, |points|)
    requires forall k :: 0 <= k < |points| ==> !Covers(points[k], side, rows, cols, r, c)
    ensures DrawnCell(orig, points, values, side, rows, cols, r, c) == orig
  {
    if points != [] {
      var k := |points| - 1;
      assert forall j :: 0 <= j < k ==> points[..k][j] == points[j];
      DrawnCellOutsideMarks(orig, points[..k], values, side, rows, cols, r, c);
    }
  }

  /** A covered cell holds the value of the last point whose mark covers it:
      later points overwrite earlier ones. */
  lemma {:induction false} DrawnCellLastWins(orig: int, points: seq<Point>, values: Values, side: int,
                                             rows: nat, cols: nat, r: int, c: int, k: nat)
    requires HasValueFor(values, |points|)
    requires k < |points| && Covers(points[k], side, rows, cols, r, c)
    requires forall j :: k < j < |points| ==> !Covers(points[j], side, rows, cols, r, c)
    ensures DrawnCell(orig, points, values, side, rows, cols, r, c) == ValueAt(values, k)
  {
    var last := |points| - 1;
    if k < last {
      assert forall j :: 0 <= j < last ==> points[..last][j] == points[j];
      DrawnCellLastWins(orig, points[..last], values, side, rows, cols, r, c, k);
    }
  }

  /** A square that lies inside the grid covers exactly the half-open rows
      [p[1]-side, p[1]+side) and columns [p[0]-side, p[0]+side). */
  lemma SquareInsideGrid(p: Point, side: int, rows: nat, cols: nat, r: int, c: int)
    requires side > 0
    requires 0 <= p.y - side && p.y + side <= rows && 0 <= p.x - side && p.x + side <= cols
    ensures Covers(p, side, rows, cols, r, c) <==>
      p.y - side <= r < p.y + side && p.x - side <= c < p.x + side
  {
  }

  /** Near the top edge the start row of the slice is negative and counts from
      the bottom, so on a 10 x 10 grid the side-2 square of the point (5, 1)
      covers no cell at all. */
  lemma SquareNearTopEdgeIsEmpty(r: int, c: int)
    ensures !Covers(Point(5, 1), 2, 10, 10, r, c)
  {
    assert SliceBound(1 - 2, 10) == 9 && SliceBound(1 + 2, 10) == 3;
  }

  /** Writes `val` into the block of rows [r0, r1) and columns [c0, c1) of
      `mask` (empty when a bound is not above its start), as the slice
      assignment mask[r0:r1, c0:c1] = val does. */
  method FillBlock(mask: array2<int>, r0: nat, r1: nat, c0: nat, c1: nat, val: int)
    requires r1 <= mask.Length0 && c1 <= mask.Length1
    modifies mask
    ensures forall r, c :: 0 <= r < mask.Length0 && 0 <= c < mask.Length1 ==>
      mask[r, c] == if r0 <= r < r1 && c0 <= c < c1 then val else old(mask[r, c])
  {
    var r := r0;
    while r < r1
      invariant r0 <= r && (r == r0 || r <= r1)
      invariant forall i, j :: 0 <= i < mask.Length0 && 0 <= j < mask.Length1 ==>
        mask[i, j] == if r0 <= i < r && c0 <= j < c1 then val else old(mask[i, j])
    {
      var c := c0;
      while c < c1
        invariant c0 <= c && (c == c0 || c <= c1)
        invariant forall i, j :: 0 <= i < mask.Length0 && 0 <= j < mask.Length1 ==>
          mask[i, j] == if (r0 <= i < r && c0 <= j < c1) || (i == r && c0 <= j < c) then val else old(mask[i, j])
      {
        mask[r, c] := val;
        c := c + 1;
      }
      r := r + 1;
    }
  }

  /** `_draw_points`: copies `img`, then for each point in order writes its
      value over the point's mark in the copy. The input is left as it was and
      the copy has its shape. */
  method Draw(img: array2<int>, points: seq<Point>, values: Values, side: int) returns (mask: array2<int>)
    requires HasValueFor(values, |points|)
    requires Indexable(points, side, img.Length0, img.Length1)
    ensures fresh(mask) && mask.Length0 == img.Length0 && mask.Length1 == img.Length1
    ensures forall r, c :: 0 <= r < mask.Length0 && 0 <= c < mask.Length1 ==>
      mask[r, c] == DrawnCell(img[r, c], points, values, side, img.Length0, img.Length1, r, c)
  {
    var rows, cols := img.Length0, img.Length1;
    mask := new int[rows, cols]((r, c) reads img requires 0 <= r < rows && 0 <= c < cols => img[r, c]);
    var i := 0;
    while i < |points|
      invariant 0 <= i <= |points|
      invariant forall r, c :: 0 <= r < rows && 0 <= c < cols ==>
        mask[r, c] == DrawnCell(img[r, c], points[..i], values, side, rows, cols, r, c)
    {
      var p := points[i];
      var val := if values.PerPoint? then values.vs[i] else values.v;
      assert points[..i + 1][..i] == points[..i];
      if side == 0 {
        mask[WrapIndex(p.y, rows), WrapIndex(p.x, cols)] := val;
      } else {
        FillBlock(mask, SliceBound(p.y - side, rows), SliceBound(p.y + side, rows),
                  SliceBound(p.x - side, cols), SliceBound(p.x + side, cols), val);
      }
      i := i + 1;
    }
    assert points[..i] == points;
  }
}

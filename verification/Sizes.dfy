/** Track sizes: the fractions a grid's rows and columns take, and the rectangles
    they make. Fractions are reals; rounding is not modelled. */
module Sizes {
  import opened Options

  const EPS: real := 0.000001

  datatype GridShape = GridShape(rows: int, cols: int)
  datatype Rect = Rect(left: real, top: real, width: real, height: real)

  function Sum(s: seq<real>): real {
    if s == [] then 0.0 else Sum(s[..|s| - 1]) + s[|s| - 1]
  }

  function AtLeastOne(n: int): nat {
    if n < 1 then 1 else n
  }

  function EqualSizes(n: int): (s: seq<real>)
    ensures |s| == AtLeastOne(n)
    ensures forall i :: 0 <= i < |s| ==> s[i] == 1.0 / AtLeastOne(n) as real
  {
    seq(AtLeastOne(n), _ => 1.0 / AtLeastOne(n) as real)
  }

  predicate SumsToOne(s: seq<real>) {
    -EPS < Sum(s) - 1.0 < EPS
  }

  /** A stored track array is kept only if it fits. */
  predicate Usable(sizes: Option<seq<real>>, count: int) {
    && sizes.Some? && |sizes.value| == count
    && (forall i :: 0 <= i < |sizes.value| ==> sizes.value[i] > 0.0)
    && SumsToOne(sizes.value)
  }

  /** Which stored sizes are kept: one for each track, all positive, and together within a
      millionth of the whole. */
  lemma UsableIff(sizes: Option<seq<real>>, count: int)
    ensures Usable(sizes, count)
       <==> && sizes.Some? && |sizes.value| == count
            && (forall i :: 0 <= i < count ==> sizes.value[i] > 0.0)
            && 0.999999 < Sum(sizes.value) < 1.000001
  {
  }

  function Fit(sizes: Option<seq<real>>, count: int): seq<real> {
    if Usable(sizes, count) then sizes.value else EqualSizes(count)
  }

  /** JavaScript's a[r], undefined outside the array or when there is none. */
  function At(colSizes: Option<seq<seq<real>>>, r: int): Option<seq<real>> {
    if colSizes.Some? && 0 <= r < |colSizes.value| then Some(colSizes.value[r]) else None
  }

  function FitRows(shape: GridShape, rowSizes: Option<seq<real>>): seq<real> {
    Fit(rowSizes, shape.rows)
  }

  function FitCols(shape: GridShape, colSizes: Option<seq<seq<real>>>): seq<seq<real>>
    requires shape.rows >= 0
  {
    seq(shape.rows, r requires 0 <= r => Fit(At(colSizes, r), shape.cols))
  }

  lemma {:induction false} SumConstant(s: seq<real>, v: real)
    requires forall i :: 0 <= i < |s| ==> s[i] == v
    ensures Sum(s) == |s| as real * v
  {
    if s != [] {
      SumConstant(s[..|s| - 1], v);
    }
  }

  /** Equal sizes are always accepted, so what Fit returns always fits. */
  lemma FitIsUsable(sizes: Option<seq<real>>, count: int)
    requires count >= 1
    ensures Usable(Some(Fit(sizes, count)), count)
  {
    SumConstant(EqualSizes(count), 1.0 / count as real);
  }

  // ---------------------------------------------------------- moving a divider

  function Min(a: real, b: real): real { if a <= b then a else b }
  function Max(a: real, b: real): real { if a >= b then a else b }
  function Abs(a: real): real { if a < 0.0 then -a else a }

  /** Move the boundary between tracks `boundary` and `boundary + 1`. */
  function ResizeTracks(sizes: seq<real>, boundary: int, delta: real, min: real, snap: real): seq<real> {
    if boundary < 0 || boundary + 1 >= |sizes| then sizes
    else
      var a, b := sizes[boundary], sizes[boundary + 1];
      var pair := a + b;
      var lo := Min(min, pair / 2.0);
      var hi := pair - lo;
      var clamped := Min(hi, Max(lo, a + delta));
      var next := if snap > 0.0 && Abs(clamped - pair / 2.0) <= snap then pair / 2.0 else clamped;
      sizes[boundary := next][boundary + 1 := pair - next]
  }

  lemma {:induction false} SumUpdate(s: seq<real>, i: nat, v: real)
    requires i < |s|
    ensures Sum(s[i := v]) == Sum(s) - s[i] + v
  {
    var n := |s| - 1;
    if i < n {
      assert s[i := v][..n] == s[..n][i := v];
      SumUpdate(s[..n], i, v);
    } else {
      assert s[i := v][..n] == s[..n];
    }
  }

  /** A drag moves exactly two tracks, keeps their total and the whole, and squeezes
      neither below the smaller of `min` and half the pair. Inside those limits and
      outside the snap range the boundary follows the pointer. */
  lemma ResizeTracksMovesOneBoundary(sizes: seq<real>, boundary: int, delta: real, min: real, snap: real)
    requires 0 <= boundary && boundary + 1 < |sizes|
    ensures
      var out := ResizeTracks(sizes, boundary, delta, min, snap);
      var pair := sizes[boundary] + sizes[boundary + 1];
      && |out| == |sizes| && Sum(out) == Sum(sizes)
      && (forall i :: 0 <= i < |sizes| && i != boundary && i != boundary + 1 ==> out[i] == sizes[i])
      && out[boundary] + out[boundary + 1] == pair
      && out[boundary] >= Min(min, pair / 2.0) && out[boundary + 1] >= Min(min, pair / 2.0)
      && (Min(min, pair / 2.0) <= sizes[boundary] + delta <= pair - Min(min, pair / 2.0) ==>
            Abs(sizes[boundary] + delta - pair / 2.0) > snap ==> out[boundary] == sizes[boundary] + delta)
  {
    var out := ResizeTracks(sizes, boundary, delta, min, snap);
    var mid := sizes[boundary := out[boundary]];
    SumUpdate(sizes, boundary, out[boundary]);
    SumUpdate(mid, boundary + 1, out[boundary + 1]);
  }

  /** Where the pointer would put the boundary, held back by the limits of the pair. */
  predicate Held(target: real, lo: real, hi: real, at: real) {
    if target < lo then at == lo else if target > hi then at == hi else at == target
  }

  /** The whole of a drag: the boundary follows the pointer up to the pair's limits, and
      from there jumps to the middle if that is within the snap range. */
  lemma DragFollowsPointer(sizes: seq<real>, boundary: int, delta: real, min: real, snap: real) returns (at: real)
    requires 0 <= boundary && boundary + 1 < |sizes|
    ensures
      var half := (sizes[boundary] + sizes[boundary + 1]) / 2.0;
      var lo := if min <= half then min else half;
      && Held(sizes[boundary] + delta, lo, half + half - lo, at)
      && ResizeTracks(sizes, boundary, delta, min, snap)[boundary]
         == if snap > 0.0 && -snap <= at - half <= snap then half else at
  {
    var pair := sizes[boundary] + sizes[boundary + 1];
    var lo := Min(min, pair / 2.0);
    at := Min(pair - lo, Max(lo, sizes[boundary] + delta));
  }

  /** Without a boundary to move there is nothing to drag. */
  lemma NoBoundaryNoDrag(sizes: seq<real>, boundary: int, delta: real, min: real, snap: real)
    requires boundary < 0 || boundary + 1 >= |sizes|
    ensures ResizeTracks(sizes, boundary, delta, min, snap) == sizes
  {
  }

  /** A drag's result is always a track array normalizeSizes keeps, whatever the
      pointer does, exactly when the minimum is positive. */
  lemma DragIsUsableIff(sizes: seq<real>, boundary: int, min: real)
    requires Usable(Some(sizes), |sizes|) && 0 <= boundary && boundary + 1 < |sizes|
    ensures (forall delta: real, snap: real {:trigger ResizeTracks(sizes, boundary, delta, min, snap)} ::
               Usable(Some(ResizeTracks(sizes, boundary, delta, min, snap)), |sizes|))
            <==> min > 0.0
  {
    if min > 0.0 {
      forall delta: real, snap: real
        ensures Usable(Some(ResizeTracks(sizes, boundary, delta, min, snap)), |sizes|)
      {
        ResizeTracksMovesOneBoundary(sizes, boundary, delta, min, snap);
      }
    } else {
      var out := ResizeTracks(sizes, boundary, -sizes[boundary] + min, min, 0.0);
      assert out[boundary] <= 0.0;
    }
  }

  // ------------------------------------------------------------ tile geometry

  function CellRect(cols: int, rowSizes: seq<real>, colSizes: seq<seq<real>>, row: nat, col: nat): Rect
    requires col < cols && row < |rowSizes|
    requires row < |colSizes| ==> |colSizes[row]| == cols
  {
    var widths := if row < |colSizes| then colSizes[row] else EqualSizes(cols);
    Rect(Sum(widths[..col]) * 100.0, Sum(rowSizes[..row]) * 100.0, widths[col] * 100.0, rowSizes[row] * 100.0)
  }

  /** The rectangle of one tile, in percent of the container. */
  function TileRect(shape: GridShape, rowSizes: seq<real>, colSizes: seq<seq<real>>, index: nat): Rect
    requires shape.cols >= 1 && index / shape.cols < |rowSizes|
    requires index / shape.cols < |colSizes| ==> |colSizes[index / shape.cols]| == shape.cols
  {
    CellRect(shape.cols, rowSizes, colSizes, index / shape.cols, index % shape.cols)
  }

  predicate Contains(r: Rect, x: real, y: real) {
    r.left <= x < r.left + r.width && r.top <= y < r.top + r.height
  }

  /** Shape and sizes as a canonical layout has them. */
  predicate Fits(shape: GridShape, rowSizes: seq<real>, colSizes: seq<seq<real>>) {
    && shape.rows >= 1 && 1 <= shape.cols <= 4
    && Usable(Some(rowSizes), shape.rows) && |colSizes| == shape.rows
    && (forall r :: 0 <= r < shape.rows ==> Usable(Some(colSizes[r]), shape.cols))
  }

  lemma PrefixStep(s: seq<real>, k: nat)
    requires k < |s|
    ensures Sum(s[..k + 1]) == Sum(s[..k]) + s[k]
  {
    assert s[..k + 1][..k] == s[..k];
  }

  lemma {:induction false} PrefixMonotone(s: seq<real>, j: nat, k: nat)
    requires j <= k <= |s| && (forall i :: 0 <= i < |s| ==> s[i] > 0.0)
    ensures Sum(s[..j]) <= Sum(s[..k]) && (j < k ==> Sum(s[..j + 1]) <= Sum(s[..k]) && Sum(s[..j]) < Sum(s[..k]))
    decreases k - j
  {
    if j < k {
      PrefixMonotone(s, j + 1, k);
      PrefixStep(s, j);
    }
  }

  /** The track a coordinate falls in. */
  lemma {:induction false} TrackAt(s: seq<real>, v: real) returns (k: nat)
    requires 0.0 <= v < Sum(s)
    ensures k < |s| && Sum(s[..k]) <= v < Sum(s[..k + 1])
  {
    var n := |s| - 1;
    if v < Sum(s[..n]) {
      k := TrackAt(s[..n], v);
      assert s[..n][..k] == s[..k] && s[..n][..k + 1] == s[..k + 1];
    } else {
      k := n;
      assert s[..n + 1] == s;
    }
  }

  lemma TrackUnique(s: seq<real>, j: nat, k: nat, v: real)
    requires j < |s| && k < |s| && (forall i :: 0 <= i < |s| ==> s[i] > 0.0)
    requires Sum(s[..j]) <= v < Sum(s[..j + 1]) && Sum(s[..k]) <= v < Sum(s[..k + 1])
    ensures j == k
  {
    if j < k {
      PrefixMonotone(s, j, k);
    } else if k < j {
      PrefixMonotone(s, k, j);
    }
  }

  lemma CellOfSlot(cols: int, index: nat)
    requires cols >= 1
    ensures index == (index / cols) * cols + index % cols
  {
  }

  lemma RectEdges(shape: GridShape, rowSizes: seq<real>, colSizes: seq<seq<real>>, row: nat, col: nat)
    requires Fits(shape, rowSizes, colSizes) && row < shape.rows && col < shape.cols
    ensures
      var r := CellRect(shape.cols, rowSizes, colSizes, row, col);
      && r.left + r.width == Sum(colSizes[row][..col + 1]) * 100.0
      && r.top + r.height == Sum(rowSizes[..row + 1]) * 100.0
  {
    PrefixStep(rowSizes, row);
    PrefixStep(colSizes[row], col);
  }

  lemma CellsAreDisjoint(shape: GridShape, rowSizes: seq<real>, colSizes: seq<seq<real>>,
                         row: nat, col: nat, row': nat, col': nat, x: real, y: real)
    requires Fits(shape, rowSizes, colSizes)
    requires row < shape.rows && col < shape.cols && row' < shape.rows && col' < shape.cols
    requires Contains(CellRect(shape.cols, rowSizes, colSizes, row, col), x, y)
    requires Contains(CellRect(shape.cols, rowSizes, colSizes, row', col'), x, y)
    ensures row == row' && col == col'
  {
    RectEdges(shape, rowSizes, colSizes, row, col);
    RectEdges(shape, rowSizes, colSizes, row', col');
    TrackUnique(rowSizes, row, row', y / 100.0);
    TrackUnique(colSizes[row], col, col', x / 100.0);
  }

  /** No two tiles overlap. */
  lemma TilesAreDisjoint(shape: GridShape, rowSizes: seq<real>, colSizes: seq<seq<real>>,
                         i: nat, j: nat, x: real, y: real)
    requires Fits(shape, rowSizes, colSizes)
    requires i / shape.cols < shape.rows && j / shape.cols < shape.rows
    requires Contains(TileRect(shape, rowSizes, colSizes, i), x, y)
    requires Contains(TileRect(shape, rowSizes, colSizes, j), x, y)
    ensures i == j
  {
    CellsAreDisjoint(shape, rowSizes, colSizes,
                     i / shape.cols, i % shape.cols, j / shape.cols, j % shape.cols, x, y);
    CellOfSlot(shape.cols, i);
    CellOfSlot(shape.cols, j);
  }

  /** Tiles of a row meet edge to edge, and so do the rows; the first ones start at
      the container's corner. */
  lemma TilesMeetEdgeToEdge(shape: GridShape, rowSizes: seq<real>, colSizes: seq<seq<real>>, row: nat, col: nat)
    requires Fits(shape, rowSizes, colSizes) && row < shape.rows && col < shape.cols
    ensures
      var r := CellRect(shape.cols, rowSizes, colSizes, row, col);
      && (if col == 0 then r.left == 0.0 else
            var before := CellRect(shape.cols, rowSizes, colSizes, row, col - 1);
            before.left + before.width == r.left && before.top == r.top && before.height == r.height)
      && (if row == 0 then r.top == 0.0 else
            var above := CellRect(shape.cols, rowSizes, colSizes, row - 1, col);
            above.top + above.height == r.top)
  {
    if col > 0 { PrefixStep(colSizes[row], col - 1); }
    if row > 0 { PrefixStep(rowSizes, row - 1); }
  }

  /** Slots count along the rows. */
  lemma SlotAfter(cols: int, index: nat)
    requires 1 <= cols <= 4
    ensures index % cols + 1 < cols ==> (index + 1) / cols == index / cols && (index + 1) % cols == index % cols + 1
    ensures index % cols + 1 >= cols ==> (index + 1) / cols == index / cols + 1 && (index + 1) % cols == 0
  {
  }

  predicate Follows(r: Rect, next: Rect, inRow: bool) {
    if inRow then next.left == r.left + r.width && next.top == r.top && next.height == r.height
    else next.left == 0.0 && next.top == r.top + r.height
  }

  lemma NextCell(shape: GridShape, rowSizes: seq<real>, colSizes: seq<seq<real>>, row: nat, col: nat)
    requires Fits(shape, rowSizes, colSizes) && row < shape.rows && col < shape.cols
    requires col + 1 < shape.cols || row + 1 < shape.rows
    ensures
      var row', col' := if col + 1 < shape.cols then row else row + 1, if col + 1 < shape.cols then col + 1 else 0;
      Follows(CellRect(shape.cols, rowSizes, colSizes, row, col),
              CellRect(shape.cols, rowSizes, colSizes, row', col'), col + 1 < shape.cols)
  {
    if col + 1 < shape.cols {
      TilesMeetEdgeToEdge(shape, rowSizes, colSizes, row, col + 1);
    } else {
      PrefixStep(rowSizes, row);
    }
  }

  /** Tiles are laid out as text is read: the first in the corner, each next one right of
      the one before, or at the left edge under its row. */
  lemma TilesReadInOrder(shape: GridShape, rowSizes: seq<real>, colSizes: seq<seq<real>>, index: nat)
    requires Fits(shape, rowSizes, colSizes) && index / shape.cols < shape.rows
    ensures
      var first := TileRect(shape, rowSizes, colSizes, index);
      index == 0 ==> first.left == 0.0 && first.top == 0.0
    ensures (index + 1) / shape.cols < shape.rows ==>
      Follows(TileRect(shape, rowSizes, colSizes, index), TileRect(shape, rowSizes, colSizes, index + 1),
              index % shape.cols + 1 < shape.cols)
  {
    SlotAfter(shape.cols, index);
    if (index + 1) / shape.cols < shape.rows {
      NextCell(shape, rowSizes, colSizes, index / shape.cols, index % shape.cols);
    }
  }

  /** Some tile of the grid shows the point. */
  ghost predicate Covered(shape: GridShape, rowSizes: seq<real>, colSizes: seq<seq<real>>, x: real, y: real)
    requires Fits(shape, rowSizes, colSizes)
  {
    exists row: nat, col: nat :: row < shape.rows && col < shape.cols &&
      Contains(CellRect(shape.cols, rowSizes, colSizes, row, col), x, y)
  }

  predicate Inside(r: Rect) {
    r.left + r.width <= 100.0 && r.top + r.height <= 100.0
  }

  ghost predicate NoGap(shape: GridShape, rowSizes: seq<real>, colSizes: seq<seq<real>>)
    requires Fits(shape, rowSizes, colSizes)
  {
    forall x: real, y: real {:trigger Covered(shape, rowSizes, colSizes, x, y)} ::
      0.0 <= x < 100.0 && 0.0 <= y < 100.0 ==> Covered(shape, rowSizes, colSizes, x, y)
  }

  ghost predicate NoOverhang(shape: GridShape, rowSizes: seq<real>, colSizes: seq<seq<real>>)
    requires Fits(shape, rowSizes, colSizes)
  {
    forall row: nat, col: nat {:trigger CellRect(shape.cols, rowSizes, colSizes, row, col)} ::
      row < shape.rows && col < shape.cols ==> Inside(CellRect(shape.cols, rowSizes, colSizes, row, col))
  }

  lemma CoverPoint(shape: GridShape, rowSizes: seq<real>, colSizes: seq<seq<real>>, x: real, y: real)
    requires Fits(shape, rowSizes, colSizes) && Sum(rowSizes) == 1.0
    requires forall r :: 0 <= r < shape.rows ==> Sum(colSizes[r]) == 1.0
    requires 0.0 <= x < 100.0 && 0.0 <= y < 100.0
    ensures Covered(shape, rowSizes, colSizes, x, y)
  {
    var row := TrackAt(rowSizes, y / 100.0);
    var col := TrackAt(colSizes[row], x / 100.0);
    RectEdges(shape, rowSizes, colSizes, row, col);
    assert Contains(CellRect(shape.cols, rowSizes, colSizes, row, col), x, y);
  }

  lemma StaysInside(shape: GridShape, rowSizes: seq<real>, colSizes: seq<seq<real>>, row: nat, col: nat)
    requires Fits(shape, rowSizes, colSizes) && Sum(rowSizes) == 1.0
    requires forall r :: 0 <= r < shape.rows ==> Sum(colSizes[r]) == 1.0
    requires row < shape.rows && col < shape.cols
    ensures Inside(CellRect(shape.cols, rowSizes, colSizes, row, col))
  {
    RectEdges(shape, rowSizes, colSizes, row, col);
    PrefixMonotone(rowSizes, row + 1, |rowSizes|);
    PrefixMonotone(colSizes[row], col + 1, |colSizes[row]|);
    assert rowSizes[..|rowSizes|] == rowSizes && colSizes[row][..|colSizes[row]|] == colSizes[row];
  }

  /** No cell reaches the left edge just below the last row. */
  lemma BelowLastRow(shape: GridShape, rowSizes: seq<real>, colSizes: seq<seq<real>>)
    requires Fits(shape, rowSizes, colSizes)
    ensures !Covered(shape, rowSizes, colSizes, 0.0, Sum(rowSizes) * 100.0)
  {
    forall row: nat, col: nat | row < shape.rows && col < shape.cols
      ensures !Contains(CellRect(shape.cols, rowSizes, colSizes, row, col), 0.0, Sum(rowSizes) * 100.0)
    {
      RectEdges(shape, rowSizes, colSizes, row, col);
      PrefixMonotone(rowSizes, row + 1, |rowSizes|);
      assert rowSizes[..|rowSizes|] == rowSizes;
    }
  }

  /** The last row neither leaves a gap below it nor sticks out. */
  lemma RowsFill(shape: GridShape, rowSizes: seq<real>, colSizes: seq<seq<real>>)
    requires Fits(shape, rowSizes, colSizes)
    requires NoGap(shape, rowSizes, colSizes) && NoOverhang(shape, rowSizes, colSizes)
    ensures Sum(rowSizes) == 1.0
  {
    var last := shape.rows - 1;
    RectEdges(shape, rowSizes, colSizes, last, 0);
    assert Inside(CellRect(shape.cols, rowSizes, colSizes, last, 0));
    assert rowSizes[..last + 1] == rowSizes;
    PrefixMonotone(rowSizes, 0, last + 1);
    BelowLastRow(shape, rowSizes, colSizes);
  }

  /** No cell reaches the point at the top right corner of a row's last cell. */
  lemma RightOfRow(shape: GridShape, rowSizes: seq<real>, colSizes: seq<seq<real>>, row: nat)
    requires Fits(shape, rowSizes, colSizes) && row < shape.rows
    ensures !Covered(shape, rowSizes, colSizes, Sum(colSizes[row]) * 100.0, Sum(rowSizes[..row]) * 100.0)
  {
    var widths := colSizes[row];
    var x, y := Sum(widths) * 100.0, Sum(rowSizes[..row]) * 100.0;
    forall row': nat, col: nat | row' < shape.rows && col < shape.cols
      ensures !Contains(CellRect(shape.cols, rowSizes, colSizes, row', col), x, y)
    {
      RectEdges(shape, rowSizes, colSizes, row', col);
      PrefixStep(rowSizes, row);
      if Contains(CellRect(shape.cols, rowSizes, colSizes, row', col), x, y) {
        TrackUnique(rowSizes, row', row, y / 100.0);
      }
      PrefixMonotone(widths, col + 1, |widths|);
      assert widths[..|widths|] == widths;
    }
  }

  lemma ColsFill(shape: GridShape, rowSizes: seq<real>, colSizes: seq<seq<real>>, row: nat)
    requires Fits(shape, rowSizes, colSizes) && row < shape.rows
    requires NoGap(shape, rowSizes, colSizes) && NoOverhang(shape, rowSizes, colSizes)
    ensures Sum(colSizes[row]) == 1.0
  {
    RowsFill(shape, rowSizes, colSizes);
    var widths, last := colSizes[row], shape.cols - 1;
    RectEdges(shape, rowSizes, colSizes, row, last);
    assert Inside(CellRect(shape.cols, rowSizes, colSizes, row, last));
    assert widths[..last + 1] == widths;
    PrefixMonotone(widths, 0, last + 1);
    PrefixMonotone(rowSizes, 0, row);
    PrefixMonotone(rowSizes, row, |rowSizes|);
    assert rowSizes[..|rowSizes|] == rowSizes;
    PrefixStep(rowSizes, row);
    RightOfRow(shape, rowSizes, colSizes, row);
  }

  /** The tiles of a canonical layout fill the container, no more and no less, exactly
      when its row heights and every row's widths sum to one. */
  lemma TilesFillIff(shape: GridShape, rowSizes: seq<real>, colSizes: seq<seq<real>>)
    requires Fits(shape, rowSizes, colSizes)
    ensures NoGap(shape, rowSizes, colSizes) && NoOverhang(shape, rowSizes, colSizes)
       <==> Sum(rowSizes) == 1.0 && (forall r :: 0 <= r < shape.rows ==> Sum(colSizes[r]) == 1.0)
  {
    if NoGap(shape, rowSizes, colSizes) && NoOverhang(shape, rowSizes, colSizes) {
      RowsFill(shape, rowSizes, colSizes);
      forall r | 0 <= r < shape.rows
        ensures Sum(colSizes[r]) == 1.0
      {
        ColsFill(shape, rowSizes, colSizes, r);
      }
    } else if Sum(rowSizes) == 1.0 && forall r :: 0 <= r < shape.rows ==> Sum(colSizes[r]) == 1.0 {
      forall x: real, y: real | 0.0 <= x < 100.0 && 0.0 <= y < 100.0
        ensures Covered(shape, rowSizes, colSizes, x, y)
      {
        CoverPoint(shape, rowSizes, colSizes, x, y);
      }
      forall row: nat, col: nat | row < shape.rows && col < shape.cols
        ensures Inside(CellRect(shape.cols, rowSizes, colSizes, row, col))
      {
        StaysInside(shape, rowSizes, colSizes, row, col);
      }
    }
  }
}

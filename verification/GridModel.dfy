/** The layout of the grid and its edits. A canonical layout has its occupied tiles
    packed to the front, just enough rows to hold them, and sizes that fit. */
module GridModel {
  import opened Options
  import opened Sizes
  import opened Text

  datatype Tile = Tile(serverId: string, sessionId: nat)
  type Slot = Option<Tile>
  datatype Layout = Layout(
    shape: GridShape, tiles: seq<Slot>, rowSizes: Option<seq<real>>, colSizes: Option<seq<seq<real>>>)

  const MIN_COLS := 1
  const MAX_COLS := 4

  function ClampCols(cols: real): int {
    if cols.Floor < MIN_COLS then MIN_COLS else if cols.Floor > MAX_COLS then MAX_COLS else cols.Floor
  }

  function Occupied(tiles: seq<Slot>): seq<Tile> {
    if tiles == [] then []
    else
      var last := tiles[|tiles| - 1];
      Occupied(tiles[..|tiles| - 1]) + if last.Some? then [last.value] else []
  }

  function RowsFor(count: nat, cols: int): int
    requires cols >= 1
  {
    if count <= cols then 1 else (count + cols - 1) / cols
  }

  function Slots(occupied: seq<Tile>): (s: seq<Slot>)
    ensures |s| == |occupied| && forall i :: 0 <= i < |s| ==> s[i] == Some(occupied[i])
  {
    seq(|occupied|, i requires 0 <= i < |occupied| => Some(occupied[i]))
  }

  function Pad(s: seq<Slot>, n: int): seq<Slot> {
    if |s| >= n then s else s + seq(n - |s|, _ => None)
  }

  function Pack(occupied: seq<Tile>, c: int, rowSizes: Option<seq<real>>, colSizes: Option<seq<seq<real>>>): Layout
    requires c >= 1
  {
    var shape := GridShape(RowsFor(|occupied|, c), c);
    assert shape.rows >= 0;
    Layout(shape, Pad(Slots(occupied), shape.rows * c),
           Some(FitRows(shape, rowSizes)), Some(FitCols(shape, colSizes)))
  }

  function Normalize(tiles: seq<Slot>, cols: real, rowSizes: Option<seq<real>>,
                     colSizes: Option<seq<seq<real>>>): Layout
  {
    Pack(Occupied(tiles), ClampCols(cols), rowSizes, colSizes)
  }

  function EmptyLayout(): Layout {
    Normalize([], 2.0, None, None)
  }

  function Renormalize(l: Layout): Layout {
    Normalize(l.tiles, l.shape.cols as real, l.rowSizes, l.colSizes)
  }

  predicate Canonical(l: Layout) {
    l == Renormalize(l)
  }

  // ----------------------------------------------------- packing, step by step

  lemma {:induction false} OccupiedConcat(a: seq<Slot>, b: seq<Slot>)
    ensures Occupied(a + b) == Occupied(a) + Occupied(b)
  {
    if b == [] {
      assert a + b == a;
    } else {
      assert (a + b)[..|a + b| - 1] == a + b[..|b| - 1];
      OccupiedConcat(a, b[..|b| - 1]);
    }
  }

  lemma {:induction false} OccupiedSlots(occupied: seq<Tile>)
    ensures Occupied(Slots(occupied)) == occupied
  {
    if occupied != [] {
      var n := |occupied| - 1;
      assert Slots(occupied)[..n] == Slots(occupied[..n]);
      OccupiedSlots(occupied[..n]);
      assert occupied == occupied[..n] + [occupied[n]];
    }
  }

  lemma {:induction false} OccupiedBlank(n: nat)
    ensures Occupied(seq(n, _ => None)) == []
  {
    var blank: seq<Slot> := seq(n, _ => None);
    if n > 0 {
      assert blank[..n - 1] == seq(n - 1, _ => None);
      OccupiedBlank(n - 1);
    }
  }

  /** Packing keeps the occupied tiles in their order and drops none. */
  lemma PackKeepsTiles(occupied: seq<Tile>, c: int, rs: Option<seq<real>>, cs: Option<seq<seq<real>>>)
    requires c >= 1
    ensures Occupied(Pack(occupied, c, rs, cs).tiles) == occupied
  {
    var l := Pack(occupied, c, rs, cs);
    OccupiedSlots(occupied);
    if |occupied| < l.shape.rows * c {
      var blank: seq<Slot> := seq(l.shape.rows * c - |occupied|, _ => None);
      OccupiedConcat(Slots(occupied), blank);
      OccupiedBlank(|blank|);
    }
  }

  lemma RowsHold(count: nat, c: int)
    requires 1 <= c <= 4
    ensures RowsFor(count, c) >= 1 && count <= RowsFor(count, c) * c < count + c + c
    ensures forall more: nat :: count <= more ==> RowsFor(count, c) <= RowsFor(more, c)
  {
  }

  lemma PackIsCanonical(occupied: seq<Tile>, c: int, rs: Option<seq<real>>, cs: Option<seq<seq<real>>>)
    requires 1 <= c <= 4
    ensures Canonical(Pack(occupied, c, rs, cs))
  {
    var l := Pack(occupied, c, rs, cs);
    PackKeepsTiles(occupied, c, rs, cs);
    RowsHold(|occupied|, c);
    FitIsUsable(rs, l.shape.rows);
    assert (c as real).Floor == c;
    forall r | 0 <= r < l.shape.rows
      ensures Fit(At(l.colSizes, r), c) == l.colSizes.value[r]
    {
      FitIsUsable(At(cs, r), c);
    }
    assert FitCols(l.shape, l.colSizes) == l.colSizes.value;
  }

  /** normalize is idempotent: what it returns, loads back as it was saved. */
  lemma NormalizeIsCanonical(tiles: seq<Slot>, cols: real, rs: Option<seq<real>>, cs: Option<seq<seq<real>>>)
    ensures Canonical(Normalize(tiles, cols, rs, cs))
  {
    PackIsCanonical(Occupied(tiles), ClampCols(cols), rs, cs);
  }

  /** What canonical means, slot by slot. */
  lemma CanonicalForm(l: Layout)
    requires Canonical(l)
    ensures
      var n := |Occupied(l.tiles)|;
      && 1 <= l.shape.cols <= 4 && l.shape.rows == RowsFor(n, l.shape.cols)
      && n <= |l.tiles| == l.shape.rows * l.shape.cols
      && (forall i :: 0 <= i < |l.tiles| ==> (l.tiles[i].Some? <==> i < n))
      && (forall i :: 0 <= i < n ==> l.tiles[i] == Some(Occupied(l.tiles)[i]))
      && l.rowSizes.Some? && l.colSizes.Some?
      && Fits(l.shape, l.rowSizes.value, l.colSizes.value)
  {
    var c, n := l.shape.cols, |Occupied(l.tiles)|;
    assert (c as real).Floor == c;
    RowsHold(n, c);
    FitIsUsable(l.rowSizes, l.shape.rows);
    forall r | 0 <= r < l.shape.rows
      ensures Usable(Some(l.colSizes.value[r]), c)
    {
      FitIsUsable(At(l.colSizes, r), c);
    }
  }

  // ------------------------------------------------------------------- edits

  function SetCols(l: Layout, cols: real): Layout {
    Normalize(l.tiles, cols, l.rowSizes, l.colSizes)
  }

  function MinInt(a: int, b: int): int { if a <= b then a else b }

  function PackAfterRemoval(l: Layout, tiles: seq<Slot>): Layout {
    var count := |Occupied(tiles)|;
    Normalize(tiles, MinInt(l.shape.cols, AtLeastOne(count)) as real, l.rowSizes, l.colSizes)
  }

  /** Blanking a slot that does not exist blanks nothing. */
  function RemoveTile(l: Layout, index: int): Layout {
    PackAfterRemoval(l, if 0 <= index < |l.tiles| then l.tiles[index := None] else l.tiles)
  }

  function Dropped(tiles: seq<Slot>, drop: Tile -> bool): seq<Slot> {
    seq(|tiles|, i requires 0 <= i < |tiles| =>
      if tiles[i].Some? && drop(tiles[i].value) then None else tiles[i])
  }

  function RemoveTilesWhere(l: Layout, drop: Tile -> bool): Layout {
    var tiles := Dropped(l.tiles, drop);
    if tiles == l.tiles then l else PackAfterRemoval(l, tiles)
  }

  function AddTile(l: Layout, tile: Tile): Layout {
    var cols := if |Occupied(l.tiles)| == 1 && l.shape.cols == 1 then 2 else l.shape.cols;
    Normalize(l.tiles + [Some(tile)], cols as real, l.rowSizes, l.colSizes)
  }

  function SwapTiles(l: Layout, a: nat, b: nat): Layout
    requires a < |l.tiles| && b < |l.tiles|
  {
    Normalize(l.tiles[a := l.tiles[b]][b := l.tiles[a]], l.shape.cols as real, l.rowSizes, l.colSizes)
  }

  function SetRowSizes(l: Layout, rowSizes: seq<real>): Layout {
    Normalize(l.tiles, l.shape.cols as real, Some(rowSizes), l.colSizes)
  }

  function GrowCols(cols: seq<seq<real>>, shape: GridShape): seq<seq<real>> {
    if |cols| >= shape.rows then cols else cols + seq(shape.rows - |cols|, _ => EqualSizes(shape.cols))
  }

  function SetColSizes(l: Layout, row: nat, sizes: seq<real>): Layout
    requires row < l.shape.rows
  {
    var stored := if l.colSizes.Some? then l.colSizes.value else [];
    Normalize(l.tiles, l.shape.cols as real, l.rowSizes, Some(GrowCols(stored, l.shape)[row := sizes]))
  }

  function AdoptSizes(l: Layout, rowSizes: Option<seq<real>>, colSizes: Option<seq<seq<real>>>): Layout {
    var rs := if rowSizes.Some? && |rowSizes.value| == l.shape.rows then rowSizes else l.rowSizes;
    var cs := if colSizes.Some? && |colSizes.value| == l.shape.rows then colSizes else l.colSizes;
    Normalize(l.tiles, l.shape.cols as real, rs, cs)
  }

  // -------------------------------------------- batch removal and one by one

  /** The layout left when the occupied tiles of canonical l shrink to `rest`. */
  function Shrunk(l: Layout, rest: seq<Tile>): Layout
    requires l.shape.cols >= 1
  {
    Pack(rest, MinInt(l.shape.cols, AtLeastOne(|rest|)), l.rowSizes, l.colSizes)
  }

  lemma PackAfterRemovalIsShrunk(l: Layout, tiles: seq<Slot>)
    requires 1 <= l.shape.cols <= 4
    ensures PackAfterRemoval(l, tiles) == Shrunk(l, Occupied(tiles))
  {
  }

  /** Shrinking in two steps forgets nothing and keeps nothing that shrinking at once
      does not: shape, row heights and every row's widths come out the same. */
  lemma ShrinkTwice(l: Layout, mid: seq<Tile>, rest: seq<Tile>)
    requires Canonical(l) && |rest| <= |mid| <= |Occupied(l.tiles)|
    ensures 1 <= Shrunk(l, mid).shape.cols <= 4
    ensures Shrunk(Shrunk(l, mid), rest) == Shrunk(l, rest)
  {
    CanonicalForm(l);
    var m, once, twice := Shrunk(l, mid), Shrunk(l, rest), Shrunk(Shrunk(l, mid), rest);
    var n := |Occupied(l.tiles)|;
    assert once.shape.cols == twice.shape.cols;
    assert once.shape == twice.shape && once.tiles == twice.tiles;
    RowsHold(|mid|, l.shape.cols);
    RowsHold(|rest|, l.shape.cols);
    assert once.shape.rows <= m.shape.rows <= l.shape.rows;
    assert once.rowSizes == twice.rowSizes;
    forall r | 0 <= r < once.shape.rows
      ensures once.colSizes.value[r] == twice.colSizes.value[r]
    {
      assert At(m.colSizes, r) == Some(Fit(At(l.colSizes, r), m.shape.cols));
      assert |l.colSizes.value[r]| == l.shape.cols;
    }
    assert once.colSizes.value == twice.colSizes.value;
  }

  function Kept(occupied: seq<Tile>, drop: Tile -> bool): seq<Tile> {
    if occupied == [] then []
    else
      var last := occupied[|occupied| - 1];
      Kept(occupied[..|occupied| - 1], drop) + if drop(last) then [] else [last]
  }

  function Without<T>(s: seq<T>, i: nat): seq<T>
    requires i < |s|
  {
    s[..i] + s[i + 1..]
  }

  lemma {:induction false} KeptWithout(occupied: seq<Tile>, i: nat, drop: Tile -> bool)
    requires i < |occupied| && drop(occupied[i])
    ensures Kept(Without(occupied, i), drop) == Kept(occupied, drop)
  {
    var n := |occupied| - 1;
    if i == n {
      assert Without(occupied, i) == occupied[..n];
    } else {
      assert Without(occupied, i)[..n - 1] == Without(occupied[..n], i);
      assert Without(occupied, i)[n - 1] == occupied[n];
      KeptWithout(occupied[..n], i, drop);
    }
  }

  lemma {:induction false} KeptAll(occupied: seq<Tile>, drop: Tile -> bool)
    requires forall t :: t in occupied ==> !drop(t)
    ensures Kept(occupied, drop) == occupied
  {
    if occupied != [] {
      var init, last := occupied[..|occupied| - 1], occupied[|occupied| - 1];
      KeptAll(init, drop);
      assert init + [last] == occupied;
    }
  }

  lemma {:induction false} OccupiedDropped(tiles: seq<Slot>, drop: Tile -> bool)
    ensures Occupied(Dropped(tiles, drop)) == Kept(Occupied(tiles), drop)
  {
    if tiles != [] {
      var n := |tiles| - 1;
      assert Dropped(tiles, drop)[..n] == Dropped(tiles[..n], drop);
      OccupiedDropped(tiles[..n], drop);
      assert Dropped(tiles, drop)[n] == if tiles[n].Some? && drop(tiles[n].value) then None else tiles[n];
      if tiles[n].Some? {
        assert Occupied(tiles)[..|Occupied(tiles)| - 1] == Occupied(tiles[..n]);
      } else {
        assert Occupied(tiles) == Occupied(tiles[..n]);
      }
    }
  }

  lemma {:induction false} OccupiedBlanked(tiles: seq<Slot>, i: nat)
    requires i < |tiles| && (forall j :: 0 <= j <= i ==> tiles[j].Some?)
    ensures i < |Occupied(tiles)| && Occupied(tiles)[i] == tiles[i].value
    ensures Occupied(tiles[i := None]) == Without(Occupied(tiles), i)
  {
    var n := |tiles| - 1;
    if i == n {
      AllOccupied(tiles);
      AllOccupied(tiles[..n]);
      assert tiles[i := None][..n] == tiles[..n];
      assert Occupied(tiles) == Occupied(tiles[..n]) + [tiles[n].value];
    } else {
      assert tiles[i := None][..n] == tiles[..n][i := None];
      OccupiedBlanked(tiles[..n], i);
    }
  }

  lemma {:induction false} AllOccupied(tiles: seq<Slot>)
    requires forall j :: 0 <= j < |tiles| ==> tiles[j].Some?
    ensures |Occupied(tiles)| == |tiles|
  {
    if tiles != [] {
      AllOccupied(tiles[..|tiles| - 1]);
    }
  }

  /** Removing an occupied slot of a canonical layout takes that tile out and leaves
      the others in order. */
  lemma RemoveTileTakesOne(l: Layout, i: nat)
    requires Canonical(l) && i < |l.tiles| && l.tiles[i].Some?
    ensures i < |Occupied(l.tiles)| && Occupied(l.tiles)[i] == l.tiles[i].value
    ensures Canonical(RemoveTile(l, i))
    ensures RemoveTile(l, i) == Shrunk(l, Without(Occupied(l.tiles), i))
    ensures Occupied(RemoveTile(l, i).tiles) == Without(Occupied(l.tiles), i)
  {
    CanonicalForm(l);
    OccupiedBlanked(l.tiles, i);
    PackAfterRemovalIsShrunk(l, l.tiles[i := None]);
    var rest := Without(Occupied(l.tiles), i);
    var c := MinInt(l.shape.cols, AtLeastOne(|rest|));
    PackKeepsTiles(rest, c, l.rowSizes, l.colSizes);
    PackIsCanonical(rest, c, l.rowSizes, l.colSizes);
  }

  /** Removing slots one at a time, each index found in the layout of that moment. */
  function RemoveEach(l: Layout, picks: seq<int>): Layout
    decreases |picks|
  {
    if picks == [] then l else RemoveEach(RemoveTile(l, picks[0]), picks[1..])
  }

  /** The picks hit only tiles to drop, and leave none behind. */
  ghost predicate PicksAll(l: Layout, picks: seq<int>, drop: Tile -> bool)
    decreases |picks|
  {
    if picks == [] then forall t :: t in Occupied(l.tiles) ==> !drop(t)
    else
      && 0 <= picks[0] < |l.tiles|
      && l.tiles[picks[0]].Some? && drop(l.tiles[picks[0]].value)
      && PicksAll(RemoveTile(l, picks[0]), picks[1..], drop)
  }

  lemma {:induction false} RemoveEachIsShrunk(l: Layout, picks: seq<int>, drop: Tile -> bool)
    requires Canonical(l) && PicksAll(l, picks, drop) && picks != []
    ensures 1 <= l.shape.cols <= 4
    ensures |Kept(Occupied(l.tiles), drop)| <= |Occupied(l.tiles)|
    ensures RemoveEach(l, picks) == Shrunk(l, Kept(Occupied(l.tiles), drop))
    decreases |picks|
  {
    CanonicalForm(l);
    RemoveTileTakesOne(l, picks[0]);
    var next, rest := RemoveTile(l, picks[0]), Kept(Occupied(l.tiles), drop);
    KeptWithout(Occupied(l.tiles), picks[0], drop);
    if |picks| == 1 {
      KeptAll(Occupied(next.tiles), drop);
    } else {
      RemoveEachIsShrunk(next, picks[1..], drop);
      ShrinkTwice(l, Without(Occupied(l.tiles), picks[0]), rest);
    }
  }

  /** Closing a directory in one write is the same as removing its tiles one at a
      time, in any order and re-finding each: tiles, shape and all sizes agree. */
  lemma BatchRemovalIsOneByOne(l: Layout, picks: seq<int>, drop: Tile -> bool)
    requires Canonical(l) && PicksAll(l, picks, drop)
    ensures RemoveTilesWhere(l, drop) == RemoveEach(l, picks)
  {
    var tiles := Dropped(l.tiles, drop);
    CanonicalForm(l);
    OccupiedDropped(l.tiles, drop);
    if picks == [] {
      forall i | 0 <= i < |tiles|
        ensures tiles[i] == l.tiles[i]
      {
        if l.tiles[i].Some? {
          assert l.tiles[i].value == Occupied(l.tiles)[i];
        }
      }
      assert tiles == l.tiles;
    } else {
      assert tiles[picks[0]] != l.tiles[picks[0]];
      RemoveEachIsShrunk(l, picks, drop);
      PackAfterRemovalIsShrunk(l, tiles);
    }
  }

  // ------------------------------------------------------------- size edits

  /** A row divider's drag is stored as dragged, and moves nothing else. */
  lemma RowDragIsKept(l: Layout, boundary: nat, delta: real, min: real, snap: real)
    requires Canonical(l) && min > 0.0
    ensures l.rowSizes.Some?
    ensures boundary + 1 < |l.rowSizes.value| ==>
      var dragged := ResizeTracks(l.rowSizes.value, boundary, delta, min, snap);
      SetRowSizes(l, dragged) == l.(rowSizes := Some(dragged))
  {
    CanonicalForm(l);
    if boundary + 1 < |l.rowSizes.value| {
      DragIsUsableIff(l.rowSizes.value, boundary, min);
      var dragged := ResizeTracks(l.rowSizes.value, boundary, delta, min, snap);
      assert Usable(Some(dragged), l.shape.rows);
    }
  }

  /** A column divider's drag changes the widths of its own row only. */
  lemma ColDragIsKept(l: Layout, row: nat, boundary: nat, delta: real, min: real, snap: real)
    requires Canonical(l) && row < l.shape.rows && min > 0.0 && boundary + 1 < l.shape.cols
    ensures l.colSizes.Some? && |l.colSizes.value| == l.shape.rows
    ensures
      var dragged := ResizeTracks(l.colSizes.value[row], boundary, delta, min, snap);
      SetColSizes(l, row, dragged) == l.(colSizes := Some(l.colSizes.value[row := dragged]))
  {
    CanonicalForm(l);
    var widths := l.colSizes.value[row];
    assert Usable(Some(widths), l.shape.cols);
    DragIsUsableIff(widths, boundary, min);
    var dragged := ResizeTracks(widths, boundary, delta, min, snap);
    assert Usable(Some(dragged), l.shape.cols);
    var l' := SetColSizes(l, row, dragged);
    forall r | 0 <= r < l.shape.rows
      ensures l'.colSizes.value[r] == l.colSizes.value[row := dragged][r]
    {
      assert Usable(Some(l.colSizes.value[r]), l.shape.cols);
    }
    assert l'.colSizes.value == l.colSizes.value[row := dragged];
  }

  /** Taking the sizes of a canonical view onto a layout: exactly what changes. A view
      with another row count changes nothing; one with the same rows but another
      column count replaces the heights and resets every width. */
  lemma AdoptSizesExactly(l: Layout, view: Layout)
    requires Canonical(l) && Canonical(view)
    ensures AdoptSizes(l, view.rowSizes, view.colSizes) ==
      if view.shape.rows != l.shape.rows then l
      else if view.shape.cols == l.shape.cols then l.(rowSizes := view.rowSizes, colSizes := view.colSizes)
      else l.(rowSizes := view.rowSizes,
              colSizes := Some(seq(AtLeastOne(l.shape.rows), _ => EqualSizes(l.shape.cols))))
  {
    CanonicalForm(l);
    CanonicalForm(view);
    var l' := AdoptSizes(l, view.rowSizes, view.colSizes);
    if view.shape.rows == l.shape.rows {
      forall r | 0 <= r < l.shape.rows
        ensures l'.colSizes.value[r]
             == if view.shape.cols == l.shape.cols then view.colSizes.value[r] else EqualSizes(l.shape.cols)
      {
        assert Usable(Some(view.colSizes.value[r]), view.shape.cols);
      }
      if view.shape.cols == l.shape.cols {
        assert l'.colSizes.value == view.colSizes.value;
      } else {
        assert l'.colSizes.value == seq(AtLeastOne(l.shape.rows), _ => EqualSizes(l.shape.cols));
      }
    }
  }

  /** Exactly when a size edit made on a differently shaped view changes nothing: another
      row count, or nothing to take and widths that were equal already. */
  lemma AdoptChangesNothingIff(l: Layout, view: Layout)
    requires Canonical(l) && Canonical(view) && view.shape != l.shape
    ensures AdoptSizes(l, view.rowSizes, view.colSizes) == l
       <==> || view.shape.rows != l.shape.rows
            || (view.rowSizes == l.rowSizes
                && l.colSizes == Some(seq(AtLeastOne(l.shape.rows), _ => EqualSizes(l.shape.cols))))
  {
    AdoptSizesExactly(l, view);
  }

  lemma DraggedPairIsUsable()
    ensures Usable(Some([0.7, 0.3]), 2)
  {
    var dragged := [0.7, 0.3];
    assert dragged[..1] == [0.7] && Sum([0.7]) == 0.7 && Sum(dragged) == 1.0;
  }

  lemma DraggedRow(a: Tile, b: Tile) returns (l: Layout)
    ensures Canonical(l) && l.shape == GridShape(1, 2) && l.colSizes == Some([[0.7, 0.3]])
  {
    var cs := Some([[0.7, 0.3]]);
    DraggedPairIsUsable();
    PackIsCanonical([a, b], 2, None, cs);
    l := Pack([a, b], 2, None, cs);
    assert FitCols(GridShape(1, 2), cs) == [[0.7, 0.3]];
  }

  /** A row of two dragged to 7:3 loses its widths to a view of one column. */
  lemma AdoptResetsDraggedWidths(a: Tile, b: Tile) returns (l: Layout, view: Layout)
    ensures Canonical(l) && Canonical(view) && view.shape != l.shape
    ensures l.colSizes == Some([[0.7, 0.3]])
    ensures AdoptSizes(l, view.rowSizes, view.colSizes).colSizes == Some([[0.5, 0.5]])
  {
    l := DraggedRow(a, b);
    PackIsCanonical([a], 1, None, None);
    view := Pack([a], 1, None, None);
    AdoptSizesExactly(l, view);
    var widths := AdoptSizes(l, view.rowSizes, view.colSizes).colSizes.value;
    assert |widths| == 1 && widths[0] == EqualSizes(2) == [0.5, 0.5];
    assert widths == [[0.5, 0.5]];
  }

  /** Changing the column count and back keeps every tile in its slot and the shape; only
      widths, and the heights when the rows changed, may be reset. */
  lemma ColumnsThereAndBack(l: Layout, cols: real)
    requires Canonical(l)
    ensures
      var back := SetCols(SetCols(l, cols), l.shape.cols as real);
      Canonical(back) && back.tiles == l.tiles && back.shape == l.shape
  {
    var there := SetCols(l, cols);
    PackKeepsTiles(Occupied(l.tiles), ClampCols(cols), l.rowSizes, l.colSizes);
    NormalizeIsCanonical(there.tiles, l.shape.cols as real, there.rowSizes, there.colSizes);
    assert Occupied(there.tiles) == Occupied(l.tiles);
  }

  /** Adding a tile appends it. */
  lemma AddAppends(l: Layout, t: Tile)
    requires Canonical(l)
    ensures Canonical(AddTile(l, t)) && Occupied(AddTile(l, t).tiles) == Occupied(l.tiles) + [t]
    ensures AddTile(l, t).shape.cols == if |Occupied(l.tiles)| == l.shape.cols == 1 then 2 else l.shape.cols
  {
    CanonicalForm(l);
    var more := AddTile(l, t);
    OccupiedConcat(l.tiles, [Some(t)]);
    assert Occupied([Some(t)]) == [t];
    NormalizeIsCanonical(l.tiles + [Some(t)], more.shape.cols as real, l.rowSizes, l.colSizes);
    PackKeepsTiles(Occupied(l.tiles) + [t], more.shape.cols, l.rowSizes, l.colSizes);
  }

  /** Taking it off again leaves the tiles as they were, and the shape exactly when the
      grid had no empty column to lose: a lone row with a free column comes back
      narrower. */
  lemma AddThenRemove(l: Layout, t: Tile)
    requires Canonical(l)
    ensures
      var n := |Occupied(l.tiles)|;
      && Occupied(RemoveTile(AddTile(l, t), n).tiles) == Occupied(l.tiles)
      && (RemoveTile(AddTile(l, t), n).shape == l.shape <==> n >= l.shape.cols || l.shape.cols == 1)
  {
    CanonicalForm(l);
    var n, more := |Occupied(l.tiles)|, AddTile(l, t);
    AddAppends(l, t);
    CanonicalForm(more);
    RowsHold(n + 1, more.shape.cols);
    RemoveTileTakesOne(more, n);
    assert Without(Occupied(l.tiles) + [t], n) == Occupied(l.tiles);
    assert RemoveTile(more, n).shape.cols == MinInt(more.shape.cols, AtLeastOne(n));
  }

  /** Swapping two slots of a canonical layout keeps shape and sizes. Two tiles trade
      places and two empty slots stay as they are; a tile dropped on an empty slot goes
      behind the others, which keep their order. */
  lemma SwapIsExact(l: Layout, a: nat, b: nat)
    requires Canonical(l) && a < |l.tiles| && b < |l.tiles|
    ensures SwapTiles(l, a, b) == l.(tiles := SwapTiles(l, a, b).tiles)
    ensures l.tiles[a].Some? == l.tiles[b].Some? ==>
      SwapTiles(l, a, b).tiles == l.tiles[a := l.tiles[b]][b := l.tiles[a]]
    ensures l.tiles[a].Some? != l.tiles[b].Some? ==>
      var moved, occupied := if l.tiles[a].Some? then a else b, Occupied(l.tiles);
      && moved < |occupied|
      && Occupied(SwapTiles(l, a, b).tiles) == Without(occupied, moved) + [occupied[moved]]
  {
    CanonicalForm(l);
    if l.tiles[a].Some? == l.tiles[b].Some? {
      SwapAlike(l, a, b);
    } else if l.tiles[a].Some? {
      SwapToEmpty(l, a, b);
    } else {
      SwapToEmpty(l, b, a);
      assert l.tiles[a := l.tiles[b]][b := l.tiles[a]] == l.tiles[b := l.tiles[a]][a := l.tiles[b]];
    }
  }

  lemma SwapAlike(l: Layout, a: nat, b: nat)
    requires Canonical(l) && a < |l.tiles| && b < |l.tiles| && l.tiles[a].Some? == l.tiles[b].Some?
    ensures SwapTiles(l, a, b) == l.(tiles := l.tiles[a := l.tiles[b]][b := l.tiles[a]])
  {
    CanonicalForm(l);
    var n := |Occupied(l.tiles)|;
    var swapped := l.tiles[a := l.tiles[b]][b := l.tiles[a]];
    FrontPacked(swapped, n);
    assert SwapTiles(l, a, b).tiles == swapped;
    assert l == Renormalize(l);
  }

  /** Shape and sizes depend on the number of tiles only. */
  lemma PackSameCount(a: seq<Tile>, b: seq<Tile>, c: int, rs: Option<seq<real>>, cs: Option<seq<seq<real>>>)
    requires c >= 1 && |a| == |b|
    ensures Pack(b, c, rs, cs) == Pack(a, c, rs, cs).(tiles := Pack(b, c, rs, cs).tiles)
  {
  }

  lemma OccupiedMoved(tiles: seq<Slot>, a: nat, b: nat)
    requires a < |tiles| && b < |tiles| && tiles[a].Some? && tiles[b].None?
    requires forall i :: 0 <= i < |tiles| ==> (tiles[i].Some? <==> i < |Occupied(tiles)|)
    ensures
      var occupied := Occupied(tiles);
      a < |occupied| && Occupied(tiles[a := tiles[b]][b := tiles[a]]) == Without(occupied, a) + [occupied[a]]
  {
    OccupiedBlanked(tiles, a);
    OccupiedFilled(tiles[a := None], b, tiles[a].value);
  }

  lemma SwapToEmpty(l: Layout, a: nat, b: nat)
    requires Canonical(l) && a < |l.tiles| && b < |l.tiles| && l.tiles[a].Some? && l.tiles[b].None?
    ensures SwapTiles(l, a, b) == l.(tiles := SwapTiles(l, a, b).tiles)
    ensures a < |Occupied(l.tiles)|
    ensures Occupied(SwapTiles(l, a, b).tiles) == Without(Occupied(l.tiles), a) + [Occupied(l.tiles)[a]]
  {
    CanonicalForm(l);
    OccupiedMoved(l.tiles, a, b);
    var occupied, c := Occupied(l.tiles), l.shape.cols;
    var moved := Without(occupied, a) + [occupied[a]];
    assert (c as real).Floor == c;
    PackKeepsTiles(moved, c, l.rowSizes, l.colSizes);
    PackSameCount(occupied, moved, c, l.rowSizes, l.colSizes);
    assert l == Pack(occupied, c, l.rowSizes, l.colSizes);
  }

  /** A tile put in a slot behind all others comes last. */
  lemma OccupiedFilled(tiles: seq<Slot>, b: nat, t: Tile)
    requires b < |tiles| && forall i :: b <= i < |tiles| ==> tiles[i].None?
    ensures Occupied(tiles[b := Some(t)]) == Occupied(tiles) + [t]
  {
    var front, back := tiles[..b], tiles[b + 1..];
    OccupiedNone(back);
    OccupiedNone(tiles[b..]);
    OccupiedConcat(front, tiles[b..]);
    assert front + tiles[b..] == tiles;
    OccupiedConcat(front, [Some(t)]);
    OccupiedConcat(front + [Some(t)], back);
    assert tiles[b := Some(t)] == front + [Some(t)] + back;
    assert Occupied([Some(t)]) == [t];
  }

  lemma {:induction false} OccupiedNone(tiles: seq<Slot>)
    requires forall i :: 0 <= i < |tiles| ==> tiles[i].None?
    ensures Occupied(tiles) == []
  {
    if tiles != [] { OccupiedNone(tiles[..|tiles| - 1]); }
  }

  lemma {:induction false} FrontPacked(tiles: seq<Slot>, n: nat)
    requires n <= |tiles| && (forall i :: 0 <= i < |tiles| ==> (tiles[i].Some? <==> i < n))
    ensures |Occupied(tiles)| == n
    ensures forall i :: 0 <= i < n ==> tiles[i] == Some(Occupied(tiles)[i])
  {
    if tiles != [] {
      var m := |tiles| - 1;
      FrontPacked(tiles[..m], MinInt(n, m));
    }
  }

  // ------------------------------------------------------------ tile identity

  function TileKey(t: Tile): string {
    t.serverId + ":" + Digits(t.sessionId)
  }

  /** A key names one tile, even when server ids contain colons. */
  lemma KeyIdentifiesTile(a: Tile, b: Tile)
    ensures TileKey(a) == TileKey(b) <==> a == b
  {
    if TileKey(a) == TileKey(b) {
      var s, p, q := TileKey(a), |a.serverId|, |b.serverId|;
      assert s[p] == ':' && s[q] == ':';
      assert p == q;
      assert s[..p] == a.serverId && s[..q] == b.serverId;
      assert s[p + 1..] == Digits(a.sessionId) && s[q + 1..] == Digits(b.sessionId);
      DigitsInjective(a.sessionId, b.sessionId);
    }
  }

  // --------------------------------------------------------------- the loops

  /** normalize pads the last row slot by slot. */
  method NormalizeTiles(tiles: seq<Slot>, cols: real, rowSizes: Option<seq<real>>, colSizes: Option<seq<seq<real>>>)
    returns (l: Layout)
    ensures l == Normalize(tiles, cols, rowSizes, colSizes)
  {
    var c := ClampCols(cols);
    var occupied := Slots(Occupied(tiles));
    var shape := GridShape(RowsFor(|occupied|, c), c);
    var padded := occupied;
    while |padded| < shape.rows * c
      invariant |occupied| <= |padded| && (|padded| <= shape.rows * c || padded == occupied)
      invariant padded == Pad(occupied, |padded|)
    {
      padded := padded + [None];
    }
    assert shape.rows >= 0;
    l := Layout(shape, padded, Some(FitRows(shape, rowSizes)), Some(FitCols(shape, colSizes)));
  }

  /** setColSizes fills in the rows the stored widths do not reach. */
  method ReplaceColSizes(l: Layout, row: nat, sizes: seq<real>) returns (l': Layout)
    requires row < l.shape.rows
    ensures l' == SetColSizes(l, row, sizes)
  {
    var cols := if l.colSizes.Some? then l.colSizes.value else [];
    var stored := cols;
    while |cols| < l.shape.rows
      invariant |stored| <= |cols| && (|cols| <= l.shape.rows || cols == stored)
      invariant cols == GrowCols(stored, GridShape(|cols|, l.shape.cols))
    {
      cols := cols + [EqualSizes(l.shape.cols)];
    }
    cols := cols[row := sizes];
    l' := NormalizeTiles(l.tiles, l.shape.cols as real, l.rowSizes, Some(cols));
  }
}

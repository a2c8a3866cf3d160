/** What each edit of the grid leaves: how many columns and rows, which tiles, and which
    sizes survive. Told without the packing that computes it. */
module GridEdits {
  import opened Options
  import opened Sizes
  import opened GridModel

  /** Just enough rows of c columns for n tiles, and one row for none. */
  predicate JustEnough(rows: int, c: int, n: nat) {
    rows >= 1 && n <= rows * c && (rows > 1 ==> (rows - 1) * c < n)
  }

  lemma {:induction false} RowsAreJustEnough(n: nat, c: int)
    requires 1 <= c <= 4
    ensures JustEnough(RowsFor(n, c), c, n)
  {
    RowsHold(n, c);
  }

  predicate EqualRow(widths: seq<real>, c: int) {
    c >= 1 && |widths| == c && forall i :: 0 <= i < c ==> widths[i] == 1.0 / c as real
  }

  /** From l to l' the row heights stay if the number of rows did, a row's widths if the
      number of columns did; anything else is shared out equally. */
  predicate SizesSurvive(l: Layout, l': Layout) {
    && l.rowSizes.Some? && l.colSizes.Some? && l'.rowSizes.Some? && l'.colSizes.Some?
    && |l'.colSizes.value| == l'.shape.rows
    && (if l'.shape.rows == l.shape.rows then l'.rowSizes == l.rowSizes
        else EqualRow(l'.rowSizes.value, l'.shape.rows))
    && forall r :: 0 <= r < l'.shape.rows ==>
         if l'.shape.cols == l.shape.cols && r < |l.colSizes.value| then l'.colSizes.value[r] == l.colSizes.value[r]
         else EqualRow(l'.colSizes.value[r], l'.shape.cols)
  }

  /** l' is a canonical layout of these tiles and columns, sized after l. */
  ghost predicate Leaves(l: Layout, l': Layout, tiles: seq<Tile>, cols: int) {
    && Canonical(l') && Occupied(l'.tiles) == tiles && l'.shape.cols == cols
    && JustEnough(l'.shape.rows, cols, |tiles|) && SizesSurvive(l, l')
  }

  lemma PackedLeaves(l: Layout, tiles: seq<Tile>, c: int)
    requires Canonical(l) && 1 <= c <= 4
    ensures Leaves(l, Pack(tiles, c, l.rowSizes, l.colSizes), tiles, c)
  {
    CanonicalForm(l);
    PackKeepsTiles(tiles, c, l.rowSizes, l.colSizes);
    PackIsCanonical(tiles, c, l.rowSizes, l.colSizes);
    RowsAreJustEnough(|tiles|, c);
    var l' := Pack(tiles, c, l.rowSizes, l.colSizes);
    CanonicalForm(l');
    forall r | 0 <= r < l'.shape.rows
      ensures
        if c == l.shape.cols && r < |l.colSizes.value| then l'.colSizes.value[r] == l.colSizes.value[r]
        else EqualRow(l'.colSizes.value[r], c)
    {
      assert l'.colSizes.value[r] == Fit(At(l.colSizes, r), c);
      assert r < l.shape.rows ==> |l.colSizes.value[r]| == l.shape.cols;
    }
  }

  /** Choosing a column count rounds it down and keeps it from one to four. */
  lemma SetColsLeaves(l: Layout, cols: real) returns (c: int)
    requires Canonical(l)
    ensures Leaves(l, SetCols(l, cols), Occupied(l.tiles), c)
    ensures if cols < 1.0 then c == 1 else if cols >= 4.0 then c == 4 else c as real <= cols < c as real + 1.0
  {
    c := ClampCols(cols);
    PackedLeaves(l, Occupied(l.tiles), c);
    FloorFits(cols);
  }

  lemma FloorFits(cols: real)
    ensures
      var c := ClampCols(cols);
      if cols < 1.0 then c == 1 else if cols >= 4.0 then c == 4 else c as real <= cols < c as real + 1.0
  {
  }

  /** A grid narrows only when fewer tiles than columns are left. */
  function ColsLeft(l: Layout, n: nat): int {
    if n == 0 then 1 else if n < l.shape.cols then n else l.shape.cols
  }

  /** Removing a tile leaves the others in order. */
  lemma RemoveLeaves(l: Layout, i: nat)
    requires Canonical(l) && i < |Occupied(l.tiles)| <= |l.tiles|
    ensures
      var rest := Occupied(l.tiles)[..i] + Occupied(l.tiles)[i + 1..];
      Leaves(l, RemoveTile(l, i), rest, ColsLeft(l, |rest|))
  {
    CanonicalForm(l);
    RemoveTileTakesOne(l, i);
    var rest := Without(Occupied(l.tiles), i);
    PackedLeaves(l, rest, MinInt(l.shape.cols, AtLeastOne(|rest|)));
  }

  /** An index that shows no tile removes none: an empty slot, or none at all. */
  lemma RemoveNothing(l: Layout, i: int)
    requires Canonical(l) && !(0 <= i < |l.tiles| && l.tiles[i].Some?)
    ensures Leaves(l, RemoveTile(l, i), Occupied(l.tiles), ColsLeft(l, |Occupied(l.tiles)|))
  {
    CanonicalForm(l);
    assert 0 <= i < |l.tiles| ==> l.tiles[i := None] == l.tiles;
    PackAfterRemovalIsShrunk(l, l.tiles);
    PackedLeaves(l, Occupied(l.tiles), MinInt(l.shape.cols, AtLeastOne(|Occupied(l.tiles)|)));
  }

  predicate Rejects(drop: Tile -> bool, tiles: seq<Tile>) {
    forall t :: t in tiles ==> !drop(t)
  }

  /** The tiles of `kept`, in order, with dropped ones between them make up `tiles`. */
  ghost predicate Sifts(tiles: seq<Tile>, drop: Tile -> bool, kept: seq<Tile>)
    decreases |tiles|
  {
    if tiles == [] then kept == []
    else if drop(tiles[0]) then Sifts(tiles[1..], drop, kept)
    else kept != [] && kept[0] == tiles[0] && Sifts(tiles[1..], drop, kept[1..])
  }

  lemma {:induction false} SiftsSnoc(tiles: seq<Tile>, drop: Tile -> bool, kept: seq<Tile>, t: Tile)
    requires Sifts(tiles, drop, kept)
    ensures Sifts(tiles + [t], drop, if drop(t) then kept else kept + [t])
    decreases |tiles|
  {
    if tiles == [] {
      assert (tiles + [t])[1..] == [] && ([] + [t])[1..] == [];
    } else {
      assert (tiles + [t])[1..] == tiles[1..] + [t];
      if drop(tiles[0]) {
        SiftsSnoc(tiles[1..], drop, kept, t);
      } else {
        SiftsSnoc(tiles[1..], drop, kept[1..], t);
        assert (kept + [t])[1..] == kept[1..] + [t];
      }
    }
  }

  lemma {:induction false} KeptSifts(tiles: seq<Tile>, drop: Tile -> bool)
    ensures Sifts(tiles, drop, Kept(tiles, drop))
    ensures |Kept(tiles, drop)| <= |tiles|
    ensures |Kept(tiles, drop)| == |tiles| <==> Rejects(drop, tiles)
  {
    if tiles != [] {
      var init, last := tiles[..|tiles| - 1], tiles[|tiles| - 1];
      KeptSifts(init, drop);
      SiftsSnoc(init, drop, Kept(init, drop), last);
      assert init + [last] == tiles;
      assert Kept(tiles, drop) == if drop(last) then Kept(init, drop) else Kept(init, drop) + [last];
    }
  }

  lemma NothingDropped(l: Layout, drop: Tile -> bool)
    requires Canonical(l) && Rejects(drop, Occupied(l.tiles))
    ensures RemoveTilesWhere(l, drop) == l
  {
    var tiles := Dropped(l.tiles, drop);
    CanonicalForm(l);
    forall i | 0 <= i < |tiles|
      ensures tiles[i] == l.tiles[i]
    {
      assert l.tiles[i].Some? ==> l.tiles[i].value == Occupied(l.tiles)[i];
    }
    assert tiles == l.tiles;
  }

  lemma ColsLeftIsMin(l: Layout, n: nat)
    requires l.shape.cols >= 1
    ensures MinInt(l.shape.cols, AtLeastOne(n)) == ColsLeft(l, n)
  {
  }

  lemma SomeDropped(l: Layout, drop: Tile -> bool, rest: seq<Tile>)
    requires Canonical(l) && Dropped(l.tiles, drop) != l.tiles && rest == Occupied(Dropped(l.tiles, drop))
    ensures Leaves(l, RemoveTilesWhere(l, drop), rest, ColsLeft(l, |rest|))
  {
    CanonicalForm(l);
    PackAfterRemovalIsShrunk(l, Dropped(l.tiles, drop));
    ColsLeftIsMin(l, |rest|);
    PackedLeaves(l, rest, ColsLeft(l, |rest|));
  }

  /** Closing a directory drops exactly its tiles; with none of them in the grid the
      layout is left as it was, narrow rows and all. */
  lemma RemoveWhereLeaves(l: Layout, drop: Tile -> bool) returns (rest: seq<Tile>)
    requires Canonical(l)
    ensures Sifts(Occupied(l.tiles), drop, rest)
    ensures Rejects(drop, Occupied(l.tiles)) ==> RemoveTilesWhere(l, drop) == l
    ensures !Rejects(drop, Occupied(l.tiles)) ==> Leaves(l, RemoveTilesWhere(l, drop), rest, ColsLeft(l, |rest|))
  {
    rest := Kept(Occupied(l.tiles), drop);
    KeptSifts(Occupied(l.tiles), drop);
    OccupiedDropped(l.tiles, drop);
    if Rejects(drop, Occupied(l.tiles)) {
      NothingDropped(l, drop);
    } else {
      SomeDropped(l, drop, rest);
    }
  }

  /** A new tile comes last; only a lone tile in a lone column makes room beside it. */
  lemma AddLeaves(l: Layout, t: Tile)
    requires Canonical(l)
    ensures Leaves(l, AddTile(l, t), Occupied(l.tiles) + [t],
                   if |Occupied(l.tiles)| == 1 && l.shape.cols == 1 then 2 else l.shape.cols)
  {
    CanonicalForm(l);
    OccupiedConcat(l.tiles, [Some(t)]);
    assert Occupied([Some(t)]) == [t];
    var c := if |Occupied(l.tiles)| == 1 && l.shape.cols == 1 then 2 else l.shape.cols;
    assert (c as real).Floor == c;
    PackedLeaves(l, Occupied(l.tiles) + [t], c);
  }

  /** A swap keeps columns, rows and sizes. */
  lemma SwapLeaves(l: Layout, a: nat, b: nat)
    requires Canonical(l) && a < |l.tiles| && b < |l.tiles|
    ensures Leaves(l, SwapTiles(l, a, b), Occupied(SwapTiles(l, a, b).tiles), l.shape.cols)
    ensures SwapTiles(l, a, b).shape == l.shape
  {
    CanonicalForm(l);
    var swapped := l.tiles[a := l.tiles[b]][b := l.tiles[a]];
    assert (l.shape.cols as real).Floor == l.shape.cols;
    PackKeepsTiles(Occupied(swapped), l.shape.cols, l.rowSizes, l.colSizes);
    PackedLeaves(l, Occupied(swapped), l.shape.cols);
    SwapIsExact(l, a, b);
  }

  /** A grid of nothing: one row of two equal columns. */
  lemma EmptyGrid()
    ensures EmptyLayout() == Layout(GridShape(1, 2), [None, None], Some([1.0]), Some([[0.5, 0.5]]))
  {
    var l := EmptyLayout();
    assert Occupied([]) == [];
    assert l.shape == GridShape(1, 2);
    assert l.tiles == [None, None];
    assert EqualSizes(1) == [1.0] && EqualSizes(2) == [0.5, 0.5];
    assert l.colSizes.value == [[0.5, 0.5]];
  }

  /** Row heights handed in are stored if they fit, one to each row, all positive and
      adding up; otherwise the rows become equal. Nothing else changes. */
  lemma SetRowSizesLeaves(l: Layout, sizes: seq<real>)
    requires Canonical(l)
    ensures
      var l' := SetRowSizes(l, sizes);
      && l' == l.(rowSizes := l'.rowSizes) && l'.rowSizes.Some?
      && if Usable(Some(sizes), l.shape.rows) then l'.rowSizes.value == sizes
         else EqualRow(l'.rowSizes.value, l.shape.rows)
  {
    CanonicalForm(l);
    assert l == Renormalize(l);
  }

  /** The same of one row's widths. */
  lemma SetColSizesLeaves(l: Layout, row: nat, sizes: seq<real>) returns (widths: seq<real>)
    requires Canonical(l) && row < l.shape.rows
    ensures l.colSizes.Some? && |l.colSizes.value| == l.shape.rows
    ensures SetColSizes(l, row, sizes) == l.(colSizes := Some(l.colSizes.value[row := widths]))
    ensures if Usable(Some(sizes), l.shape.cols) then widths == sizes else EqualRow(widths, l.shape.cols)
  {
    CanonicalForm(l);
    var l' := SetColSizes(l, row, sizes);
    widths := Fit(Some(sizes), l.shape.cols);
    forall r | 0 <= r < l.shape.rows
      ensures l'.colSizes.value[r] == l.colSizes.value[row := widths][r]
    {
      assert Usable(Some(l.colSizes.value[r]), l.shape.cols);
    }
    assert l'.colSizes.value == l.colSizes.value[row := widths];
    assert l == Renormalize(l);
    assert l' == l.(colSizes := Some(l.colSizes.value[row := widths]));
  }
}

/** What a soloed directory shows: in which order, in how many columns, and how sized. */
module ViewShape {
  import opened Options
  import opened Sizes
  import opened GridModel
  import opened GridEdits
  import opened ViewLayout

  predicate LastAt(order: seq<string>, key: string, n: int) {
    0 <= n < |order| && order[n] == key && forall j :: n < j < |order| ==> order[j] != key
  }

  /** Tile a of stored index i goes before tile b of index j: copies in stored order, listed
      tiles by their last place in the list, then the unlisted ones in stored order. */
  ghost predicate Precedes(order: seq<string>, a: string, i: int, b: string, j: int) {
    if a == b then i < j
    else if b in order then exists m, n :: LastAt(order, a, m) && LastAt(order, b, n) && m < n
    else a in order || i < j
  }

  lemma {:induction false} UnlistedRank(order: seq<string>, key: string)
    requires key !in order
    ensures Rank(order, key) == |order|
  {
    if order != [] { UnlistedRank(order[..|order| - 1], key); }
  }

  lemma ListedRank(order: seq<string>, key: string)
    requires key in order
    ensures LastAt(order, key, Rank(order, key))
  {
    var i :| 0 <= i < |order| && order[i] == key;
    RankIsLast(order, i);
  }

  lemma RankPrecedes(order: seq<string>, p: Placed, q: Placed)
    requires Before(order, p, q)
    ensures Precedes(order, TileKey(p.tile), p.index, TileKey(q.tile), q.index)
  {
    var a, b := TileKey(p.tile), TileKey(q.tile);
    if b in order { ListedRank(order, b); } else { UnlistedRank(order, b); }
    if a in order { ListedRank(order, a); } else { UnlistedRank(order, a); }
  }

  lemma ListedOrder(l: Layout, isVisible: Tile -> bool, o: Overlay, r: nat, q: nat)
    requires r < q < |Shown(l, isVisible, Some(o))|
    ensures
      var s := Shown(l, isVisible, Some(o));
      Precedes(o.order, TileKey(s[r].tile), s[r].index, TileKey(s[q].tile), s[q].index)
  {
    var s, visible := Shown(l, isVisible, Some(o)), Visible(l.tiles, isVisible);
    forall i, j | 0 <= i < j < |visible|
      ensures visible[i].index < visible[j].index
    {
      VisibleAscends(l.tiles, isVisible, i, j);
    }
    SortsFully(o.order, visible);
    assert Before(o.order, s[r], s[q]);
    RankPrecedes(o.order, s[r], s[q]);
  }

  lemma SlotsShown(l: Layout, isVisible: Tile -> bool, overlay: Option<Overlay>, i: nat)
    requires i < |OnScreen(l, isVisible, overlay).stored|
    ensures
      var v, s := OnScreen(l, isVisible, overlay), Shown(l, isVisible, overlay);
      i < |s| == |v.stored| <= |v.view.tiles| && v.view.tiles[i] == Some(s[i].tile) && v.stored[i] == s[i].index
  {
    OnScreenIsShown(l, isVisible, overlay);
    CanonicalForm(OnScreen(l, isVisible, overlay).view);
  }

  /** Without an overlay the visible tiles keep their stored order. */
  lemma FilteredOrder(l: Layout, isVisible: Tile -> bool, r: nat, q: nat)
    requires r < q < |OnScreen(l, isVisible, None).stored|
    ensures OnScreen(l, isVisible, None).stored[r] < OnScreen(l, isVisible, None).stored[q]
  {
    SlotsShown(l, isVisible, None, r);
    SlotsShown(l, isVisible, None, q);
    VisibleAscends(l.tiles, isVisible, r, q);
  }

  /** With an overlay any two of them stand as its list says, whatever that lists. */
  lemma OverlayOrder(l: Layout, isVisible: Tile -> bool, o: Overlay, r: nat, q: nat)
    requires r < q < |OnScreen(l, isVisible, Some(o)).stored|
    ensures
      var v := OnScreen(l, isVisible, Some(o));
      && q < |v.view.tiles| && v.view.tiles[r].Some? && v.view.tiles[q].Some?
      && Precedes(o.order, TileKey(v.view.tiles[r].value), v.stored[r],
                  TileKey(v.view.tiles[q].value), v.stored[q])
  {
    SlotsShown(l, isVisible, Some(o), r);
    SlotsShown(l, isVisible, Some(o), q);
    ListedOrder(l, isVisible, o, r, q);
  }

  /** The tiles shown, in their order. */
  function TilesShown(v: View): seq<Tile> {
    Occupied(v.view.tiles)
  }

  /** Filtered only, the grid keeps its columns and whatever sizes still fit. */
  lemma FilteredShape(l: Layout, isVisible: Tile -> bool)
    requires Canonical(l)
    ensures
      var v := OnScreen(l, isVisible, None);
      Leaves(l, v.view, TilesShown(v), l.shape.cols)
  {
    var s := Visible(l.tiles, isVisible);
    CanonicalForm(l);
    assert (l.shape.cols as real).Floor == l.shape.cols;
    OccupiedSlots(Tiles(s));
    PackedLeaves(l, Tiles(s), l.shape.cols);
    OnScreenIsShown(l, isVisible, None);
  }

  /** Sizes handed in are used if they fit. */
  predicate Takes(sizes: seq<real>, given: Option<seq<real>>, count: int) {
    if Usable(given, count) then sizes == given.value else EqualRow(sizes, count)
  }

  lemma OverlayPacks(l: Layout, isVisible: Tile -> bool, o: Overlay)
    ensures
      OnScreen(l, isVisible, Some(o)).view
      == Pack(Tiles(Shown(l, isVisible, Some(o))), ClampCols(o.cols), Some(o.rowSizes), Some(o.colSizes))
  {
    FilterIsMapped(l, isVisible);
    NormalizedFront(Visible(l.tiles, isVisible), l.shape.cols as real, l.rowSizes, l.colSizes);
    PairsOfFront(FilterLayout(l, isVisible).view.tiles, Visible(l.tiles, isVisible));
    OccupiedSlots(Tiles(Shown(l, isVisible, Some(o))));
  }

  /** The widths handed in for row r. */
  function WidthsFor(o: Overlay, r: int): Option<seq<real>> {
    if 0 <= r < |o.colSizes| then Some(o.colSizes[r]) else None
  }

  lemma PackTakes(tiles: seq<Tile>, c: int, o: Overlay)
    requires 1 <= c <= 4
    ensures
      var v := Pack(tiles, c, Some(o.rowSizes), Some(o.colSizes));
      && v.rowSizes.Some? && Takes(v.rowSizes.value, Some(o.rowSizes), v.shape.rows)
      && v.colSizes.Some? && |v.colSizes.value| == v.shape.rows
      && forall r :: 0 <= r < v.shape.rows ==> Takes(v.colSizes.value[r], WidthsFor(o, r), c)
  {
    RowsAreJustEnough(|tiles|, c);
    var v := Pack(tiles, c, Some(o.rowSizes), Some(o.colSizes));
    forall r | 0 <= r < v.shape.rows
      ensures Takes(v.colSizes.value[r], WidthsFor(o, r), c)
    {
      assert v.colSizes.value[r] == Fit(At(Some(o.colSizes), r), c);
    }
  }

  /** With an overlay the columns are its own, rounded down and from one to four. */
  lemma OverlayShape(l: Layout, isVisible: Tile -> bool, o: Overlay)
    ensures
      var v := OnScreen(l, isVisible, Some(o));
      var cols := v.view.shape.cols;
      && (if o.cols < 1.0 then cols == 1 else if o.cols >= 4.0 then cols == 4
          else cols as real <= o.cols < cols as real + 1.0)
      && JustEnough(v.view.shape.rows, cols, |TilesShown(v)|)
  {
    var s := Shown(l, isVisible, Some(o));
    OverlayPacks(l, isVisible, o);
    PackKeepsTiles(Tiles(s), ClampCols(o.cols), Some(o.rowSizes), Some(o.colSizes));
    FloorFits(o.cols);
    RowsAreJustEnough(|s|, ClampCols(o.cols));
  }

  /** Its heights and widths are used where they fit. */
  lemma OverlaySizes(l: Layout, isVisible: Tile -> bool, o: Overlay)
    ensures
      var v := OnScreen(l, isVisible, Some(o)).view;
      && v.rowSizes.Some? && Takes(v.rowSizes.value, Some(o.rowSizes), v.shape.rows)
      && v.colSizes.Some? && |v.colSizes.value| == v.shape.rows
      && forall r :: 0 <= r < v.shape.rows ==> Takes(v.colSizes.value[r], WidthsFor(o, r), v.shape.cols)
  {
    OverlayPacks(l, isVisible, o);
    PackTakes(Tiles(Shown(l, isVisible, Some(o))), ClampCols(o.cols), o);
  }
}

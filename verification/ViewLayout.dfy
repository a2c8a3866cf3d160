/** The filtered and re-sorted view of a layout, and the index map that carries its
    slots back to the stored layout. */
module ViewLayout {
  import opened Options
  import opened GridModel

  /** A tile on screen with its index in the stored layout. */
  datatype Placed = Placed(tile: Tile, index: int)
  datatype View = View(view: Layout, stored: seq<int>)
  datatype Overlay = Overlay(cols: real, order: seq<string>, rowSizes: seq<real>, colSizes: seq<seq<real>>)

  function Tiles(s: seq<Placed>): (r: seq<Tile>)
    ensures |r| == |s| && forall i :: 0 <= i < |s| ==> r[i] == s[i].tile
  {
    seq(|s|, i requires 0 <= i < |s| => s[i].tile)
  }

  function Indices(s: seq<Placed>): (r: seq<int>)
    ensures |r| == |s| && forall i :: 0 <= i < |s| ==> r[i] == s[i].index
  {
    seq(|s|, i requires 0 <= i < |s| => s[i].index)
  }

  /** The visible tiles of a stored layout with their indices, in stored order. */
  function Visible(tiles: seq<Slot>, isVisible: Tile -> bool): seq<Placed> {
    if tiles == [] then []
    else
      var n := |tiles| - 1;
      Visible(tiles[..n], isVisible)
      + if tiles[n].Some? && isVisible(tiles[n].value) then [Placed(tiles[n].value, n)] else []
  }

  function FilterLayout(l: Layout, isVisible: Tile -> bool): View {
    var shown := Visible(l.tiles, isVisible);
    View(Normalize(Slots(Tiles(shown)), l.shape.cols as real, l.rowSizes, l.colSizes), Indices(shown))
  }

  function OrderOf(view: Layout): seq<string> {
    Keys(Occupied(view.tiles))
  }

  function Keys(tiles: seq<Tile>): (ks: seq<string>)
    ensures |ks| == |tiles| && forall i :: 0 <= i < |tiles| ==> ks[i] == TileKey(tiles[i])
  {
    seq(|tiles|, i requires 0 <= i < |tiles| => TileKey(tiles[i]))
  }

  function SeedOverlay(view: Layout): Overlay {
    Overlay(view.shape.cols as real, OrderOf(view),
            if view.rowSizes.Some? then view.rowSizes.value else [],
            if view.colSizes.Some? then view.colSizes.value else [])
  }

  /** The rank of a key: its last place in the order, as building a Map from the
      entries leaves it, and |order| for Infinity when it has none. Infinity minus
      Infinity is NaN, which sort takes as 0 (ECMA-262, section 23.1.3.30), so unlisted
      keys tie here too. */
  function Rank(order: seq<string>, key: string): nat {
    if order == [] then 0
    else
      var n := |order| - 1;
      if order[n] == key then n
      else if Rank(order[..n], key) == n then n + 1
      else Rank(order[..n], key)
  }

  function RankOf(order: seq<string>, p: Placed): nat {
    Rank(order, TileKey(p.tile))
  }

  /** Array.prototype.sort by rank. It is stable: among equals, first stays first. */
  function Insert(order: seq<string>, p: Placed, s: seq<Placed>): seq<Placed> {
    if s == [] || RankOf(order, p) <= RankOf(order, s[0]) then [p] + s
    else [s[0]] + Insert(order, p, s[1..])
  }

  function SortByRank(order: seq<string>, s: seq<Placed>): seq<Placed> {
    if s == [] then [] else Insert(order, s[0], SortByRank(order, s[1..]))
  }

  /** Every occupied slot of the packed view has an entry in the map. */
  predicate Mapped(packed: Layout, stored: seq<int>) {
    forall i :: 0 <= i < |packed.tiles| && packed.tiles[i].Some? ==> i < |stored|
  }

  function Pairs(tiles: seq<Slot>, stored: seq<int>): seq<Placed>
    requires forall i :: 0 <= i < |tiles| && tiles[i].Some? ==> i < |stored|
  {
    if tiles == [] then []
    else
      var n := |tiles| - 1;
      Pairs(tiles[..n], stored) + if tiles[n].Some? then [Placed(tiles[n].value, stored[n])] else []
  }

  function ApplyOverlay(packed: Layout, stored: seq<int>, overlay: Option<Overlay>): View
    requires Mapped(packed, stored)
  {
    if overlay.None? then View(packed, stored)
    else
      var o := overlay.value;
      var sorted := SortByRank(o.order, Pairs(packed.tiles, stored));
      View(Normalize(Slots(Tiles(sorted)), o.cols, Some(o.rowSizes), Some(o.colSizes)), Indices(sorted))
  }

  function SwapOrder(order: seq<string>, a: int, b: int): seq<string> {
    if a < 0 || b < 0 || a >= |order| || b >= |order| then order
    else order[a := order[b]][b := order[a]]
  }

  /** What the grid shows: the filter, then the overlay of a soloed directory. */
  function OnScreen(l: Layout, isVisible: Tile -> bool, overlay: Option<Overlay>): View {
    var v := FilterLayout(l, isVisible);
    FilterIsMapped(l, isVisible);
    ApplyOverlay(v.view, v.stored, overlay)
  }

  // ------------------------------------------------------------- the filter

  lemma {:induction false} VisibleAt(tiles: seq<Slot>, isVisible: Tile -> bool, k: nat)
    requires k < |Visible(tiles, isVisible)|
    ensures
      var p := Visible(tiles, isVisible)[k];
      0 <= p.index < |tiles| && tiles[p.index] == Some(p.tile) && isVisible(p.tile)
  {
    var n := |tiles| - 1;
    if k < |Visible(tiles[..n], isVisible)| {
      VisibleAt(tiles[..n], isVisible, k);
    }
  }

  lemma {:induction false} VisibleAscends(tiles: seq<Slot>, isVisible: Tile -> bool, j: nat, k: nat)
    requires j < k < |Visible(tiles, isVisible)|
    ensures Visible(tiles, isVisible)[j].index < Visible(tiles, isVisible)[k].index
  {
    var n := |tiles| - 1;
    if k < |Visible(tiles[..n], isVisible)| {
      VisibleAscends(tiles[..n], isVisible, j, k);
    } else {
      VisibleAt(tiles[..n], isVisible, j);
    }
  }

  lemma {:induction false} VisibleFinds(tiles: seq<Slot>, isVisible: Tile -> bool, i: nat) returns (k: nat)
    requires i < |tiles| && tiles[i].Some? && isVisible(tiles[i].value)
    ensures k < |Visible(tiles, isVisible)| && Visible(tiles, isVisible)[k] == Placed(tiles[i].value, i)
  {
    var n := |tiles| - 1;
    if i == n {
      k := |Visible(tiles[..n], isVisible)|;
    } else {
      k := VisibleFinds(tiles[..n], isVisible, i);
    }
  }

  lemma NormalizedFront(s: seq<Placed>, cols: real, rs: Option<seq<real>>, cs: Option<seq<seq<real>>>)
    ensures
      var l := Normalize(Slots(Tiles(s)), cols, rs, cs);
      && Canonical(l) && Occupied(l.tiles) == Tiles(s) && |s| <= |l.tiles|
      && (forall i :: 0 <= i < |l.tiles| ==> (l.tiles[i].Some? <==> i < |s|))
      && (forall i :: 0 <= i < |s| ==> l.tiles[i] == Some(s[i].tile))
  {
    OccupiedSlots(Tiles(s));
    NormalizeIsCanonical(Slots(Tiles(s)), cols, rs, cs);
    PackKeepsTiles(Tiles(s), ClampCols(cols), rs, cs);
    CanonicalForm(Normalize(Slots(Tiles(s)), cols, rs, cs));
  }

  lemma FilterIsMapped(l: Layout, isVisible: Tile -> bool)
    ensures Mapped(FilterLayout(l, isVisible).view, FilterLayout(l, isVisible).stored)
  {
    NormalizedFront(Visible(l.tiles, isVisible), l.shape.cols as real, l.rowSizes, l.colSizes);
  }

  lemma {:induction false} PairsOfFront(tiles: seq<Slot>, s: seq<Placed>)
    requires |s| <= |tiles|
    requires forall i :: 0 <= i < |tiles| ==> (tiles[i].Some? <==> i < |s|)
    requires forall i :: 0 <= i < |s| ==> tiles[i] == Some(s[i].tile)
    ensures Pairs(tiles, Indices(s)) == s
  {
    if tiles == [] {
    } else if |s| == |tiles| {
      var n := |tiles| - 1;
      PairsOfFront(tiles[..n], s[..n]);
      PairsAgree(tiles[..n], Indices(s), Indices(s[..n]));
      assert s == s[..n] + [s[n]];
    } else {
      PairsOfFront(tiles[..|tiles| - 1], s);
    }
  }

  lemma {:induction false} PairsAgree(tiles: seq<Slot>, a: seq<int>, b: seq<int>)
    requires |tiles| <= |a| && |tiles| <= |b| && (forall i :: 0 <= i < |tiles| ==> a[i] == b[i])
    ensures Pairs(tiles, a) == Pairs(tiles, b)
  {
    if tiles != [] {
      PairsAgree(tiles[..|tiles| - 1], a, b);
    }
  }

  /** What is on screen, as one list of placed tiles. */
  function Shown(l: Layout, isVisible: Tile -> bool, overlay: Option<Overlay>): seq<Placed> {
    var s := Visible(l.tiles, isVisible);
    if overlay.None? then s else SortByRank(overlay.value.order, s)
  }

  /** The view is exactly the shown tiles packed to the front, and its map their
      stored indices. */
  lemma OnScreenIsShown(l: Layout, isVisible: Tile -> bool, overlay: Option<Overlay>)
    ensures
      var v, s := OnScreen(l, isVisible, overlay), Shown(l, isVisible, overlay);
      && v.stored == Indices(s) && Canonical(v.view) && Occupied(v.view.tiles) == Tiles(s)
      && (forall i :: 0 <= i < |v.view.tiles| ==> (v.view.tiles[i].Some? <==> i < |s|))
      && (forall i :: 0 <= i < |s| ==> v.view.tiles[i] == Some(s[i].tile))
  {
    var s := Visible(l.tiles, isVisible);
    NormalizedFront(s, l.shape.cols as real, l.rowSizes, l.colSizes);
    FilterIsMapped(l, isVisible);
    PairsOfFront(FilterLayout(l, isVisible).view.tiles, s);
    if overlay.Some? {
      var o := overlay.value;
      NormalizedFront(SortByRank(o.order, s), o.cols, Some(o.rowSizes), Some(o.colSizes));
    }
  }

  // ---------------------------------------------------------------- the sort

  predicate Sorted(order: seq<string>, s: seq<Placed>) {
    forall i, j :: 0 <= i < j < |s| ==> RankOf(order, s[i]) <= RankOf(order, s[j])
  }

  lemma {:induction false} InsertKeepsAll(order: seq<string>, p: Placed, s: seq<Placed>)
    ensures multiset(Insert(order, p, s)) == multiset(s) + multiset{p}
  {
    if s == [] || RankOf(order, p) <= RankOf(order, s[0]) {
    } else {
      InsertKeepsAll(order, p, s[1..]);
      assert s == [s[0]] + s[1..];
    }
  }

  lemma InMultiset(s: seq<Placed>, x: Placed)
    ensures x in s <==> x in multiset(s)
  {
  }

  lemma {:induction false} InsertSorts(order: seq<string>, p: Placed, s: seq<Placed>)
    requires Sorted(order, s)
    ensures Sorted(order, Insert(order, p, s))
  {
    if s == [] || RankOf(order, p) <= RankOf(order, s[0]) {
    } else {
      InsertSorts(order, p, s[1..]);
      InsertKeepsAll(order, p, s[1..]);
      var t := Insert(order, p, s[1..]);
      forall i | 0 <= i < |t|
        ensures RankOf(order, s[0]) <= RankOf(order, t[i])
      {
        InMultiset(t, t[i]);
        InMultiset(s[1..], t[i]);
      }
    }
  }

  lemma {:induction false} SortKeepsAll(order: seq<string>, s: seq<Placed>)
    ensures multiset(SortByRank(order, s)) == multiset(s)
  {
    if s != [] {
      SortKeepsAll(order, s[1..]);
      InsertKeepsAll(order, s[0], SortByRank(order, s[1..]));
      assert s == [s[0]] + s[1..];
    }
  }

  lemma {:induction false} SortIsSorted(order: seq<string>, s: seq<Placed>)
    ensures Sorted(order, SortByRank(order, s))
  {
    if s != [] {
      SortIsSorted(order, s[1..]);
      InsertSorts(order, s[0], SortByRank(order, s[1..]));
    }
  }

  lemma SortSorts(order: seq<string>, s: seq<Placed>)
    ensures Sorted(order, SortByRank(order, s)) && multiset(SortByRank(order, s)) == multiset(s)
  {
    SortIsSorted(order, s);
    SortKeepsAll(order, s);
  }

  function WithoutIndex(s: seq<Placed>, index: int): seq<Placed> {
    if s == [] then []
    else if s[0].index == index then WithoutIndex(s[1..], index)
    else [s[0]] + WithoutIndex(s[1..], index)
  }

  lemma {:induction false} InsertWithoutOther(order: seq<string>, p: Placed, s: seq<Placed>, index: int)
    requires Sorted(order, s) && p.index != index
    ensures WithoutIndex(Insert(order, p, s), index) == Insert(order, p, WithoutIndex(s, index))
  {
    if s == [] {
    } else if RankOf(order, p) <= RankOf(order, s[0]) {
      WithoutSubset(s, index);
      var t := WithoutIndex(s, index);
      if t != [] {
        assert t[0] in s;
      }
      assert ([p] + s)[1..] == s;
    } else {
      InsertWithoutOther(order, p, s[1..], index);
      var t := Insert(order, p, s[1..]);
      assert ([s[0]] + t)[1..] == t;
      if s[0].index == index {
      } else {
        var u := WithoutIndex(s[1..], index);
        assert ([s[0]] + u)[1..] == u;
      }
    }
  }

  lemma {:induction false} InsertWithoutSame(order: seq<string>, p: Placed, s: seq<Placed>)
    ensures WithoutIndex(Insert(order, p, s), p.index) == WithoutIndex(s, p.index)
  {
    if s == [] {
    } else if RankOf(order, p) <= RankOf(order, s[0]) {
      assert ([p] + s)[1..] == s;
    } else {
      InsertWithoutSame(order, p, s[1..]);
      var t := Insert(order, p, s[1..]);
      assert ([s[0]] + t)[1..] == t;
    }
  }

  lemma {:induction false} WithoutSubset(s: seq<Placed>, index: int)
    ensures forall x :: x in WithoutIndex(s, index) ==> x in s && x.index != index
  {
    if s != [] {
      WithoutSubset(s[1..], index);
    }
  }

  /** Sorting and taking a tile out commute. */
  lemma {:induction false} SortWithout(order: seq<string>, s: seq<Placed>, index: int)
    ensures SortByRank(order, WithoutIndex(s, index)) == WithoutIndex(SortByRank(order, s), index)
  {
    if s != [] {
      SortSorts(order, s[1..]);
      SortWithout(order, s[1..], index);
      if s[0].index == index {
        InsertWithoutSame(order, s[0], SortByRank(order, s[1..]));
      } else {
        InsertWithoutOther(order, s[0], SortByRank(order, s[1..]), index);
        assert ([s[0]] + WithoutIndex(s[1..], index))[1..] == WithoutIndex(s[1..], index);
      }
    }
  }

  /** Indices after `gone` close up when its slot is taken out. */
  function Closed(s: seq<Placed>, gone: int): (r: seq<Placed>)
    ensures |r| == |s|
    ensures forall i :: 0 <= i < |s| ==>
      r[i] == Placed(s[i].tile, if s[i].index > gone then s[i].index - 1 else s[i].index)
  {
    seq(|s|, i requires 0 <= i < |s| =>
      Placed(s[i].tile, if s[i].index > gone then s[i].index - 1 else s[i].index))
  }

  lemma ClosedCons(s: seq<Placed>, gone: int)
    requires s != []
    ensures Closed(s, gone)[0] == Closed([s[0]], gone)[0] && Closed(s, gone)[1..] == Closed(s[1..], gone)
  {
  }

  lemma {:induction false} InsertClosed(order: seq<string>, p: Placed, s: seq<Placed>, gone: int)
    ensures Closed(Insert(order, p, s), gone) == Insert(order, Closed([p], gone)[0], Closed(s, gone))
  {
    if s == [] || RankOf(order, p) <= RankOf(order, s[0]) {
    } else {
      InsertClosed(order, p, s[1..], gone);
      ClosedCons(s, gone);
    }
  }

  lemma {:induction false} SortClosed(order: seq<string>, s: seq<Placed>, gone: int)
    ensures SortByRank(order, Closed(s, gone)) == Closed(SortByRank(order, s), gone)
  {
    if s != [] {
      SortClosed(order, s[1..], gone);
      InsertClosed(order, s[0], SortByRank(order, s[1..]), gone);
      ClosedCons(s, gone);
    }
  }

  // -------------------------------------------------- removal through the map

  lemma {:induction false} WithoutAppend(a: seq<Placed>, b: seq<Placed>, index: int)
    ensures WithoutIndex(a + b, index) == WithoutIndex(a, index) + WithoutIndex(b, index)
  {
    if a == [] {
      assert a + b == b;
    } else {
      assert (a + b)[1..] == a[1..] + b;
      WithoutAppend(a[1..], b, index);
    }
  }

  lemma {:induction false} WithoutAbsent(s: seq<Placed>, index: int)
    requires forall x :: x in s ==> x.index != index
    ensures WithoutIndex(s, index) == s
  {
    if s != [] {
      WithoutAbsent(s[1..], index);
    }
  }

  lemma VisibleBelow(tiles: seq<Slot>, isVisible: Tile -> bool)
    ensures forall x :: x in Visible(tiles, isVisible) ==> 0 <= x.index < |tiles|
  {
  }

  lemma ClosedAppend(a: seq<Placed>, b: seq<Placed>, gone: int)
    ensures Closed(a + b, gone) == Closed(a, gone) + Closed(b, gone)
  {
  }

  lemma ClosedBelow(s: seq<Placed>, gone: int)
    requires forall x :: x in s ==> x.index < gone
    ensures Closed(s, gone) == s
  {
  }

  function VisibleSlot(slot: Slot, n: int, isVisible: Tile -> bool): seq<Placed> {
    if slot.Some? && isVisible(slot.value) then [Placed(slot.value, n)] else []
  }

  /** Taking slot r out of the stored slots takes it out of the visible list. */
  lemma {:induction false} VisibleWithout(tiles: seq<Slot>, r: nat, isVisible: Tile -> bool)
    requires r < |tiles|
    ensures Visible(Without(tiles, r), isVisible) == Closed(WithoutIndex(Visible(tiles, isVisible), r), r)
  {
    var n := |tiles| - 1;
    var front, last := Visible(tiles[..n], isVisible), VisibleSlot(tiles[n], n, isVisible);
    assert Visible(tiles, isVisible) == front + last;
    WithoutAppend(front, last, r);
    if r == n {
      assert Without(tiles, r) == tiles[..n];
      VisibleBelow(tiles[..n], isVisible);
      WithoutAbsent(front, r);
      assert WithoutIndex(last, r) == [];
      ClosedBelow(front, r);
    } else {
      var rest := Without(tiles, r);
      assert rest[..n - 1] == Without(tiles[..n], r) && rest[n - 1] == tiles[n];
      VisibleWithout(tiles[..n], r, isVisible);
      WithoutAbsent(last, r);
      ClosedAppend(WithoutIndex(front, r), last, r);
      assert Visible(rest, isVisible) == Visible(rest[..n - 1], isVisible) + VisibleSlot(tiles[n], n - 1, isVisible);
      assert Closed(last, r) == VisibleSlot(tiles[n], n - 1, isVisible);
    }
  }

  lemma {:induction false} VisibleBlanks(tiles: seq<Slot>, blanks: nat, isVisible: Tile -> bool)
    ensures Visible(tiles + seq(blanks, _ => None), isVisible) == Visible(tiles, isVisible)
  {
    var all: seq<Slot> := tiles + seq(blanks, _ => None);
    if blanks == 0 {
      assert all == tiles;
    } else {
      assert all[..|all| - 1] == tiles + seq(blanks - 1, _ => None);
      VisibleBlanks(tiles, blanks - 1, isVisible);
    }
  }

  /** A canonical layout shows what its occupied tiles show. */
  lemma VisibleFront(l: Layout, isVisible: Tile -> bool)
    requires Canonical(l)
    ensures Visible(l.tiles, isVisible) == Visible(Slots(Occupied(l.tiles)), isVisible)
  {
    CanonicalForm(l);
    var front := Slots(Occupied(l.tiles));
    VisibleBlanks(front, |l.tiles| - |front|, isVisible);
    assert l.tiles == front + seq(|l.tiles| - |front|, _ => None);
  }

  predicate Distinct(s: seq<Placed>) {
    forall j, k :: 0 <= j < k < |s| ==> s[j].index != s[k].index
  }

  lemma {:induction false} WithoutAt(s: seq<Placed>, i: nat)
    requires i < |s| && Distinct(s)
    ensures WithoutIndex(s, s[i].index) == Without(s, i)
  {
    if i == 0 {
      WithoutAbsent(s[1..], s[0].index);
      assert Without(s, 0) == s[1..];
    } else {
      WithoutAt(s[1..], i - 1);
      assert Without(s, i) == [s[0]] + Without(s[1..], i - 1);
    }
  }

  lemma ConsDistinct(p: Placed, s: seq<Placed>)
    requires Distinct(s) && forall x :: x in s ==> x.index != p.index
    ensures Distinct([p] + s)
  {
  }

  lemma {:induction false} InsertDistinct(order: seq<string>, p: Placed, s: seq<Placed>)
    requires Distinct(s) && forall x :: x in s ==> x.index != p.index
    ensures Distinct(Insert(order, p, s))
    ensures forall x :: x in Insert(order, p, s) <==> x == p || x in s
  {
    if s == [] || RankOf(order, p) <= RankOf(order, s[0]) {
      ConsDistinct(p, s);
    } else {
      InsertDistinct(order, p, s[1..]);
      ConsDistinct(s[0], Insert(order, p, s[1..]));
    }
  }

  lemma {:induction false} SortDistinct(order: seq<string>, s: seq<Placed>)
    requires Distinct(s)
    ensures Distinct(SortByRank(order, s))
    ensures forall x :: x in SortByRank(order, s) <==> x in s
  {
    if s != [] {
      SortDistinct(order, s[1..]);
      InsertDistinct(order, s[0], SortByRank(order, s[1..]));
    }
  }

  /** Each stored index is on screen at most once. */
  lemma ShownDistinct(l: Layout, isVisible: Tile -> bool, overlay: Option<Overlay>)
    ensures Distinct(Shown(l, isVisible, overlay))
    ensures forall x :: x in Shown(l, isVisible, overlay) <==> x in Visible(l.tiles, isVisible)
  {
    var s := Visible(l.tiles, isVisible);
    forall j, k | 0 <= j < k < |s|
      ensures s[j].index != s[k].index
    {
      VisibleAscends(l.tiles, isVisible, j, k);
    }
    if overlay.Some? {
      SortDistinct(overlay.value.order, s);
    }
  }

  lemma ShownIsStored(l: Layout, isVisible: Tile -> bool, overlay: Option<Overlay>)
    ensures
      var s := Shown(l, isVisible, overlay);
      forall i :: 0 <= i < |s| ==>
        0 <= s[i].index < |l.tiles| && l.tiles[s[i].index] == Some(s[i].tile) && isVisible(s[i].tile)
  {
    var s, t := Shown(l, isVisible, overlay), Visible(l.tiles, isVisible);
    ShownDistinct(l, isVisible, overlay);
    forall i | 0 <= i < |s|
      ensures 0 <= s[i].index < |l.tiles| && l.tiles[s[i].index] == Some(s[i].tile) && isVisible(s[i].tile)
    {
      assert s[i] in t;
      var k :| 0 <= k < |t| && t[k] == s[i];
      VisibleAt(l.tiles, isVisible, k);
    }
  }

  lemma ShownFinds(l: Layout, isVisible: Tile -> bool, overlay: Option<Overlay>, r: nat) returns (i: nat)
    requires r < |l.tiles| && l.tiles[r].Some? && isVisible(l.tiles[r].value)
    ensures i < |Shown(l, isVisible, overlay)| && Shown(l, isVisible, overlay)[i].index == r
  {
    var s, t := Shown(l, isVisible, overlay), Visible(l.tiles, isVisible);
    ShownDistinct(l, isVisible, overlay);
    var k := VisibleFinds(l.tiles, isVisible, r);
    assert t[k] in s;
    i :| 0 <= i < |s| && s[i] == t[k];
  }

  // ------------------------------------------------------------ main theorems

  /** Every occupied slot on screen maps to the stored slot that holds its tile, no two
      slots map to the same one, and nothing visible is left out. */
  lemma MapIsFaithful(l: Layout, isVisible: Tile -> bool, overlay: Option<Overlay>)
    ensures
      var v := OnScreen(l, isVisible, overlay);
      && (forall i :: 0 <= i < |v.view.tiles| ==> (v.view.tiles[i].Some? <==> i < |v.stored|))
      && |v.stored| <= |v.view.tiles|
      && (forall i :: 0 <= i < |v.stored| ==>
            && 0 <= v.stored[i] < |l.tiles| && l.tiles[v.stored[i]] == v.view.tiles[i]
            && l.tiles[v.stored[i]].Some? && isVisible(l.tiles[v.stored[i]].value))
      && (forall i, j :: 0 <= i < j < |v.stored| ==> v.stored[i] != v.stored[j])
      && (forall r :: 0 <= r < |l.tiles| && l.tiles[r].Some? && isVisible(l.tiles[r].value) ==> r in v.stored)
  {
    var v, s := OnScreen(l, isVisible, overlay), Shown(l, isVisible, overlay);
    OnScreenIsShown(l, isVisible, overlay);
    ShownDistinct(l, isVisible, overlay);
    ShownIsStored(l, isVisible, overlay);
    forall r | 0 <= r < |l.tiles| && l.tiles[r].Some? && isVisible(l.tiles[r].value)
      ensures r in v.stored
    {
      var i := ShownFinds(l, isVisible, overlay, r);
      assert v.stored[i] == r;
    }
    if |v.view.tiles| < |s| {
      CanonicalForm(v.view);
    }
  }

  lemma SlotsWithout(tiles: seq<Tile>, r: nat)
    requires r < |tiles|
    ensures Slots(Without(tiles, r)) == Without(Slots(tiles), r)
  {
  }

  lemma VisibleAfterRemoval(l: Layout, l': Layout, isVisible: Tile -> bool, r: nat)
    requires Canonical(l) && Canonical(l')
    requires r < |Occupied(l.tiles)| && Occupied(l'.tiles) == Without(Occupied(l.tiles), r)
    ensures Visible(l'.tiles, isVisible) == Closed(WithoutIndex(Visible(l.tiles, isVisible), r), r)
  {
    VisibleFront(l, isVisible);
    VisibleFront(l', isVisible);
    SlotsWithout(Occupied(l.tiles), r);
    VisibleWithout(Slots(Occupied(l.tiles)), r, isVisible);
  }

  /** What is shown once occupied tile r is taken out of a canonical layout. */
  lemma ShownWithout(l: Layout, l': Layout, isVisible: Tile -> bool, overlay: Option<Overlay>, r: nat)
    requires Canonical(l) && Canonical(l')
    requires r < |Occupied(l.tiles)| && Occupied(l'.tiles) == Without(Occupied(l.tiles), r)
    ensures Shown(l', isVisible, overlay) == Closed(WithoutIndex(Shown(l, isVisible, overlay), r), r)
  {
    VisibleAfterRemoval(l, l', isVisible, r);
    if overlay.Some? {
      var t := Visible(l.tiles, isVisible);
      SortClosed(overlay.value.order, WithoutIndex(t, r), r);
      SortWithout(overlay.value.order, t, r);
    }
  }

  /** A map after slot i is gone: its entry dropped, later stored indices one lower. */
  function CloseUp(stored: seq<int>, i: nat): (m: seq<int>)
    requires i < |stored|
    ensures |m| == |stored| - 1
  {
    seq(|stored| - 1, j requires 0 <= j < |stored| - 1 =>
      var was := stored[if j < i then j else j + 1];
      if was > stored[i] then was - 1 else was)
  }

  lemma ShownCloses(s: seq<Placed>, i: nat)
    requires i < |s| && Distinct(s)
    ensures
      var s' := Closed(WithoutIndex(s, s[i].index), s[i].index);
      Tiles(s') == Without(Tiles(s), i) && Indices(s') == CloseUp(Indices(s), i)
  {
  }

  /** The same for any layout l' that lacks just the tile behind slot i. */
  lemma RemovedOnScreen(l: Layout, l': Layout, isVisible: Tile -> bool, overlay: Option<Overlay>, i: nat)
    requires Canonical(l) && Canonical(l') && i < |Shown(l, isVisible, overlay)|
    requires 0 <= Shown(l, isVisible, overlay)[i].index < |Occupied(l.tiles)|
    requires Occupied(l'.tiles) == Without(Occupied(l.tiles), Shown(l, isVisible, overlay)[i].index)
    ensures
      var v, v' := OnScreen(l, isVisible, overlay), OnScreen(l', isVisible, overlay);
      && i < |v.stored| && i < |Occupied(v.view.tiles)|
      && Occupied(v'.view.tiles) == Without(Occupied(v.view.tiles), i) && v'.stored == CloseUp(v.stored, i)
  {
    var s := Shown(l, isVisible, overlay);
    ShownWithout(l, l', isVisible, overlay, s[i].index);
    OnScreenIsShown(l, isVisible, overlay);
    OnScreenIsShown(l', isVisible, overlay);
    ShownDistinct(l, isVisible, overlay);
    ShownCloses(s, i);
  }

  /** Removing the tile behind a slot on screen, then filtering and sorting again,
      shows the same tiles in the same order without that one; the map closes up. */
  lemma RemoveThroughMap(l: Layout, isVisible: Tile -> bool, overlay: Option<Overlay>, i: nat)
    requires Canonical(l) && i < |OnScreen(l, isVisible, overlay).stored|
    ensures
      var v := OnScreen(l, isVisible, overlay);
      var v' := OnScreen(RemoveTile(l, v.stored[i]), isVisible, overlay);
      && i < |Occupied(v.view.tiles)|
      && Occupied(v'.view.tiles) == Without(Occupied(v.view.tiles), i) && v'.stored == CloseUp(v.stored, i)
  {
    MapIsFaithful(l, isVisible, overlay);
    OnScreenIsShown(l, isVisible, overlay);
    var r := OnScreen(l, isVisible, overlay).stored[i];
    assert r == Shown(l, isVisible, overlay)[i].index;
    RemoveTileTakesOne(l, r);
    RemovedOnScreen(l, RemoveTile(l, r), isVisible, overlay, i);
  }

  // ------------------------------------------------- rearranging what is shown

  lemma {:induction false} VisiblePointwise(tiles: seq<Slot>, tiles': seq<Slot>, isVisible: Tile -> bool)
    requires |tiles| == |tiles'|
    requires forall j :: 0 <= j < |tiles| ==>
      ((tiles[j].Some? && isVisible(tiles[j].value)) <==> (tiles'[j].Some? && isVisible(tiles'[j].value)))
    ensures
      var s, s' := Visible(tiles, isVisible), Visible(tiles', isVisible);
      && Indices(s) == Indices(s')
      && (forall k :: 0 <= k < |s'| ==> 0 <= s'[k].index < |tiles'| && tiles'[s'[k].index] == Some(s'[k].tile))
  {
    if tiles != [] {
      var n := |tiles| - 1;
      VisiblePointwise(tiles[..n], tiles'[..n], isVisible);
    }
  }

  function Swapped<T>(s: seq<T>, a: nat, b: nat): (r: seq<T>)
    requires a < |s| && b < |s|
    ensures |r| == |s|
  {
    s[a := s[b]][b := s[a]]
  }

  /** Packing depends on the tiles only slot by slot. */
  lemma SwapFiltered(l: Layout, s: seq<Placed>, s': seq<Placed>, a: nat, b: nat)
    requires a < |s| && b < |s| && |s'| == |s|
    requires forall i :: 0 <= i < |s| ==> s'[i].tile == Swapped(Tiles(s), a, b)[i]
    ensures
      var cols := l.shape.cols as real;
      var v, v' := Normalize(Slots(Tiles(s)), cols, l.rowSizes, l.colSizes),
                   Normalize(Slots(Tiles(s')), cols, l.rowSizes, l.colSizes);
      a < |v.tiles| && b < |v.tiles| && v' == v.(tiles := Swapped(v.tiles, a, b))
  {
    var cols := l.shape.cols as real;
    var v, v' := Normalize(Slots(Tiles(s)), cols, l.rowSizes, l.colSizes),
                 Normalize(Slots(Tiles(s')), cols, l.rowSizes, l.colSizes);
    assert v == v'.(tiles := v.tiles) by {
      NormalizedFront(s, cols, l.rowSizes, l.colSizes);
      NormalizedFront(s', cols, l.rowSizes, l.colSizes);
      assert v.shape == v'.shape;
    }
    assert |v'.tiles| == |v.tiles| && FrontOf(v.tiles, s) && FrontOf(v'.tiles, s') by {
      NormalizedFront(s, cols, l.rowSizes, l.colSizes);
      NormalizedFront(s', cols, l.rowSizes, l.colSizes);
      assert v.shape == v'.shape;
    }
    SwappedFront(v.tiles, v'.tiles, s, s', a, b);
  }

  /** The tiles in the first slots, the rest empty. */
  predicate FrontOf(tiles: seq<Slot>, s: seq<Placed>) {
    |s| <= |tiles| && forall i :: 0 <= i < |tiles| ==> tiles[i] == if i < |s| then Some(s[i].tile) else None
  }

  lemma SwappedFront(tiles: seq<Slot>, tiles': seq<Slot>, s: seq<Placed>, s': seq<Placed>, a: nat, b: nat)
    requires a < |s| && b < |s| && |s'| == |s| && |tiles| == |tiles'| && FrontOf(tiles, s) && FrontOf(tiles', s')
    requires forall i :: 0 <= i < |s| ==> s'[i].tile == Swapped(Tiles(s), a, b)[i]
    ensures tiles' == Swapped(tiles, a, b)
  {
  }

  lemma SwappedStored(tiles: seq<Slot>, isVisible: Tile -> bool, a: nat, b: nat)
    requires a < |Visible(tiles, isVisible)| && b < |Visible(tiles, isVisible)|
    ensures
      var s := Visible(tiles, isVisible);
      && 0 <= s[a].index < |tiles| && 0 <= s[b].index < |tiles|
      && var s' := Visible(Swapped(tiles, s[a].index, s[b].index), isVisible);
      && Indices(s') == Indices(s) && |s'| == |s|
      && (forall i :: 0 <= i < |s| ==> s'[i].tile == Swapped(Tiles(s), a, b)[i])
  {
    var s := Visible(tiles, isVisible);
    VisibleAt(tiles, isVisible, a);
    VisibleAt(tiles, isVisible, b);
    var tiles' := Swapped(tiles, s[a].index, s[b].index);
    VisiblePointwise(tiles, tiles', isVisible);
    var s' := Visible(tiles', isVisible);
    assert |s'| == |Indices(s')| == |s|;
    forall i | 0 <= i < |s|
      ensures s'[i].tile == Swapped(Tiles(s), a, b)[i]
    {
      assert s'[i].index == Indices(s')[i] == Indices(s)[i] == s[i].index;
      VisibleAt(tiles, isVisible, i);
      if i < a { VisibleAscends(tiles, isVisible, i, a); }
      if a < i { VisibleAscends(tiles, isVisible, a, i); }
      if i < b { VisibleAscends(tiles, isVisible, i, b); }
      if b < i { VisibleAscends(tiles, isVisible, b, i); }
    }
  }

  /** With no overlay, a drop that swaps two slots through the map swaps exactly those
      two on screen; shape, sizes and map stay. */
  lemma SwapThroughMap(l: Layout, isVisible: Tile -> bool, a: nat, b: nat)
    requires Canonical(l) && a < |OnScreen(l, isVisible, None).stored| && b < |OnScreen(l, isVisible, None).stored|
    ensures
      var v := OnScreen(l, isVisible, None);
      && 0 <= v.stored[a] < |l.tiles| && 0 <= v.stored[b] < |l.tiles|
      && a < |v.view.tiles| && b < |v.view.tiles|
      && OnScreen(SwapTiles(l, v.stored[a], v.stored[b]), isVisible, None)
         == View(v.view.(tiles := Swapped(v.view.tiles, a, b)), v.stored)
  {
    var s := Visible(l.tiles, isVisible);
    SwappedStored(l.tiles, isVisible, a, b);
    VisibleAt(l.tiles, isVisible, a);
    VisibleAt(l.tiles, isVisible, b);
    SwapIsExact(l, s[a].index, s[b].index);
    SwapFiltered(l, s, Visible(Swapped(l.tiles, s[a].index, s[b].index), isVisible), a, b);
  }

  // ------------------------------------------------------------ sorting by keys

  /** The rank of a listed key is its last place in the order. */
  lemma {:induction false} RankIsLast(order: seq<string>, i: nat)
    requires i < |order|
    ensures i <= Rank(order, order[i]) < |order| && order[Rank(order, order[i])] == order[i]
    ensures forall j :: Rank(order, order[i]) < j < |order| ==> order[j] != order[i]
  {
    var n := |order| - 1;
    if order[n] != order[i] {
      RankIsLast(order[..n], i);
      assert order[..n][i] == order[i];
    }
  }

  predicate DistinctTiles(tiles: seq<Tile>) {
    forall i, j :: 0 <= i < j < |tiles| ==> tiles[i] != tiles[j]
  }

  /** Copies of one tile stand next to each other. */
  predicate CopiesAdjacent(tiles: seq<Tile>) {
    forall i, k, j :: 0 <= i < k < j < |tiles| && tiles[i] == tiles[j] ==> tiles[k] == tiles[i]
  }

  /** Copies of one tile come in the order in which they are stored. */
  predicate CopiesAscend(tiles: seq<Tile>, stored: seq<int>)
    requires |tiles| == |stored|
  {
    forall i, j :: 0 <= i < j < |tiles| && tiles[i] == tiles[j] ==> stored[i] < stored[j]
  }

  lemma RankIsLastCopy(tiles: seq<Tile>, i: nat)
    requires i < |tiles|
    ensures
      var r := Rank(Keys(tiles), TileKey(tiles[i]));
      && i <= r < |tiles| && tiles[r] == tiles[i]
      && (forall j :: r < j < |tiles| ==> tiles[j] != tiles[i])
  {
    var order := Keys(tiles);
    RankIsLast(order, i);
    forall j | 0 <= j < |tiles|
      ensures order[j] == order[i] <==> tiles[j] == tiles[i]
    {
      KeyIdentifiesTile(tiles[i], tiles[j]);
    }
  }

  lemma SortedByOwnKeys(s: seq<Placed>)
    requires Sorted(Keys(Tiles(s)), s)
    ensures CopiesAdjacent(Tiles(s))
  {
    var tiles, order := Tiles(s), Keys(Tiles(s));
    forall i, k, j | 0 <= i < k < j < |tiles| && tiles[i] == tiles[j]
      ensures tiles[k] == tiles[i]
    {
      assert RankOf(order, s[i]) <= RankOf(order, s[k]) <= RankOf(order, s[j]);
      RankIsLastCopy(tiles, i);
      RankIsLastCopy(tiles, k);
    }
  }

  lemma SortedByOwnKeysIff(s: seq<Placed>)
    ensures Sorted(Keys(Tiles(s)), s) <==> CopiesAdjacent(Tiles(s))
  {
    var tiles, order := Tiles(s), Keys(Tiles(s));
    if Sorted(order, s) {
      SortedByOwnKeys(s);
    } else {
      var i, j :| 0 <= i < j < |s| && RankOf(order, s[i]) > RankOf(order, s[j]);
      RankIsLastCopy(tiles, i);
      RankIsLastCopy(tiles, j);
      var r := RankOf(order, s[i]);
      assert tiles[i] == tiles[r] && i < j < r && tiles[j] != tiles[i];
    }
  }

  /** Sorted by rank, and by stored index within a rank, as a stable sort leaves them. */
  predicate Before(order: seq<string>, p: Placed, q: Placed) {
    RankOf(order, p) < RankOf(order, q) || (RankOf(order, p) == RankOf(order, q) && p.index < q.index)
  }

  predicate FullySorted(order: seq<string>, s: seq<Placed>) {
    forall i, j :: 0 <= i < j < |s| ==> Before(order, s[i], s[j])
  }

  lemma {:induction false} InsertFully(order: seq<string>, p: Placed, s: seq<Placed>)
    requires FullySorted(order, s) && forall q :: q in s ==> p.index < q.index
    ensures FullySorted(order, Insert(order, p, s))
  {
    if s == [] || RankOf(order, p) <= RankOf(order, s[0]) {
      forall j | 0 <= j < |s|
        ensures Before(order, p, s[j])
      {
        assert s[j] in s;
        assert j > 0 ==> Before(order, s[0], s[j]);
      }
    } else {
      InsertFully(order, p, s[1..]);
      InsertKeepsAll(order, p, s[1..]);
      var rest := Insert(order, p, s[1..]);
      forall j | 0 <= j < |rest|
        ensures Before(order, s[0], rest[j])
      {
        InMultiset(rest, rest[j]);
        InMultiset(s[1..], rest[j]);
        assert s[0] in s;
      }
    }
  }

  lemma {:induction false} SortsFully(order: seq<string>, s: seq<Placed>)
    requires forall i, j :: 0 <= i < j < |s| ==> s[i].index < s[j].index
    ensures FullySorted(order, SortByRank(order, s))
  {
    if s != [] {
      var rest := SortByRank(order, s[1..]);
      SortsFully(order, s[1..]);
      SortKeepsAll(order, s[1..]);
      forall q | q in rest
        ensures s[0].index < q.index
      {
        InMultiset(rest, q);
        InMultiset(s[1..], q);
      }
      InsertFully(order, s[0], rest);
    }
  }

  lemma HeadFirst(order: seq<string>, s: seq<Placed>, p: Placed)
    requires FullySorted(order, s) && p in multiset(s)
    ensures s != [] && (p == s[0] || Before(order, s[0], p))
  {
    var k :| 0 <= k < |s| && s[k] == p;
  }

  lemma HeadsAgree(order: seq<string>, u: seq<Placed>, s: seq<Placed>)
    requires FullySorted(order, u) && FullySorted(order, s) && multiset(u) == multiset(s) && s != []
    ensures u != [] && u[0] == s[0]
  {
    HeadFirst(order, u, s[0]);
    HeadFirst(order, s, u[0]);
  }

  lemma TailsAgree<T>(u: seq<T>, s: seq<T>)
    requires u != [] && s != [] && u[0] == s[0] && multiset(u) == multiset(s)
    ensures multiset(u[1..]) == multiset(s[1..])
  {
    assert u == [u[0]] + u[1..] && s == [s[0]] + s[1..];
    assert multiset(u[1..]) == multiset(u) - multiset{u[0]};
    assert multiset(s[1..]) == multiset(s) - multiset{s[0]};
  }

  lemma {:induction false} FullySortedUnique(order: seq<string>, u: seq<Placed>, s: seq<Placed>)
    requires FullySorted(order, u) && FullySorted(order, s) && multiset(u) == multiset(s)
    ensures u == s
  {
    if s == [] {
      assert |u| == |multiset(u)| == 0;
    } else {
      HeadsAgree(order, u, s);
      TailsAgree(u, s);
      FullySortedUnique(order, u[1..], s[1..]);
      assert u == [u[0]] + u[1..] && s == [s[0]] + s[1..];
    }
  }

  lemma SameRankIff(s: seq<Placed>, i: nat, j: nat)
    requires i < |s| && j < |s|
    ensures RankOf(Keys(Tiles(s)), s[i]) == RankOf(Keys(Tiles(s)), s[j]) <==> s[i].tile == s[j].tile
  {
    RankIsLastCopy(Tiles(s), i);
    RankIsLastCopy(Tiles(s), j);
  }

  lemma FullySortedIff(s: seq<Placed>)
    ensures FullySorted(Keys(Tiles(s)), s) <==> CopiesAdjacent(Tiles(s)) && CopiesAscend(Tiles(s), Indices(s))
  {
    var tiles, order := Tiles(s), Keys(Tiles(s));
    SortedByOwnKeysIff(s);
    forall i, j | 0 <= i < j < |s|
      ensures Before(order, s[i], s[j]) <==>
        RankOf(order, s[i]) <= RankOf(order, s[j]) && (tiles[i] == tiles[j] ==> Indices(s)[i] < Indices(s)[j])
    {
      SameRankIff(s, i, j);
    }
    assert FullySorted(order, s) <==> Sorted(order, s) && CopiesAscend(tiles, Indices(s));
  }

  // ----------------------------------------------------------- the same for tiles alone

  predicate TilesSorted(order: seq<string>, tiles: seq<Tile>) {
    forall i, j :: 0 <= i < j < |tiles| ==> Rank(order, TileKey(tiles[i])) <= Rank(order, TileKey(tiles[j]))
  }

  /** Listed keys of one rank are one key. */
  lemma SameRankSameTile(order: seq<string>, a: Tile, b: Tile)
    requires TileKey(a) in order && TileKey(b) in order && Rank(order, TileKey(a)) == Rank(order, TileKey(b))
    ensures a == b
  {
    var i :| 0 <= i < |order| && order[i] == TileKey(a);
    var j :| 0 <= j < |order| && order[j] == TileKey(b);
    RankIsLast(order, i);
    RankIsLast(order, j);
    KeyIdentifiesTile(a, b);
  }

  lemma TileHeadFirst(order: seq<string>, s: seq<Tile>, tile: Tile)
    requires TilesSorted(order, s) && tile in multiset(s)
    ensures s != [] && Rank(order, TileKey(s[0])) <= Rank(order, TileKey(tile))
  {
    var k :| 0 <= k < |s| && s[k] == tile;
  }

  lemma TileHeadsAgree(order: seq<string>, u: seq<Tile>, s: seq<Tile>)
    requires TilesSorted(order, u) && TilesSorted(order, s) && multiset(u) == multiset(s) && s != []
    requires forall tile :: tile in s ==> TileKey(tile) in order
    ensures u != [] && u[0] == s[0]
  {
    TileHeadFirst(order, u, s[0]);
    TileHeadFirst(order, s, u[0]);
    assert u[0] in multiset(s);
    SameRankSameTile(order, u[0], s[0]);
  }

  lemma {:induction false} TilesSortedUnique(order: seq<string>, u: seq<Tile>, s: seq<Tile>)
    requires TilesSorted(order, u) && TilesSorted(order, s) && multiset(u) == multiset(s)
    requires forall tile :: tile in s ==> TileKey(tile) in order
    ensures u == s
  {
    if s == [] {
      assert |u| == |multiset(u)| == 0;
    } else {
      TileHeadsAgree(order, u, s);
      TailsAgree(u, s);
      TilesSortedUnique(order, u[1..], s[1..]);
      assert u == [u[0]] + u[1..] && s == [s[0]] + s[1..];
    }
  }

  lemma MovedToFront<T>(s: seq<T>, k: nat)
    requires k < |s|
    ensures multiset([s[k]] + (s[..k] + s[k + 1..])) == multiset(s)
  {
    assert s == s[..k] + [s[k]] + s[k + 1..];
  }

  lemma TilesWithout(s: seq<Placed>, k: nat)
    requires k < |s|
    ensures multiset(Tiles(s)) == multiset{s[k].tile} + multiset(Tiles(s[..k] + s[k + 1..]))
  {
    MovedToFront(Tiles(s), k);
    assert Tiles(s[..k] + s[k + 1..]) == Tiles(s)[..k] + Tiles(s)[k + 1..];
  }

  lemma TakenOut(u: seq<Placed>, s: seq<Placed>, k: nat)
    requires u != [] && k < |s| && s[k] == u[0] && multiset(u) == multiset(s)
    ensures multiset(u[1..]) == multiset(s[..k] + s[k + 1..])
  {
    var rest := s[..k] + s[k + 1..];
    MovedToFront(s, k);
    TailsAgree(u, [u[0]] + rest);
    assert ([u[0]] + rest)[1..] == rest;
  }

  lemma TilesHead(u: seq<Placed>)
    requires u != []
    ensures multiset(Tiles(u)) == multiset{u[0].tile} + multiset(Tiles(u[1..]))
  {
    TilesWithout(u, 0);
    assert u[..0] + u[1..] == u[1..];
  }

  lemma PlaceOf(s: seq<Placed>, p: Placed) returns (k: nat)
    requires p in multiset(s)
    ensures k < |s| && s[k] == p
  {
    k :| 0 <= k < |s| && s[k] == p;
  }

  lemma {:induction false} TilesAgree(u: seq<Placed>, s: seq<Placed>)
    requires multiset(u) == multiset(s)
    ensures multiset(Tiles(u)) == multiset(Tiles(s))
    decreases |u|
  {
    if u == [] {
      assert |s| == |multiset(s)| == 0;
    } else {
      var k := PlaceOf(s, u[0]);
      TakenOut(u, s, k);
      TilesAgree(u[1..], s[..k] + s[k + 1..]);
      TilesWithout(s, k);
      TilesHead(u);
    }
  }

  lemma SameTilesAndIndices(t: seq<Placed>, s: seq<Placed>)
    requires Tiles(t) == Tiles(s) && Indices(t) == Indices(s)
    ensures t == s
  {
  }

  lemma ShownTilesIff(t: seq<Placed>, wanted: seq<Placed>)
    requires Sorted(Keys(Tiles(wanted)), t) && multiset(t) == multiset(wanted)
    ensures Tiles(t) == Tiles(wanted) <==> CopiesAdjacent(Tiles(wanted))
  {
    var order := Keys(Tiles(wanted));
    SortedByOwnKeysIff(wanted);
    if Tiles(t) == Tiles(wanted) {
      assert forall i :: 0 <= i < |wanted| ==> wanted[i].tile == Tiles(t)[i] == t[i].tile;
    }
    if CopiesAdjacent(Tiles(wanted)) {
      TilesAgree(t, wanted);
      assert forall i :: 0 <= i < |wanted| ==> order[i] == TileKey(Tiles(wanted)[i]) && order[i] in order;
      TilesSortedUnique(order, Tiles(t), Tiles(wanted));
    }
  }

  /** The overlay an edit of a soloed directory starts from. */
  function BaseOverlay(v: View, overlay: Option<Overlay>): Overlay {
    if overlay.Some? then overlay.value else SeedOverlay(v.view)
  }

  lemma ShownPermutes(l: Layout, isVisible: Tile -> bool, overlay: Option<Overlay>)
    ensures multiset(Shown(l, isVisible, overlay)) == multiset(Visible(l.tiles, isVisible))
  {
    if overlay.Some? {
      SortSorts(overlay.value.order, Visible(l.tiles, isVisible));
    }
  }

  lemma SwapPermutes<T>(s: seq<T>, a: nat, b: nat)
    requires a < |s| && b < |s|
    ensures multiset(Swapped(s, a, b)) == multiset(s)
  {
  }

  /** An overlay that lists the visible tiles in some order shows them in it exactly when
      the order has no other tile between two copies of one, and then its map follows
      exactly when copies keep their stored order. */
  lemma OrderIsShownIff(l: Layout, isVisible: Tile -> bool, o: Overlay, wanted: seq<Placed>)
    requires multiset(wanted) == multiset(Visible(l.tiles, isVisible)) && o.order == Keys(Tiles(wanted))
    ensures Occupied(OnScreen(l, isVisible, Some(o)).view.tiles) == Tiles(wanted) <==> CopiesAdjacent(Tiles(wanted))
    ensures
      var v := OnScreen(l, isVisible, Some(o));
      (Occupied(v.view.tiles) == Tiles(wanted) && v.stored == Indices(wanted))
      <==> CopiesAdjacent(Tiles(wanted)) && CopiesAscend(Tiles(wanted), Indices(wanted))
  {
    var s := Visible(l.tiles, isVisible);
    var t := SortByRank(o.order, s);
    SortSorts(o.order, s);
    OnScreenIsShown(l, isVisible, Some(o));
    ShownTilesIff(t, wanted);
    VisibleIsAscending(l.tiles, isVisible);
    SortsFully(o.order, s);
    FullySortedIff(wanted);
    if FullySorted(o.order, wanted) {
      FullySortedUnique(o.order, t, wanted);
    }
    if Tiles(t) == Tiles(wanted) && Indices(t) == Indices(wanted) {
      SameTilesAndIndices(t, wanted);
    }
  }

  lemma VisibleIsAscending(tiles: seq<Slot>, isVisible: Tile -> bool)
    ensures
      var s := Visible(tiles, isVisible);
      forall i, j :: 0 <= i < j < |s| ==> s[i].index < s[j].index
  {
    var s := Visible(tiles, isVisible);
    forall i, j | 0 <= i < j < |s|
      ensures s[i].index < s[j].index
    {
      VisibleAscends(tiles, isVisible, i, j);
    }
  }

  lemma SwappedLists(s: seq<Placed>, a: nat, b: nat)
    requires a < |s| && b < |s|
    ensures Tiles(Swapped(s, a, b)) == Swapped(Tiles(s), a, b)
    ensures Indices(Swapped(s, a, b)) == Swapped(Indices(s), a, b)
    ensures Keys(Tiles(Swapped(s, a, b))) == SwapOrder(Keys(Tiles(s)), a, b)
  {
  }

  lemma DistinctSwapped(tiles: seq<Tile>, stored: seq<int>, a: nat, b: nat)
    requires a < |tiles| == |stored| && b < |tiles| && DistinctTiles(tiles)
    ensures CopiesAdjacent(Swapped(tiles, a, b)) && CopiesAscend(Swapped(tiles, a, b), Swapped(stored, a, b))
  {
  }

  /** Under a solo, a drop rewrites the overlay's order, and the stored layout is not
      involved. The screen swaps exactly those two slots, whatever the previous order
      listed, if and only if no other tile then stands between two copies of one; the map
      follows if and only if copies keep their stored order. Distinct tiles always do. */
  lemma SwapThroughOverlayIff(l: Layout, isVisible: Tile -> bool, overlay: Option<Overlay>, a: nat, b: nat)
    requires a < |OnScreen(l, isVisible, overlay).stored| && b < |OnScreen(l, isVisible, overlay).stored|
    ensures
      var v := OnScreen(l, isVisible, overlay);
      var next := BaseOverlay(v, overlay).(order := SwapOrder(OrderOf(v.view), a, b));
      var v' := OnScreen(l, isVisible, Some(next));
      var tiles := Occupied(v.view.tiles);
      && a < |tiles| && b < |tiles| && |tiles| == |v.stored|
      && var wanted, map' := Swapped(tiles, a, b), Swapped(v.stored, a, b);
      && (Occupied(v'.view.tiles) == wanted <==> CopiesAdjacent(wanted))
      && (Occupied(v'.view.tiles) == wanted && v'.stored == map'
          <==> CopiesAdjacent(wanted) && CopiesAscend(wanted, map'))
      && (DistinctTiles(tiles) ==> Occupied(v'.view.tiles) == wanted && v'.stored == map')
  {
    var v, s := OnScreen(l, isVisible, overlay), Shown(l, isVisible, overlay);
    OnScreenIsShown(l, isVisible, overlay);
    ShownPermutes(l, isVisible, overlay);
    SwapPermutes(s, a, b);
    SwappedLists(s, a, b);
    var next := BaseOverlay(v, overlay).(order := SwapOrder(OrderOf(v.view), a, b));
    OrderIsShownIff(l, isVisible, next, Swapped(s, a, b));
    if DistinctTiles(Tiles(s)) {
      DistinctSwapped(Tiles(s), Indices(s), a, b);
    }
  }

  // ------------------------------------------------------------ seeding a view

  lemma {:induction false} SortedIsFixed(order: seq<string>, s: seq<Placed>)
    requires Sorted(order, s)
    ensures SortByRank(order, s) == s
  {
    if s != [] {
      SortedIsFixed(order, s[1..]);
    }
  }

  lemma ReseededView(view: Layout)
    requires Canonical(view)
    ensures
      var o := SeedOverlay(view);
      Normalize(Slots(Occupied(view.tiles)), o.cols, Some(o.rowSizes), Some(o.colSizes)) == view
  {
    CanonicalForm(view);
    OccupiedSlots(Occupied(view.tiles));
  }

  /** The first edit of a soloed directory starts from what is on screen: applying the
      seeded overlay changes nothing exactly when no tile is repeated with another one
      between its copies, so always when tiles are distinct. */
  lemma SeedIsIdentityIff(l: Layout, isVisible: Tile -> bool)
    ensures
      var v := OnScreen(l, isVisible, None);
      OnScreen(l, isVisible, Some(SeedOverlay(v.view))) == v <==> CopiesAdjacent(Occupied(v.view.tiles))
  {
    var v, s := OnScreen(l, isVisible, None), Visible(l.tiles, isVisible);
    var o := SeedOverlay(v.view);
    OnScreenIsShown(l, isVisible, None);
    OnScreenIsShown(l, isVisible, Some(o));
    var t := SortByRank(o.order, s);
    SortedByOwnKeysIff(s);
    ShownDistinct(l, isVisible, None);
    SortSorts(o.order, s);
    if CopiesAdjacent(Occupied(v.view.tiles)) {
      SortedIsFixed(o.order, s);
      ReseededView(v.view);
      NormalizedFront(s, l.shape.cols as real, l.rowSizes, l.colSizes);
      PairsOfFront(v.view.tiles, s);
    } else if OnScreen(l, isVisible, Some(o)) == v {
      SameTilesAndIndices(t, s);
    }
  }

  // ----------------------------------------------------------------- the loop

  /** filterLayout collects the visible tiles and their indices slot by slot. */
  method FilterTiles(l: Layout, isVisible: Tile -> bool) returns (v: View)
    ensures v == FilterLayout(l, isVisible)
  {
    var visible: seq<Slot>, stored: seq<int> := [], [];
    for i := 0 to |l.tiles|
      invariant visible == Slots(Tiles(Visible(l.tiles[..i], isVisible)))
      invariant stored == Indices(Visible(l.tiles[..i], isVisible))
    {
      assert l.tiles[..i + 1][..i] == l.tiles[..i];
      if l.tiles[i].Some? && isVisible(l.tiles[i].value) {
        visible := visible + [l.tiles[i]];
        stored := stored + [i];
      }
    }
    assert l.tiles[..|l.tiles|] == l.tiles;
    var view := NormalizeTiles(visible, l.shape.cols as real, l.rowSizes, l.colSizes);
    v := View(view, stored);
  }
}

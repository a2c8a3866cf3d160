/** Keys in the order of their ranks: what ORDER BY gives. */
module Ranked {
  type Rank = (int, int)

  predicate Below(a: Rank, b: Rank) {
    a.0 < b.0 || (a.0 == b.0 && a.1 < b.1)
  }

  /** No ties. */
  ghost predicate Strict<K>(m: map<K, Rank>) {
    forall j, k :: j in m && k in m && j != k ==> m[j] != m[k]
  }

  ghost predicate IsListing<K>(m: map<K, Rank>, l: seq<K>) {
    && (forall k :: k in m ==> k in l) && (forall k :: k in l ==> k in m)
    && forall i, j :: 0 <= i < j < |l| ==> Below(m[l[i]], m[l[j]])
  }

  /** The one list of m's keys in order. */
  ghost function Listing<K>(m: map<K, Rank>): (l: seq<K>)
    requires Strict(m)
    ensures IsListing(m, l)
  {
    ListingExists(m);
    var l :| IsListing(m, l);
    l
  }

  lemma {:induction false} LeastExists<K>(m: map<K, Rank>, keys: set<K>) returns (least: K)
    requires Strict(m) && keys != {} && keys <= m.Keys
    ensures least in keys && forall k :: k in keys && k != least ==> Below(m[least], m[k])
    decreases |keys|
  {
    var some :| some in keys;
    if keys == {some} {
      least := some;
    } else {
      var rest := keys - {some};
      assert keys == rest + {some};
      var other := LeastExists(m, rest);
      least := if Below(m[some], m[other]) then some else other;
    }
  }

  lemma {:induction false} ListingExists<K>(m: map<K, Rank>)
    requires Strict(m)
    ensures exists l :: IsListing(m, l)
    decreases m.Keys
  {
    if m == map[] {
      assert IsListing(m, []);
    } else {
      var least := LeastExists(m, m.Keys);
      var rest := m - {least};
      assert least !in rest;
      ListingExists(rest);
      var l :| IsListing(rest, l);
      forall j | j in l
        ensures Below(m[least], m[j])
      {
        assert j in rest;
      }
      ConsListing(m, least, l);
    }
  }

  lemma {:induction false} ListingIsUnique<K>(m: map<K, Rank>, a: seq<K>, b: seq<K>)
    requires IsListing(m, a) && IsListing(m, b)
    ensures a == b
    decreases |a|
  {
    assert |b| > 0 ==> b[0] in b && b[0] in m;
    if a != [] {
      assert a[0] in m && a[0] in b;
      assert b[0] in a;
      assert a[0] == b[0];
      var rest := m - {a[0]};
      RestIsListing(m, a);
      RestIsListing(m, b);
      ListingIsUnique(rest, a[1..], b[1..]);
      assert a == [a[0]] + a[1..] && b == [b[0]] + b[1..];
    }
  }

  lemma RestIsListing<K>(m: map<K, Rank>, l: seq<K>)
    requires IsListing(m, l) && l != []
    ensures IsListing(m - {l[0]}, l[1..])
  {
  }

  lemma HeadIsListed<K>(l: seq<K>)
    ensures l != [] ==> l[0] in l
  {
  }

  lemma NothingListed<K>(m: map<K, Rank>, l: seq<K>)
    requires IsListing(m, l) && m == map[]
    ensures l == []
  {
    HeadIsListed(l);
  }

  /** l without k. */
  function Without<K(==)>(l: seq<K>, k: K): seq<K> {
    if l == [] then [] else if l[0] == k then Without(l[1..], k) else [l[0]] + Without(l[1..], k)
  }

  lemma {:induction false} WithoutMembers<K>(l: seq<K>, k: K)
    ensures forall j :: j in Without(l, k) <==> j in l && j != k
  {
    if l != [] {
      WithoutMembers(l[1..], k);
      assert l == [l[0]] + l[1..];
    }
  }

  lemma ConsListing<K>(m: map<K, Rank>, first: K, l: seq<K>)
    requires first in m && IsListing(m - {first}, l)
    requires forall j :: j in l ==> Below(m[first], m[j])
    ensures IsListing(m, [first] + l)
  {
  }

  lemma {:induction false} WithoutListing<K>(m: map<K, Rank>, l: seq<K>, k: K)
    requires IsListing(m, l)
    ensures IsListing(m - {k}, Without(l, k))
    decreases |l|
  {
    if l != [] {
      var first, rest := l[0], l[1..];
      RestIsListing(m, l);
      WithoutListing(m - {first}, rest, k);
      if first == k {
        assert m - {first} - {k} == m - {k};
      } else {
        WithoutMembers(rest, k);
        FirstIsBelow(m, l);
        assert m - {first} - {k} == m - {k} - {first};
        ConsListing(m - {k}, first, Without(rest, k));
      }
    }
  }

  lemma FirstIsBelow<K>(m: map<K, Rank>, l: seq<K>)
    requires IsListing(m, l) && l != []
    ensures l[0] in m && forall j :: j in l[1..] ==> j in m && Below(m[l[0]], m[j])
  {
  }
}

/** The ordered tables of tools and directories: rows with a position, listed by it. */
module OrderedTables {
  import opened Ranked

  /** The position of each row. */
  type Rows = map<nat, int>

  /** ORDER BY position, id. */
  ghost function Ranks(rows: Rows): (m: map<nat, Rank>)
    ensures Strict(m)
  {
    map id | id in rows :: (rows[id], id)
  }

  ghost function Shown(rows: Rows): seq<nat> {
    Listing(Ranks(rows))
  }

  /** COALESCE(MAX(position), 0). */
  ghost predicate IsMax(rows: Rows, max: int) {
    && (rows == map[] ==> max == 0)
    && (rows != map[] ==> max in rows.Values)
    && forall id :: id in rows ==> rows[id] <= max
  }

  predicate Distinct(ids: seq<nat>) {
    forall i, j :: 0 <= i < j < |ids| ==> ids[i] != ids[j]
  }

  /** Every existing ID exactly once. */
  ghost predicate Permutes(ids: seq<nat>, rows: Rows) {
    Distinct(ids) && forall id :: id in ids <==> id in rows
  }

  ghost predicate Numbered(rows: Rows, rows': Rows, ids: seq<nat>) {
    && rows'.Keys == rows.Keys
    && forall i :: 0 <= i < |ids| ==> ids[i] in rows' && rows'[ids[i]] == i + 1
  }

  function Members(ids: seq<nat>): set<nat> {
    set id | id in ids
  }

  lemma {:induction false} DistinctCounts(ids: seq<nat>)
    requires Distinct(ids)
    ensures |Members(ids)| == |ids|
  {
    if ids == [] {
      assert Members(ids) == {};
    } else {
      var init, last := ids[..|ids| - 1], ids[|ids| - 1];
      DistinctCounts(init);
      assert forall id :: id in init ==> id != last;
      assert Members(ids) == Members(init) + {last};
    }
  }

  lemma PermutesCounts(ids: seq<nat>, rows: Rows)
    ensures Permutes(ids, rows) ==> |ids| == |rows.Keys|
  {
    if Permutes(ids, rows) {
      DistinctCounts(ids);
      SameMembers(Members(ids), rows.Keys);
    }
  }

  lemma SameMembers(a: set<nat>, b: set<nat>)
    requires forall id :: id in a <==> id in b
    ensures a == b
  {
  }

  /** The rows, and how many were ever made. */
  class Table {
    var rows: Rows
    var nextID: nat

    ghost predicate Valid()
      reads this
    {
      forall id :: id in rows ==> id < nextID
    }

    /** The largest position; the query's own loop is the database's. */
    method MaxPosition() returns (max: int)
      ensures IsMax(rows, max)
    {
      max := 0;
      var ids, first := rows.Keys, true;
      while ids != {}
        invariant ids <= rows.Keys
        invariant first <==> ids == rows.Keys
        invariant first ==> max == 0
        invariant !first ==> max in rows.Values
        invariant forall id :: id in rows && id !in ids ==> rows[id] <= max
        decreases |ids|
      {
        var id :| id in ids;
        max := if first || rows[id] > max then rows[id] else max;
        first := false;
        ids := ids - {id};
      }
    }

    method InsertOrdered() returns (id: nat)
      requires Valid()
      modifies this
      ensures Valid() && id == old(nextID) && nextID == id + 1
      ensures exists max :: IsMax(old(rows), max) && rows == old(rows)[id := max + 1]
      ensures old(rows) == map[] ==> rows == map[id := 1]
      ensures forall other :: other in old(rows) ==> other in rows && rows[other] == old(rows)[other] < rows[id]
      ensures old(rows) != map[] ==> exists last :: last in old(rows) && rows[id] == old(rows)[last] + 1
    {
      var max := MaxPosition();
      assert old(rows) != map[] ==> exists last :: last in old(rows) && old(rows)[last] == max;
      id := nextID;
      rows := rows[id := max + 1];
      nextID := id + 1;
    }

    method Delete(id: nat)
      requires Valid()
      modifies this`rows
      ensures Valid() && rows == old(rows) - {id}
    {
      rows := rows - {id};
    }

    method CheckIDSet(ids: seq<nat>) returns (ok: bool)
      ensures ok <==> Permutes(ids, rows)
    {
      var existing := rows.Keys;
      if |ids| != |existing| {
        PermutesCounts(ids, rows);
        return false;
      }
      assert |ids| == |rows.Keys|;
      for i := 0 to |ids|
        invariant Distinct(ids[..i]) && forall id :: id in ids[..i] ==> id in rows
        invariant existing == rows.Keys - Members(ids[..i])
      {
        if ids[i] !in existing {
          assert ids[i] in ids;
          return false;
        }
        assert ids[..i + 1] == ids[..i] + [ids[i]];
        existing := existing - {ids[i]};
      }
      assert ids[..|ids|] == ids;
      DistinctCounts(ids);
      SameSize(Members(ids), rows.Keys);
      ok := true;
    }

    lemma SameSize(some: set<nat>, all: set<nat>)
      requires some <= all && |some| == |all|
      ensures some == all
    {
      assert all == some + (all - some);
    }

    /** All or nothing: an order that is not the table's changes no row. */
    method Reorder(ids: seq<nat>) returns (ok: bool)
      requires Valid()
      modifies this`rows
      ensures Valid() && (ok <==> Permutes(ids, old(rows)))
      ensures ok ==> Numbered(old(rows), rows, ids)
      ensures ok ==> rows.Keys == old(rows).Keys && forall i :: 0 <= i < |ids| ==> rows[ids[i]] == i + 1
      ensures !ok ==> rows == old(rows)
    {
      ok := CheckIDSet(ids);
      if !ok {
        return;
      }
      for i := 0 to |ids|
        invariant rows.Keys == old(rows).Keys
        invariant forall k :: 0 <= k < i ==> ids[k] in rows && rows[ids[k]] == k + 1
      {
        rows := rows[ids[i] := i + 1];
      }
    }
  }

  // --------------------------------------------------------------- against a plain list

  datatype Op = Create(id: nat) | Delete(id: nat) | Reorder(ids: seq<nat>)

  /** What an operation does to the rows, as the methods above promise. */
  ghost predicate Does(rows: Rows, op: Op, rows': Rows) {
    match op
    case Create(id) => id !in rows && exists max :: IsMax(rows, max) && rows' == rows[id := max + 1]
    case Delete(id) => rows' == rows - {id}
    case Reorder(ids) => if Permutes(ids, rows) then Numbered(rows, rows', ids) else rows' == rows
  }

  /** The same operation on a list of IDs. */
  function OnList(l: seq<nat>, op: Op): seq<nat> {
    match op
    case Create(id) => l + [id]
    case Delete(id) => Without(l, id)
    case Reorder(ids) => if multiset(ids) == multiset(l) then ids else l
  }

  lemma CreateAppends(rows: Rows, id: nat, max: int, rows': Rows)
    requires id !in rows && IsMax(rows, max) && rows' == rows[id := max + 1]
    ensures Shown(rows') == Shown(rows) + [id]
  {
    var m, m', l := Ranks(rows), Ranks(rows'), Shown(rows);
    assert forall i :: 0 <= i < |l| ==> l[i] in l && l[i] in m && l[i] in rows;
    assert IsListing(m', l + [id]);
    ListingIsUnique(m', Shown(rows'), l + [id]);
  }

  lemma RanksWithout(rows: Rows, id: nat)
    ensures Ranks(rows - {id}) == Ranks(rows) - {id}
  {
  }

  lemma DeleteRemoves(rows: Rows, id: nat)
    ensures Shown(rows - {id}) == Without(Shown(rows), id)
  {
    WithoutListing(Ranks(rows), Shown(rows), id);
    RanksWithout(rows, id);
    ListingIsUnique(Ranks(rows - {id}), Shown(rows - {id}), Without(Shown(rows), id));
  }

  lemma ReorderShows(rows: Rows, ids: seq<nat>, rows': Rows)
    requires Permutes(ids, rows) && Numbered(rows, rows', ids)
    ensures Shown(rows') == ids
  {
    assert forall i :: 0 <= i < |ids| ==> ids[i] in ids;
    assert IsListing(Ranks(rows'), ids);
    ListingIsUnique(Ranks(rows'), Shown(rows'), ids);
  }

  lemma ShownIsDistinct(rows: Rows)
    ensures Distinct(Shown(rows)) && forall id :: id in Shown(rows) <==> id in rows
  {
  }

  lemma {:induction false} DistinctMultiset(l: seq<nat>, id: nat)
    requires Distinct(l)
    ensures multiset(l)[id] == if id in l then 1 else 0
  {
    if l != [] {
      var init, last := l[..|l| - 1], l[|l| - 1];
      DistinctMultiset(init, id);
      assert l == init + [last];
    }
  }

  lemma Rearranged(ids: seq<nat>, l: seq<nat>)
    requires Distinct(ids) && Distinct(l) && forall id :: id in ids <==> id in l
    ensures multiset(ids) == multiset(l)
  {
    var mine, shown: multiset<nat> := multiset(ids), multiset(l);
    forall id: nat
      ensures mine[id] == shown[id]
    {
      DistinctMultiset(ids, id);
      DistinctMultiset(l, id);
    }
  }

  lemma Repeated(ids: seq<nat>, i: nat, j: nat)
    requires i < j < |ids| && ids[i] == ids[j]
    ensures multiset(ids)[ids[i]] >= 2
  {
    var a, b := ids[..j], ids[j..];
    assert ids == a + b;
    assert a[i] in multiset(a) && b[0] in multiset(b);
  }

  lemma RearrangedIsDistinct(ids: seq<nat>, l: seq<nat>)
    requires multiset(ids) == multiset(l) && Distinct(l)
    ensures Distinct(ids)
  {
    forall i, j | 0 <= i < j < |ids|
      ensures ids[i] != ids[j]
    {
      DistinctMultiset(l, ids[i]);
      if ids[i] == ids[j] { Repeated(ids, i, j); }
    }
  }

  /** An accepted order is exactly a rearrangement of the list as shown. */
  lemma PermutesIffRearranges(rows: Rows, ids: seq<nat>)
    ensures Permutes(ids, rows) <==> multiset(ids) == multiset(Shown(rows))
  {
    var l := Shown(rows);
    ShownIsDistinct(rows);
    if Permutes(ids, rows) {
      Rearranged(ids, l);
    }
    if multiset(ids) == multiset(l) {
      RearrangedIsDistinct(ids, l);
      assert forall id :: (id in ids <==> id in multiset(ids)) && (id in l <==> id in multiset(l));
    }
  }

  lemma OpRefines(rows: Rows, op: Op, rows': Rows)
    requires Does(rows, op, rows')
    ensures Shown(rows') == OnList(Shown(rows), op)
  {
    match op
    case Create(id) =>
      var max :| IsMax(rows, max) && rows' == rows[id := max + 1];
      CreateAppends(rows, id, max, rows');
    case Delete(id) => DeleteRemoves(rows, id);
    case Reorder(ids) =>
      PermutesIffRearranges(rows, ids);
      if Permutes(ids, rows) { ReorderShows(rows, ids, rows'); }
  }

  function ListAfter(l: seq<nat>, ops: seq<Op>): seq<nat> {
    if ops == [] then l else OnList(ListAfter(l, ops[..|ops| - 1]), ops[|ops| - 1])
  }

  /** Over any run of operations, what the table shows is what the plain list holds. */
  lemma {:induction false} TableRefinesList(tables: seq<Rows>, ops: seq<Op>)
    requires |tables| == |ops| + 1
    requires forall i :: 0 <= i < |ops| ==> Does(tables[i], ops[i], tables[i + 1])
    ensures Shown(tables[|ops|]) == ListAfter(Shown(tables[0]), ops)
  {
    if ops != [] {
      var n := |ops| - 1;
      TableRefinesList(tables[..|ops|], ops[..n]);
      OpRefines(tables[n], ops[n], tables[n + 1]);
    }
  }
}

/** The subdirectories remembered for each directory, newest first. */
module SubdirHistory {
  import opened Ranked
  import opened Text

  const LIMIT := 10

  /** used_at of each subdirectory of one directory. */
  type Used = map<string, int>

  ghost function Ranks(used: Used): map<string, Rank> {
    map sub | sub in used :: (-used[sub], 0)
  }

  /** Launches have been stamped at different times, all before now. */
  ghost predicate Stamped(used: Used, now: int) {
    && (forall a, b :: a in used && b in used && a != b ==> used[a] != used[b])
    && forall a :: a in used ==> used[a] < now
  }

  /** ORDER BY used_at DESC. */
  ghost function Newest(used: Used): seq<string>
    requires Strict(Ranks(used))
  {
    Listing(Ranks(used))
  }

  function Cut(l: seq<string>): seq<string> {
    if |l| <= LIMIT then l else l[..LIMIT]
  }

  /** The upsert, then the delete of all but the newest. */
  ghost function Recorded(used: Used, sub: string, now: int): Used
    requires Stamped(used, now)
  {
    var more := used[sub := now];
    var kept := Cut(Newest(more));
    map s | s in more && s in kept :: more[s]
  }

  /** Moved or put in front, and cut. */
  function MovedToFront(l: seq<string>, sub: string): seq<string> {
    Cut([sub] + Without(l, sub))
  }

  lemma SameRest(used: Used, sub: string, now: int)
    ensures Ranks(used[sub := now]) - {sub} == Ranks(used) - {sub}
  {
  }

  lemma NewFront(used: Used, sub: string, now: int)
    requires Stamped(used, now)
    ensures IsListing(Ranks(used[sub := now]), [sub] + Without(Newest(used), sub))
  {
    var m, rest := Ranks(used[sub := now]), Without(Newest(used), sub);
    WithoutListing(Ranks(used), Newest(used), sub);
    SameRest(used, sub, now);
    forall k | k in rest
      ensures Below(m[sub], m[k])
    {
      assert k in m - {sub};
    }
    ConsListing(m, sub, rest);
  }

  /** One launch: the history shows the subdirectory in front, the others behind it in
      their old order, never more than ten. */
  lemma RecordMovesToFront(used: Used, sub: string, now: int)
    requires Stamped(used, now)
    ensures Stamped(Recorded(used, sub, now), now + 1)
    ensures Newest(Recorded(used, sub, now)) == MovedToFront(Newest(used), sub)
    ensures |Newest(Recorded(used, sub, now))| <= LIMIT
  {
    var more, kept := used[sub := now], Recorded(used, sub, now);
    NewFront(used, sub, now);
    var l := [sub] + Without(Newest(used), sub);
    ListingIsUnique(Ranks(more), Newest(more), l);
    CutListing(more, l, kept);
    ListingIsUnique(Ranks(kept), Newest(kept), Cut(l));
  }

  lemma CutListing(more: Used, l: seq<string>, kept: Used)
    requires IsListing(Ranks(more), l) && kept == map s | s in more && s in Cut(l) :: more[s]
    ensures IsListing(Ranks(kept), Cut(l))
  {
  }

  /** What a launch does to the history as shown; a blank subdirectory is none. */
  function Launched(l: seq<string>, subdir: string): seq<string> {
    if Trim(subdir) == "" then l else MovedToFront(l, Trim(subdir))
  }

  lemma NewestHead(used: Used, now: int, latest: string)
    requires Stamped(used, now) && latest in used
    requires forall s :: s in used && s != latest ==> used[s] < used[latest]
    ensures Stamped(used - {latest}, now) && Newest(used) == [latest] + Newest(used - {latest})
  {
    var rest := used - {latest};
    var m, l := Ranks(used), Newest(rest);
    RanksWithout(used, latest);
    forall k | k in l
      ensures Below(m[latest], m[k])
    {
      assert k in Ranks(rest);
    }
    ConsListing(m, latest, l);
    ListingIsUnique(m, Newest(used), [latest] + l);
  }

  /** What is listed so far and what is left, after the newest of the rest has moved over. */
  lemma OneMore(rest: Used, now: int, latest: string, l: seq<string>)
    requires Stamped(rest, now) && latest in rest
    requires forall s :: s in rest && s != latest ==> rest[s] < rest[latest]
    ensures Stamped(rest - {latest}, now) && l + Newest(rest) == l + [latest] + Newest(rest - {latest})
  {
    NewestHead(rest, now, latest);
    assert l + ([latest] + Newest(rest - {latest})) == l + [latest] + Newest(rest - {latest});
  }

  lemma RanksWithout(used: Used, sub: string)
    ensures Ranks(used - {sub}) == Ranks(used) - {sub}
  {
  }

  /** The history of one directory. */
  class Subdirs {
    var used: Used
    var clock: int

    /** One directory's newest subdirectory. */
    static method Latest(rows: Used, ghost now: int) returns (latest: string)
      requires rows != map[] && Stamped(rows, now)
      ensures latest in rows && forall s :: s in rows && s != latest ==> rows[s] < rows[latest]
    {
      var left := rows.Keys;
      latest :| latest in left;
      left := left - {latest};
      while left != {}
        invariant left <= rows.Keys && latest in rows && latest !in left
        invariant forall s :: s in rows && s != latest && s !in left ==> rows[s] < rows[latest]
        decreases |left|
      {
        var s :| s in left;
        left := left - {s};
        if rows[s] > rows[latest] {
          latest := s;
        }
      }
    }

    /** SELECT subdir ... ORDER BY used_at DESC LIMIT 10. */
    method ListSubdirs() returns (l: seq<string>)
      requires Stamped(used, clock)
      ensures l == Cut(Newest(used))
    {
      l := [];
      var rest := used;
      while rest != map[] && |l| < LIMIT
        invariant Stamped(rest, clock) && Newest(used) == l + Newest(rest) && |l| <= LIMIT
        decreases LIMIT - |l|
      {
        var latest := Latest(rest, clock);
        OneMore(rest, clock, latest, l);
        l := l + [latest];
        rest := rest - {latest};
      }
      if rest == map[] {
        NothingListed(Ranks(rest), Newest(rest));
      }
    }

    /** Remember a launch; the clock moves on. */
    method RecordSubdir(subdir: string)
      requires Stamped(used, clock)
      modifies this
      ensures clock == old(clock) + 1 && Stamped(used, clock)
      ensures Newest(used) == Launched(old(Newest(used)), subdir)
      ensures old(|Newest(used)|) <= LIMIT ==> |Newest(used)| <= LIMIT
    {
      var sub := Trim(subdir);
      if sub == "" {
        clock := clock + 1;
        return;
      }
      RecordMovesToFront(used, sub, clock);
      ghost var before := used;
      used := used[sub := clock];
      clock := clock + 1;
      var kept := ListSubdirs();
      used := map s | s in used && s in kept :: used[s];
      assert used == Recorded(before, sub, old(clock));
    }

    /** Forgetting what is already gone is no error. */
    method DeleteSubdir(sub: string)
      requires Stamped(used, clock)
      modifies this`used
      ensures Stamped(used, clock) && Newest(used) == Without(old(Newest(used)), sub)
    {
      WithoutListing(Ranks(used), Newest(used), sub);
      RanksWithout(used, sub);
      ListingIsUnique(Ranks(used - {sub}), Newest(used - {sub}), Without(Newest(used), sub));
      used := used - {sub};
    }
  }

  // ----------------------------------------------------------------- runs of launches

  ghost function RecordOne(used: Used, subdir: string, now: int): (used': Used)
    requires Stamped(used, now)
    ensures Stamped(used', now + 1) && Newest(used') == Launched(Newest(used), subdir)
  {
    var sub := Trim(subdir);
    if sub == "" then used
    else
      RecordMovesToFront(used, sub, now);
      Recorded(used, sub, now)
  }

  ghost function RecordedAll(used: Used, subs: seq<string>, now: int): (used': Used)
    requires Stamped(used, now)
    ensures Stamped(used', now + |subs|)
  {
    if subs == [] then used
    else RecordOne(RecordedAll(used, subs[..|subs| - 1], now), subs[|subs| - 1], now + |subs| - 1)
  }

  function LaunchedAll(l: seq<string>, subs: seq<string>): seq<string> {
    if subs == [] then l else Launched(LaunchedAll(l, subs[..|subs| - 1]), subs[|subs| - 1])
  }

  /** Any run of launches shows what moving to the front of a plain list of ten gives. */
  lemma {:induction false} HistoryRefinesList(used: Used, subs: seq<string>, now: int)
    requires Stamped(used, now)
    ensures Newest(RecordedAll(used, subs, now)) == LaunchedAll(Newest(used), subs)
  {
    if subs != [] {
      HistoryRefinesList(used, subs[..|subs| - 1], now);
    }
  }
}

/** What every step of the arbiter keeps: the reference counts agree with the
    connections, a registered handle is never stale, and the shared window is only
    ever sized by its owner. */
module ArbiterInvariant {
  import opened Options
  import opened ArbiterState

  // ---------------------------------------------------------------- counting

  predicate Holds(conn: Conn, r: nat) {
    !conn.unregistered && conn.record == r
  }

  /** How many registered connections hold record r. */
  function Attached(conns: seq<Conn>, r: nat): nat {
    if conns == [] then 0
    else Attached(conns[..|conns| - 1], r) + if Holds(conns[|conns| - 1], r) then 1 else 0
  }

  /** How many of them belong to `client`. */
  function AttachedBy(conns: seq<Conn>, r: nat, client: string): nat {
    if conns == [] then 0
    else
      var last := conns[|conns| - 1];
      AttachedBy(conns[..|conns| - 1], r, client) + if Holds(last, r) && last.clientID == client then 1 else 0
  }

  ghost function Sum(live: map<string, int>): int
    decreases |live|
  {
    if live == map[] then 0 else var k :| k in live; live[k] + Sum(live - {k})
  }

  lemma {:induction false} SumWithout(live: map<string, int>, k: string)
    requires k in live
    ensures Sum(live) == live[k] + Sum(live - {k})
    decreases |live|
  {
    var j :| j in live && Sum(live) == live[j] + Sum(live - {j});
    if j != k {
      SumWithout(live - {j}, k);
      SumWithout(live - {k}, j);
      assert live - {j} - {k} == live - {k} - {j};
    }
  }

  lemma SumUpdate(live: map<string, int>, k: string, v: int)
    ensures Sum(live[k := v]) == Sum(live) - Count(live, k) + v
  {
    SumWithout(live[k := v], k);
    if k in live {
      SumWithout(live, k);
      assert live[k := v] - {k} == live - {k};
    } else {
      assert live[k := v] - {k} == live;
    }
  }

  lemma {:induction false} AttachedUpdate(conns: seq<Conn>, c: nat, conn: Conn, r: nat, client: string)
    requires c < |conns|
    ensures Attached(conns[c := conn], r)
         == Attached(conns, r) - (if Holds(conns[c], r) then 1 else 0) + (if Holds(conn, r) then 1 else 0)
    ensures AttachedBy(conns[c := conn], r, client)
         == AttachedBy(conns, r, client)
            - (if Holds(conns[c], r) && conns[c].clientID == client then 1 else 0)
            + (if Holds(conn, r) && conn.clientID == client then 1 else 0)
  {
    var n := |conns| - 1;
    if c == n {
      assert conns[c := conn][..n] == conns[..n];
    } else {
      assert conns[c := conn][..n] == conns[..n][c := conn];
      AttachedUpdate(conns[..n], c, conn, r, client);
    }
  }

  lemma AttachedAppend(conns: seq<Conn>, conn: Conn, r: nat, client: string)
    ensures Attached(conns + [conn], r) == Attached(conns, r) + (if Holds(conn, r) then 1 else 0)
    ensures AttachedBy(conns + [conn], r, client)
         == AttachedBy(conns, r, client) + (if Holds(conn, r) && conn.clientID == client then 1 else 0)
  {
  }

  lemma {:induction false} AttachedWitness(conns: seq<Conn>, c: nat, r: nat)
    requires c < |conns| && Holds(conns[c], r)
    ensures AttachedBy(conns, r, conns[c].clientID) > 0 && Attached(conns, r) > 0
  {
    if c < |conns| - 1 {
      AttachedWitness(conns[..|conns| - 1], c, r);
    }
  }

  lemma {:induction false} NobodyAttached(conns: seq<Conn>, r: nat, client: string)
    requires forall c :: 0 <= c < |conns| ==> !Holds(conns[c], r)
    ensures Attached(conns, r) == AttachedBy(conns, r, client) == 0
  {
    if conns != [] {
      NobodyAttached(conns[..|conns| - 1], r, client);
    }
  }

  // --------------------------------------------------------------- invariant

  /** refs and live of a record are exactly what the registered connections that
      hold it make them, and no client is listed with nothing attached. */
  ghost predicate Accounts(s: Record, conns: seq<Conn>, r: nat) {
    && s.refs == Attached(conns, r) == Sum(s.live)
    && (forall k :: Count(s.live, k) == AttachedBy(conns, r, k))
    && (forall k :: k in s.live ==> s.live[k] > 0)
  }

  /** A registered connection holds the very record its name maps to. */
  predicate Attaches(st: State, c: nat)
    requires c < |st.conns|
  {
    st.conns[c].unregistered || !Stale(st, c)
  }

  /** Whoever holds the resizeMu is a registered connection, and if the call sizes
      the window it does so for the owner. */
  predicate HolderOwns(st: State, r: nat)
    requires Indexed(st) && r < |st.records|
  {
    var s := st.records[r];
    s.held.Some? ==>
      var conn := st.conns[s.held.value.conn];
      Holds(conn, r) && (s.held.value.window ==> conn.clientID == s.ownerID)
  }

  predicate Ends(e: Entry, name: string) {
    e.Forgotten? && name in e.names
  }

  /** The owner the history gives `name`. */
  function OwnerIn(log: seq<Entry>, name: string): string {
    if log == [] then "" else OwnerAfter(OwnerIn(log[..|log| - 1], name), log[|log| - 1], name)
  }

  function OwnerAfter(owner: string, e: Entry, name: string): string {
    if e.Owned? && e.name == name then e.client else if Ends(e, name) then "" else owner
  }

  /** The client that last sized the window of `name`. */
  function LastSizer(log: seq<Entry>, name: string): Option<string> {
    if log == [] then None
    else
      var e := log[|log| - 1];
      if e.Sized? && e.name == name then Some(e.client)
      else if Ends(e, name) then None
      else LastSizer(log[..|log| - 1], name)
  }

  /** The window of `name` was sized after it last changed hands. */
  predicate SizedSinceOwned(log: seq<Entry>, name: string) {
    log != [] &&
    var e := log[|log| - 1];
    || (e.Sized? && e.name == name)
    || (!(e.Owned? && e.name == name) && !Ends(e, name) && SizedSinceOwned(log[..|log| - 1], name))
  }

  /** Every resize in the history was made for the owner of that moment, so
      ownership changes reach the window in the order they were decided. */
  predicate OnlyOwnersSize(log: seq<Entry>) {
    forall i :: 0 <= i < |log| && log[i].Sized? ==> OwnerIn(log[..i], log[i].name) == log[i].client
  }

  function OwnerOf(st: State, name: string): string
    requires Indexed(st)
  {
    if name in st.sessions then st.records[st.sessions[name]].ownerID else ""
  }

  ghost predicate Inv(st: State) {
    && Indexed(st)
    && (forall n, m :: n in st.sessions && m in st.sessions && n != m ==> st.sessions[n] != st.sessions[m])
    && (forall c :: 0 <= c < |st.conns| ==> Attaches(st, c))
    && (forall r :: 0 <= r < |st.records| ==> Accounts(st.records[r], st.conns, r))
    && (forall r :: 0 <= r < |st.records| ==> HolderOwns(st, r))
    && (forall n :: OwnerOf(st, n) == OwnerIn(st.log, n))
    && OnlyOwnersSize(st.log)
  }

  lemma InitInv()
    ensures Inv(INITIAL)
  {
  }

  lemma LogAppend(log: seq<Entry>, e: Entry, name: string)
    requires OnlyOwnersSize(log)
    requires e.Sized? ==> OwnerIn(log, e.name) == e.client
    ensures OnlyOwnersSize(log + [e])
    ensures OwnerIn(log + [e], name) == OwnerAfter(OwnerIn(log, name), e, name)
  {
    var all := log + [e];
    assert all[..|log|] == log;
    forall i | 0 <= i < |all| && all[i].Sized?
      ensures OwnerIn(all[..i], all[i].name) == all[i].client
    {
      assert all[..i] == log[..i];
    }
  }

  // ------------------------------------------------------ accounts, one record

  lemma Joins(s: Record, conns: seq<Conn>, conn: Conn, r: nat)
    requires Accounts(s, conns, r)
    ensures Accounts(if Holds(conn, r) then Joined(s, conn.clientID) else s, conns + [conn], r)
  {
    SumUpdate(s.live, conn.clientID, Count(s.live, conn.clientID) + 1);
    AttachedAppend(conns, conn, r, conn.clientID);
    forall k
      ensures AttachedBy(conns + [conn], r, k)
           == AttachedBy(conns, r, k) + (if Holds(conn, r) && conn.clientID == k then 1 else 0)
    {
      AttachedAppend(conns, conn, r, k);
    }
  }

  lemma Resized(s: Record, conns: seq<Conn>, c: nat, conn: Conn, r: nat)
    requires c < |conns| && Accounts(s, conns, r)
    requires conn.unregistered == conns[c].unregistered
    requires conn.record == conns[c].record && conn.clientID == conns[c].clientID
    ensures Accounts(s, conns[c := conn], r)
  {
    AttachedUpdate(conns, c, conn, r, "");
    forall k
      ensures AttachedBy(conns[c := conn], r, k) == AttachedBy(conns, r, k)
    {
      AttachedUpdate(conns, c, conn, r, k);
    }
  }

  lemma Leaves(s: Record, conns: seq<Conn>, c: nat, r: nat, now: int)
    requires c < |conns| && !conns[c].unregistered && Accounts(s, conns, r)
    ensures Accounts(if conns[c].record == r then Left(s, conns[c].clientID, now) else s,
                     conns[c := conns[c].(unregistered := true)], r)
  {
    var gone := conns[c].(unregistered := true);
    var client := gone.clientID;
    AttachedUpdate(conns, c, gone, r, client);
    forall k
      ensures AttachedBy(conns[c := gone], r, k)
           == AttachedBy(conns, r, k) - (if Holds(conns[c], r) && client == k then 1 else 0)
    {
      AttachedUpdate(conns, c, gone, r, k);
    }
    if conns[c].record == r {
      AttachedWitness(conns, c, r);
      assert Count(s.live, client) == AttachedBy(conns, r, client);
      SumUpdate(s.live, client, Count(s.live, client) - 1);
      SumWithout(s.live, client);
      var s', conns' := Left(s, client, now), conns[c := gone];
      assert s'.refs == Attached(conns', r) == Sum(s'.live);
      forall k
        ensures Count(s'.live, k) == AttachedBy(conns', r, k)
      {
        assert Count(s.live, k) == AttachedBy(conns, r, k);
      }
    }
  }

  // ------------------------------------------------------------ step by step

  lemma RegisterAccounts(st: State, name: string, client: string, policy: SizePolicy)
    requires Inv(st)
    ensures
      var st' := RegisterNext(st, name, client, policy);
      forall r :: 0 <= r < |st'.records| ==> Accounts(st'.records[r], st'.conns, r)
  {
    var st' := RegisterNext(st, name, client, policy);
    var conn := st'.conns[|st.conns|];
    forall r | 0 <= r < |st'.records|
      ensures Accounts(st'.records[r], st'.conns, r)
    {
      var s := if r < |st.records| then st.records[r] else Record(0, map[], "", 0, None);
      if r == |st.records| {
        NobodyAttached(st.conns, r, "");
        forall k ensures AttachedBy(st.conns, r, k) == 0 { NobodyAttached(st.conns, r, k); }
      }
      Joins(s, st.conns, conn, r);
    }
  }

  lemma RegisterHandles(st: State, name: string, client: string, policy: SizePolicy)
    requires Inv(st)
    ensures
      var st' := RegisterNext(st, name, client, policy);
      && Indexed(st')
      && (forall r :: 0 <= r < |st'.records| ==> HolderOwns(st', r))
      && (forall c :: 0 <= c < |st'.conns| ==> Attaches(st', c))
  {
    var st' := RegisterNext(st, name, client, policy);
    forall r | 0 <= r < |st'.records|
      ensures HolderOwns(st', r)
    {
      assert r < |st.records| ==> HolderOwns(st, r);
    }
    forall c | 0 <= c < |st'.conns|
      ensures Attaches(st', c)
    {
      assert c < |st.conns| ==> Attaches(st, c);
    }
  }

  lemma RegisterKeeps(st: State, name: string, client: string, policy: SizePolicy)
    requires Inv(st)
    ensures Inv(RegisterNext(st, name, client, policy))
  {
    RegisterAccounts(st, name, client, policy);
    RegisterHandles(st, name, client, policy);
    var st' := RegisterNext(st, name, client, policy);
    forall n
      ensures OwnerOf(st', n) == OwnerIn(st'.log, n)
    {
      assert OwnerOf(st, n) == OwnerIn(st.log, n);
    }
  }

  lemma UnregisterKeeps(st: State, c: nat, now: int)
    requires Inv(st) && Enabled(st, Unregister(c, now))
    ensures Inv(UnregisterNext(st, c, now))
  {
    var st' := UnregisterNext(st, c, now);
    if !st.conns[c].unregistered {
      assert Attaches(st, c);
      forall r | 0 <= r < |st'.records|
        ensures Accounts(st'.records[r], st'.conns, r) && HolderOwns(st', r)
      {
        Leaves(st.records[r], st.conns, c, r, now);
        assert HolderOwns(st, r);
      }
      forall d | 0 <= d < |st'.conns|
        ensures Attaches(st', d)
      {
        assert Attaches(st, d);
      }
      forall n
        ensures OwnerOf(st', n) == OwnerIn(st'.log, n)
      {
        assert OwnerOf(st, n) == OwnerIn(st.log, n);
      }
    }
  }

  /** A pruned record has no registered connection and no resize in flight. */
  lemma PruneKeeps(st: State, alive: set<string>, now: int)
    requires Inv(st)
    ensures Inv(PruneNext(st, alive, now))
  {
    var st' := PruneNext(st, alive, now);
    forall d | 0 <= d < |st'.conns|
      ensures Attaches(st', d)
    {
      assert Attaches(st, d);
      if !st.conns[d].unregistered {
        AttachedWitness(st.conns, d, st.conns[d].record);
      }
    }
    forall r | 0 <= r < |st'.records|
      ensures HolderOwns(st', r)
    {
      assert HolderOwns(st, r);
    }
    forall n
      ensures OwnerOf(st', n) == OwnerIn(st'.log, n)
    {
      assert OwnerOf(st, n) == OwnerIn(st.log, n);
      LogAppend(st.log, Forgotten(PrunedNames(st, alive)), n);
    }
    LogAppend(st.log, Forgotten(PrunedNames(st, alive)), "");
  }

  /** Giving record r to a client, or leaving it alone, with resizeMu taken for `held`. */
  lemma ClaimKeeps(st: State, st': State, c: nat, owner: string)
    requires Inv(st) && c < |st.conns| && !st.conns[c].unregistered && !Stale(st, c)
    requires
      var conn := st.conns[c];
      && st'.sessions == st.sessions && |st'.conns| == |st.conns|
      && st'.conns == st.conns[c := st'.conns[c]]
      && st'.conns[c] == conn.(cols := st'.conns[c].cols, rows := st'.conns[c].rows)
      && |st'.records| == |st.records|
      && st'.records == st.records[conn.record :=
           st.records[conn.record].(ownerID := owner, held := st'.records[conn.record].held)]
      && (st'.records[conn.record].held.Some? ==>
            st'.records[conn.record].held.value.conn == c
            && (st'.records[conn.record].held.value.window ==> owner == conn.clientID))
      && st'.log == Claimed(st.log, conn.tmuxName, st.records[conn.record].ownerID, owner)
    ensures Inv(st')
  {
    var conn := st.conns[c];
    forall r | 0 <= r < |st'.records|
      ensures Accounts(st'.records[r], st'.conns, r) && HolderOwns(st', r)
    {
      Resized(st.records[r], st.conns, c, st'.conns[c], r);
      assert HolderOwns(st, r);
    }
    forall d | 0 <= d < |st'.conns|
      ensures Attaches(st', d)
    {
      assert Attaches(st, d);
    }
    forall n
      ensures OwnerOf(st', n) == OwnerIn(st'.log, n)
    {
      assert OwnerOf(st, n) == OwnerIn(st.log, n);
      LogAppend(st.log, Owned(conn.tmuxName, owner), n);
    }
    LogAppend(st.log, Owned(conn.tmuxName, owner), "");
  }

  lemma ApplyDoneKeeps(st: State, r: nat, ok: bool)
    requires Inv(st) && r < |st.records| && st.records[r].held.Some?
    ensures Inv(ApplyDoneNext(st, r, ok))
  {
    var st' := ApplyDoneNext(st, r, ok);
    var a := st.records[r].held.value;
    var conn := st.conns[a.conn];
    assert HolderOwns(st, r) && Attaches(st, a.conn);
    var e := Sized(conn.tmuxName, conn.clientID, a.cols, a.rows);
    assert OwnerOf(st, conn.tmuxName) == OwnerIn(st.log, conn.tmuxName);
    forall q | 0 <= q < |st'.records|
      ensures Accounts(st'.records[q], st'.conns, q) && HolderOwns(st', q)
    {
      assert Accounts(st.records[q], st.conns, q) && HolderOwns(st, q);
    }
    forall d | 0 <= d < |st'.conns|
      ensures Attaches(st', d)
    {
      assert Attaches(st, d);
    }
    forall n
      ensures OwnerOf(st', n) == OwnerIn(st'.log, n)
    {
      assert OwnerOf(st, n) == OwnerIn(st.log, n);
      if a.window { LogAppend(st.log, e, n); }
    }
    if a.window { LogAppend(st.log, e, ""); }
  }

  /** Every step keeps the invariant, whatever runs in between. */
  lemma NextInv(st: State, e: Event)
    requires Inv(st) && Enabled(st, e)
    ensures Inv(Next(st, e))
  {
    match e {
      case Register(n, k, p, _) => RegisterKeeps(st, n, k, p);
      case Unregister(c, now) => UnregisterKeeps(st, c, now);
      case Prune(alive, now) => PruneKeeps(st, alive, now);
      case Resize(c, cols, rows, active, now) =>
        if !st.conns[c].unregistered && !Stale(st, c) {
          var st' := Next(st, e);
          ClaimKeeps(st, st', c, st'.records[st.conns[c].record].ownerID);
        }
      case ClaimInput(c, now) =>
        if !st.conns[c].unregistered && !Stale(st, c) {
          var st' := Next(st, e);
          ClaimKeeps(st, st', c, st'.records[st.conns[c].record].ownerID);
        }
      case ApplyDone(r, ok, _) => ApplyDoneKeeps(st, r, ok);
    }
  }
}

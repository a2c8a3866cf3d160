/** Who may take a window from whom, stated over the history of connections and
    human gestures rather than over the arbiter's own timestamps. */
module ArbiterTakeover {
  import opened ArbiterState
  import opened ArbiterInvariant
  import opened ArbiterRuns

  /** Some connection of `client` is registered on record r. */
  predicate Connected(st: State, r: nat, client: string) {
    AttachedBy(st.conns, r, client) > 0
  }

  predicate Apart(run: Run, r: nat, client: string, k: nat, i: nat)
    requires k <= i < |run.states|
  {
    forall j :: k <= j <= i ==> r < |run.states[j].records| && !Connected(run.states[j], r, client)
  }

  /** At state i, `client` has had no connection to r since a step no later than t. */
  ghost predicate AbsentSince(run: Run, r: nat, client: string, i: nat, t: int)
    requires IsRun(run) && i < |run.states|
  {
    exists k :: 1 <= k <= i && run.events[k - 1].now <= t && Apart(run, r, client, k, i)
  }

  /** A person is there: an active resize or a ClaimInput, on any session. */
  predicate Gesture(e: Event) {
    e.ClaimInput? || (e.Resize? && e.active)
  }

  /** The step is a gesture of `client` on a registered connection. */
  predicate GestureBy(st: State, e: Event, client: string)
    requires Indexed(st) && Enabled(st, e)
  {
    Gesture(e) && !st.conns[e.conn].unregistered && st.conns[e.conn].clientID == client
  }

  ghost predicate HumanAt(run: Run, client: string, k: nat)
    requires IsRun(run) && k < |run.events|
  {
    assert StepAt(run, k);
    GestureBy(run.states[k], run.events[k], client)
  }

  ghost predicate HumanSince(run: Run, client: string, i: nat, t: int)
    requires IsRun(run) && i < |run.states|
  {
    exists k :: 0 <= k < i && HumanAt(run, client, k) && run.events[k].now >= t
  }

  // ------------------------------------------------- what the timestamps mean

  lemma LiveIsConnected(run: Run, i: nat, r: nat, client: string)
    requires IsRun(run) && i < |run.states| && r < |run.states[i].records|
    ensures Count(run.states[i].records[r].live, client) == AttachedBy(run.states[i].conns, r, client)
  {
    RunInv(run, i);
    assert Accounts(run.states[i].records[r], run.states[i].conns, r);
  }

  /** The step is made by a registered connection of `client` on record r. */
  predicate ActsOn(st: State, e: Event, r: nat, client: string)
    requires Indexed(st) && Enabled(st, e)
  {
    && (e.Unregister? || e.Resize? || e.ClaimInput?)
    && Holds(st.conns[e.conn], r) && st.conns[e.conn].clientID == client
  }

  /** How one step can change who is live on r and who owns it. */
  lemma RecordStep(st: State, e: Event, r: nat, client: string)
    requires Indexed(st) && Enabled(st, e) && r < |st.records|
    ensures
      var s, st' := st.records[r], Next(st, e);
      && r < |st'.records|
      && var s' := st'.records[r];
      && (Count(s.live, client) > 0 >= Count(s'.live, client) ==>
            e.Unregister? && s'.ownerID == s.ownerID && (s.ownerID == client ==> s'.ownerLeftAt == e.now))
      && (Count(s.live, client) <= 0 && s'.ownerID == client && !ActsOn(st, e, r, client) ==>
            s.ownerID == client && s'.ownerLeftAt == s.ownerLeftAt)
  {
  }

  /** An owner without a connection either left with the last step or was already gone. */
  lemma OwnerGone(run: Run, i: nat, r: nat)
    requires IsRun(run) && 0 < i < |run.states| && r < |run.states[i - 1].records| && r < |run.states[i].records|
    requires !Connected(run.states[i], r, run.states[i].records[r].ownerID)
    ensures
      var st, s' := run.states[i - 1], run.states[i].records[r];
      if Connected(st, r, s'.ownerID) then s'.ownerLeftAt == run.events[i - 1].now
      else st.records[r].ownerID == s'.ownerID && st.records[r].ownerLeftAt == s'.ownerLeftAt
  {
    assert StepAt(run, i - 1);
    var st, e := run.states[i - 1], run.events[i - 1];
    var owner := run.states[i].records[r].ownerID;
    LiveIsConnected(run, i - 1, r, owner);
    LiveIsConnected(run, i, r, owner);
    RecordStep(st, e, r, owner);
    if ActsOn(st, e, r, owner) {
      AttachedWitness(st.conns, e.conn, r);
    }
  }

  lemma OwnedIsOld(run: Run, i: nat, r: nat)
    requires IsRun(run) && i < |run.states| && r < |run.states[i].records|
    requires run.states[i].records[r].ownerID != ""
    ensures 0 < i && r < |run.states[i - 1].records|
  {
    if i > 0 {
      assert StepAt(run, i - 1);
    }
  }

  /** An owner with no connection left by the step stamped ownerLeftAt, and has not
      been back. */
  lemma {:induction false} OwnerLeft(run: Run, i: nat, r: nat) returns (k: nat)
    requires IsRun(run) && i < |run.states| && r < |run.states[i].records|
    requires run.states[i].records[r].ownerID != ""
    requires !Connected(run.states[i], r, run.states[i].records[r].ownerID)
    ensures 1 <= k <= i && run.events[k - 1].now == run.states[i].records[r].ownerLeftAt
    ensures Apart(run, r, run.states[i].records[r].ownerID, k, i)
    ensures r < |run.states[k - 1].records| && Connected(run.states[k - 1], r, run.states[i].records[r].ownerID)
  {
    OwnedIsOld(run, i, r);
    OwnerGone(run, i, r);
    if Connected(run.states[i - 1], r, run.states[i].records[r].ownerID) {
      k := i;
    } else {
      k := OwnerLeft(run, i - 1, r);
    }
  }

  /** What one step does to the record of a client's gestures. */
  lemma PresenceStep(st: State, e: Event, client: string)
    requires Indexed(st) && Enabled(st, e) && (Gesture(e) ==> Attaches(st, e.conn))
    ensures
      var seen, seen' := st.lastHuman, Next(st, e).lastHuman;
      if GestureBy(st, e, client) then client in seen' && seen'[client] == e.now
      else
        && (client in seen' ==> client in seen && seen'[client] == seen[client])
        && (client in seen && seen[client] >= e.now - PRESENCE_WINDOW ==> client in seen')
  {
  }

  /** The same over the last step of a run. */
  lemma PresenceChange(run: Run, i: nat, client: string)
    requires IsRun(run) && 0 < i < |run.states|
    ensures
      var seen, seen', now := run.states[i - 1].lastHuman, run.states[i].lastHuman, run.events[i - 1].now;
      if HumanAt(run, client, i - 1) then client in seen' && seen'[client] == now
      else
        && (client in seen' ==> client in seen && seen'[client] == seen[client])
        && (client in seen && seen[client] >= now - PRESENCE_WINDOW ==> client in seen')
  {
    assert StepAt(run, i - 1);
    RunInv(run, i - 1);
    var st, e := run.states[i - 1], run.events[i - 1];
    assert Gesture(e) ==> Attaches(st, e.conn);
    PresenceStep(st, e, client);
  }

  /** lastHuman names the latest gesture of a client ... */
  lemma {:induction false} HumanRecorded(run: Run, i: nat, client: string) returns (k: nat)
    requires IsRun(run) && i < |run.states| && client in run.states[i].lastHuman
    ensures k < i && HumanAt(run, client, k) && run.events[k].now == run.states[i].lastHuman[client]
  {
    assert i > 0;
    PresenceChange(run, i, client);
    if HumanAt(run, client, i - 1) {
      k := i - 1;
    } else {
      k := HumanRecorded(run, i - 1, client);
    }
  }

  /** ... and only a gesture older than the presence window is ever dropped. */
  lemma {:induction false} HumanKept(run: Run, i: nat, client: string, k: nat)
    requires IsRun(run) && i < |run.states| && k < i && HumanAt(run, client, k)
    ensures
      || (client in run.states[i].lastHuman && run.states[i].lastHuman[client] >= run.events[k].now)
      || run.events[k].now < run.events[i - 1].now - PRESENCE_WINDOW
  {
    PresenceChange(run, i, client);
    if k < i - 1 {
      HumanKept(run, i - 1, client, k);
      assert run.events[i - 2].now <= run.events[i - 1].now && run.events[k].now <= run.events[i - 1].now;
    }
  }

  lemma PresentIffHuman(run: Run, i: nat, client: string)
    requires IsRun(run) && i < |run.events|
    ensures Present(run.states[i].lastHuman, client, run.events[i].now)
       <==> HumanSince(run, client, i, run.events[i].now - PRESENCE_WINDOW)
  {
    var st, now := run.states[i], run.events[i].now;
    if Present(st.lastHuman, client, now) {
      var k := HumanRecorded(run, i, client);
    }
    if HumanSince(run, client, i, now - PRESENCE_WINDOW) {
      var k :| 0 <= k < i && HumanAt(run, client, k) && run.events[k].now >= now - PRESENCE_WINDOW;
      HumanKept(run, i, client, k);
      assert run.events[i - 1].now <= now;
    }
  }

  /** The grace the arbiter measures is a continuous absence of the owner. */
  lemma GraceIffAbsent(run: Run, i: nat, r: nat)
    requires IsRun(run) && i < |run.events| && r < |run.states[i].records|
    requires run.states[i].records[r].ownerID != ""
    ensures
      var s := run.states[i].records[r];
      (Count(s.live, s.ownerID) <= 0 && run.events[i].now - s.ownerLeftAt >= OWNER_GRACE)
      <==> AbsentSince(run, r, s.ownerID, i, run.events[i].now - OWNER_GRACE)
  {
    var s, now := run.states[i].records[r], run.events[i].now;
    LiveIsConnected(run, i, r, s.ownerID);
    if Count(s.live, s.ownerID) <= 0 {
      var k := OwnerLeft(run, i, r);
      if AbsentSince(run, r, s.ownerID, i, now - OWNER_GRACE) {
        var m :| 1 <= m <= i && run.events[m - 1].now <= now - OWNER_GRACE && Apart(run, r, s.ownerID, m, i);
        assert k <= m;
        assert run.events[k - 1].now <= run.events[m - 1].now;
      }
    }
  }

  // ---------------------------------------------------------- main theorems

  /** An ordinary resize by Y takes a window that X owns exactly when Y follows input, X
      has had no connection to that session, without a break, for ownerGrace, and a
      person was at Y, on some session, within presenceWindow. Otherwise X keeps it. */
  lemma OrdinaryTakeoverIff(run: Run, i: nat)
    requires IsRun(run) && i < |run.events|
    requires run.events[i].Resize? && !run.events[i].active
    requires run.events[i].conn < |run.states[i].conns|
    requires
      var conn := run.states[i].conns[run.events[i].conn];
      && !conn.unregistered && conn.record < |run.states[i].records|
      && var owner := run.states[i].records[conn.record].ownerID;
         owner != "" && owner != conn.clientID
    ensures
      var conn := run.states[i].conns[run.events[i].conn];
      var owner := run.states[i].records[conn.record].ownerID;
      var now := run.events[i].now;
      var taken := && conn.policy == FollowInput
                   && AbsentSince(run, conn.record, owner, i, now - OWNER_GRACE)
                   && HumanSince(run, conn.clientID, i, now - PRESENCE_WINDOW);
      && conn.record < |run.states[i + 1].records|
      && run.states[i + 1].records[conn.record].ownerID == if taken then conn.clientID else owner
  {
    RunInv(run, i);
    assert StepAt(run, i);
    var st, e := run.states[i], run.events[i];
    var conn := st.conns[e.conn];
    assert Attaches(st, e.conn);
    GraceIffAbsent(run, i, conn.record);
    PresentIffHuman(run, i, conn.clientID);
  }

  /** Step i neither gives session n to another client by a gesture nor forgets it: a Prune
      finds it in tmux or still connected. */
  ghost predicate Undisturbed(run: Run, i: nat, n: string, owner: string)
    requires IsRun(run) && i < |run.events|
  {
    assert StepAt(run, i);
    var st, e := run.states[i], run.events[i];
    match e
    case Prune(alive, _) => !Prunable(st, alive, n)
    case Register(_, _, _, _) => true
    case Unregister(_, _) => true
    case ApplyDone(_, _, _) => true
    case Resize(c, _, _, active, _) =>
      active && st.conns[c].tmuxName == n && st.conns[c].clientID != owner ==> st.conns[c].unregistered
    case ClaimInput(c, _) => st.conns[c].tmuxName == n ==> !Transfers(st, c)
  }

  /** `owner` is back on r before its absence lasts ownerGrace, at every step up to j. */
  ghost predicate ReconnectsInGrace(run: Run, r: nat, owner: string, i: nat, j: nat)
    requires IsRun(run) && i <= j < |run.states|
  {
    forall k :: i <= k < j ==> !AbsentSince(run, r, owner, k, run.events[k].now - OWNER_GRACE)
  }

  /** n keeps its record and its owner. */
  predicate KeepsOwner(st: State, st': State, n: string)
    requires Indexed(st) && OwnerOf(st, n) != ""
  {
    && n in st'.sessions && st'.sessions[n] == st.sessions[n] < |st'.records|
    && st'.records[st.sessions[n]].ownerID == OwnerOf(st, n)
  }

  /** The owner of n is connected, or has not been away for the grace. */
  predicate OwnerNear(st: State, n: string, now: int)
    requires Indexed(st) && OwnerOf(st, n) != ""
  {
    var s := st.records[st.sessions[n]];
    Count(s.live, s.ownerID) > 0 || now - s.ownerLeftAt < OWNER_GRACE
  }

  lemma OwnerOutlivesResize(st: State, c: nat, cols: nat, rows: nat, active: bool, now: int, n: string)
    requires Indexed(st) && c < |st.conns| && OwnerOf(st, n) != "" && OwnerNear(st, n, now)
    requires Attaches(st, c) && (Holds(st.conns[c], st.sessions[n]) ==> st.conns[c].tmuxName == n)
    requires active && st.conns[c].tmuxName == n && st.conns[c].clientID != OwnerOf(st, n) ==> st.conns[c].unregistered
    ensures KeepsOwner(st, ResizeNext(st, c, cols, rows, active, now), n)
  {
  }

  lemma OwnerOutlivesClaim(st: State, c: nat, now: int, n: string)
    requires Indexed(st) && c < |st.conns| && OwnerOf(st, n) != ""
    requires Attaches(st, c) && (Holds(st.conns[c], st.sessions[n]) ==> st.conns[c].tmuxName == n)
    requires st.conns[c].tmuxName == n ==> !Transfers(st, c)
    ensures KeepsOwner(st, ClaimInputNext(st, c, now), n)
  {
  }

  lemma OwnerOutlivesRest(st: State, e: Event, n: string)
    requires Indexed(st) && Enabled(st, e) && OwnerOf(st, n) != "" && !e.Resize? && !e.ClaimInput?
    requires e.Prune? ==> !Prunable(st, e.alive, n)
    ensures KeepsOwner(st, Next(st, e), n)
  {
  }

  lemma OwnerStays(run: Run, i: nat, n: string)
    requires IsRun(run) && i < |run.events| && Indexed(run.states[i]) && OwnerOf(run.states[i], n) != ""
    requires OwnerNear(run.states[i], n, run.events[i].now)
    requires Undisturbed(run, i, n, OwnerOf(run.states[i], n))
    ensures KeepsOwner(run.states[i], run.states[i + 1], n)
  {
    assert StepAt(run, i);
    RunInv(run, i);
    var st := run.states[i];
    match run.events[i]
    case Resize(c, cols, rows, active, now) =>
      assert Attaches(st, c);
      OwnerOutlivesResize(st, c, cols, rows, active, now, n);
    case ClaimInput(c, now) =>
      assert Attaches(st, c);
      OwnerOutlivesClaim(st, c, now, n);
    case e => OwnerOutlivesRest(st, e, n);
  }

  /** An owner that keeps reconnecting inside the grace keeps the window through any
      run in which no other client's gesture takes the session and no Prune forgets it. */
  lemma {:induction false} ReconnectKeepsWindow(run: Run, i: nat, j: nat, n: string)
    requires IsRun(run) && i <= j < |run.states|
    requires Indexed(run.states[i]) && OwnerOf(run.states[i], n) != ""
    requires
      var owner := OwnerOf(run.states[i], n);
      && ReconnectsInGrace(run, run.states[i].sessions[n], owner, i, j)
      && (forall k :: i <= k < j ==> Undisturbed(run, k, n, owner))
    ensures Indexed(run.states[j]) && OwnerOf(run.states[j], n) == OwnerOf(run.states[i], n)
    ensures n in run.states[j].sessions && run.states[j].sessions[n] == run.states[i].sessions[n]
  {
    RunInv(run, j);
    if i < j {
      ReconnectKeepsWindow(run, i, j - 1, n);
      var owner := OwnerOf(run.states[i], n);
      assert Undisturbed(run, j - 1, n, owner);
      GraceIffAbsent(run, j - 1, run.states[i].sessions[n]);
      OwnerStays(run, j - 1, n);
    }
  }
}

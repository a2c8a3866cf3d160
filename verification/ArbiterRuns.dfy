/** The arbiter over whole histories: every interleaving of connections, prunes and
    tmux calls that return in any order and may fail. */
module ArbiterRuns {
  import opened Options
  import opened ArbiterState
  import opened ArbiterInvariant

  /** states[i] --events[i]--> states[i + 1], from nothing, under a clock that does
      not run backwards. */
  datatype Run = Run(states: seq<State>, events: seq<Event>)

  ghost predicate StepAt(run: Run, i: nat)
    requires i < |run.events| && |run.states| == |run.events| + 1
  {
    && Indexed(run.states[i]) && Enabled(run.states[i], run.events[i])
    && run.states[i + 1] == Next(run.states[i], run.events[i])
  }

  ghost predicate IsRun(run: Run) {
    && |run.states| == |run.events| + 1
    && run.states[0] == INITIAL
    && (forall i :: 0 <= i < |run.events| ==> StepAt(run, i))
    && (forall i, j :: 0 <= i <= j < |run.events| ==> run.events[i].now <= run.events[j].now)
  }

  lemma {:induction false} RunInv(run: Run, i: nat)
    requires IsRun(run) && i < |run.states|
    ensures Inv(run.states[i])
  {
    if i == 0 {
      InitInv();
    } else {
      RunInv(run, i - 1);
      assert StepAt(run, i - 1);
      NextInv(run.states[i - 1], run.events[i - 1]);
    }
  }

  // ------------------------------------------------------------- accounting

  /** A handle that has not been unregistered always holds the record its name maps
      to, in every reachable state and so also while a Prune runs during its tmux
      call; that record counts exactly the handles that hold it. */
  lemma HandlesStayAccounted(run: Run, i: nat, c: nat)
    requires IsRun(run) && i < |run.states| && c < |run.states[i].conns|
    requires !run.states[i].conns[c].unregistered
    ensures
      var st := run.states[i];
      var conn := st.conns[c];
      && conn.tmuxName in st.sessions && st.sessions[conn.tmuxName] == conn.record < |st.records|
      && var s := st.records[conn.record];
      && s.refs == Attached(st.conns, conn.record) == Sum(s.live) > 0
      && conn.clientID in s.live
      && (forall k :: k in s.live ==> s.live[k] == AttachedBy(st.conns, conn.record, k) > 0)
  {
    RunInv(run, i);
    var st := run.states[i];
    assert Attaches(st, c);
    AttachedWitness(st.conns, c, st.conns[c].record);
    var s := st.records[st.conns[c].record];
    assert Count(s.live, st.conns[c].clientID) == AttachedBy(st.conns, st.conns[c].record, st.conns[c].clientID);
    forall k | k in s.live
      ensures s.live[k] == AttachedBy(st.conns, st.conns[c].record, k)
    {
      assert Count(s.live, k) == AttachedBy(st.conns, st.conns[c].record, k);
    }
  }

  /** An Unregister of handle c came at a step from m on. */
  predicate Leaves(run: Run, m: nat, i: nat, c: nat)
    requires i <= |run.events|
  {
    exists k :: m <= k < i && run.events[k].Unregister? && run.events[k].conn == c
  }

  lemma HandleStep(st: State, e: Event, c: nat)
    requires Indexed(st) && Enabled(st, e) && c < |Next(st, e).conns|
    ensures
      var conn := Next(st, e).conns[c];
      if c < |st.conns| then
        && conn.tmuxName == st.conns[c].tmuxName && conn.clientID == st.conns[c].clientID
        && conn.policy == st.conns[c].policy
        && (conn.unregistered <==> st.conns[c].unregistered || (e.Unregister? && e.conn == c))
      else
        && c == |st.conns| && e.Register? && !conn.unregistered
        && conn.tmuxName == e.name && conn.clientID == e.client && conn.policy == e.policy
  {
  }

  /** Handle c is what the Register that made it was asked for, and it counts until it is
      unregistered, once and for all. */
  lemma {:induction false} HandleHistory(run: Run, i: nat, c: nat) returns (m: nat)
    requires IsRun(run) && i < |run.states| && c < |run.states[i].conns|
    ensures m < i && run.events[m].Register? && |run.states[m].conns| == c
    ensures
      var conn, e := run.states[i].conns[c], run.events[m];
      && conn.tmuxName == e.name && conn.clientID == e.client && conn.policy == e.policy
      && (conn.unregistered <==> Leaves(run, m + 1, i, c))
  {
    assert i > 0 && StepAt(run, i - 1);
    HandleStep(run.states[i - 1], run.events[i - 1], c);
    if c < |run.states[i - 1].conns| {
      m := HandleHistory(run, i - 1, c);
      assert Leaves(run, m + 1, i, c)
        <==> Leaves(run, m + 1, i - 1, c) || (run.events[i - 1].Unregister? && run.events[i - 1].conn == c);
    } else {
      m := i - 1;
    }
  }

  /** Some connection to session n is still there. */
  predicate Connected(st: State, n: string) {
    exists c :: 0 <= c < |st.conns| && !st.conns[c].unregistered && st.conns[c].tmuxName == n
  }

  /** Prune forgets a session exactly when nobody is connected to it and tmux has lost it,
      and a client's presence exactly when it is past the window; it touches no other. */
  lemma PruneForgets(run: Run, i: nat, n: string, client: string)
    requires IsRun(run) && i < |run.events| && run.events[i].Prune?
    ensures
      var st, st', e := run.states[i], run.states[i + 1], run.events[i];
      && (n in st'.sessions <==> n in st.sessions && (n in e.alive || Connected(st, n)))
      && (n in st'.sessions ==> st'.sessions[n] == st.sessions[n])
      && (client in st'.lastHuman <==> client in st.lastHuman && e.now - st.lastHuman[client] <= PRESENCE_WINDOW)
      && (client in st'.lastHuman ==> st'.lastHuman[client] == st.lastHuman[client])
      && st'.records == st.records && st'.conns == st.conns
  {
    var st := run.states[i];
    assert StepAt(run, i);
    RunInv(run, i);
    if n in st.sessions {
      NobodyIsNoRefs(run, i, n);
    }
  }

  lemma NobodyIsNoRefs(run: Run, i: nat, n: string)
    requires IsRun(run) && i < |run.states| && Indexed(run.states[i]) && n in run.states[i].sessions
    ensures run.states[i].records[run.states[i].sessions[n]].refs > 0 <==> Connected(run.states[i], n)
  {
    var st := run.states[i];
    RunInv(run, i);
    if Connected(st, n) {
      var c :| 0 <= c < |st.conns| && !st.conns[c].unregistered && st.conns[c].tmuxName == n;
      HandlesStayAccounted(run, i, c);
    }
    var r := st.sessions[n];
    assert Accounts(st.records[r], st.conns, r);
    if st.records[r].refs > 0 {
      if forall c :: 0 <= c < |st.conns| ==> !Holds(st.conns[c], r) { NobodyAttached(st.conns, r, ""); }
      var c :| 0 <= c < |st.conns| && Holds(st.conns[c], r);
      HandlesStayAccounted(run, i, c);
    }
  }

  // ----------------------------------------------------- owner and window agree

  lemma {:induction false} SizerIsOwner(log: seq<Entry>, name: string)
    requires OnlyOwnersSize(log) && SizedSinceOwned(log, name)
    ensures LastSizer(log, name) == Some(OwnerIn(log, name))
  {
    var e, rest := log[|log| - 1], log[..|log| - 1];
    assert OnlyOwnersSize(rest) by {
      forall i | 0 <= i < |rest| && rest[i].Sized?
        ensures OwnerIn(rest[..i], rest[i].name) == rest[i].client
      {
        assert rest[..i] == log[..i];
      }
    }
    if e.Sized? && e.name == name {
    } else {
      SizerIsOwner(rest, name);
    }
  }

  /** Unconditionally: every resize the shared window ever saw was made for the
      client that owned it then, and none is decided under one owner and applied
      under the next. */
  lemma ResizesFollowOwnership(run: Run, i: nat, k: nat)
    requires IsRun(run) && i < |run.states|
    requires k < |run.states[i].log| && run.states[i].log[k].Sized?
    ensures OwnerIn(run.states[i].log[..k], run.states[i].log[k].name) == run.states[i].log[k].client
    ensures Indexed(run.states[i]) && forall n :: OwnerOf(run.states[i], n) == OwnerIn(run.states[i].log, n)
  {
    RunInv(run, i);
  }

  /** If the step is the return of a tmux call that sizes the window of `n`, it succeeds,
      and if it is a ClaimInput that moves that window, it knows what size to give it. */
  predicate Applies(st: State, e: Event, n: string)
    requires Indexed(st) && Enabled(st, e)
  {
    match e
    case ApplyDone(r, ok, _) =>
      var a := st.records[r].held.value;
      a.window && st.conns[a.conn].tmuxName == n ==> ok
    case ClaimInput(c, _) =>
      st.conns[c].tmuxName == n && Transfers(st, c) ==> st.conns[c].cols != 0 && st.conns[c].rows != 0
    case _ => true
  }

  ghost predicate AppliesAt(run: Run, i: nat, n: string)
    requires IsRun(run) && i < |run.events|
  {
    assert StepAt(run, i);
    Applies(run.states[i], run.events[i], n)
  }

  predicate Settled(st: State, n: string)
    requires Indexed(st) && n in st.sessions
  {
    || OwnerOf(st, n) == ""
    || SizedSinceOwned(st.log, n)
    || (st.records[st.sessions[n]].held.Some? && st.records[st.sessions[n]].held.value.window)
  }

  predicate Quiet(e: Entry, n: string) {
    !Ends(e, n) && !(e.Owned? && e.name == n)
  }

  lemma SizedAppend(log: seq<Entry>, e: Entry, n: string)
    ensures SizedSinceOwned(log + [e], n)
         == ((e.Sized? && e.name == n) || (Quiet(e, n) && SizedSinceOwned(log, n)))
  {
  }

  lemma SettledRegister(st: State, e: Event, n: string)
    requires Inv(st) && e.Register? && (n in st.sessions ==> Settled(st, n)) && n in Next(st, e).sessions
    ensures Indexed(Next(st, e)) && Settled(Next(st, e), n)
  {
  }

  lemma SettledPrune(st: State, e: Event, n: string)
    requires Inv(st) && e.Prune? && (n in st.sessions ==> Settled(st, n)) && n in Next(st, e).sessions
    ensures Indexed(Next(st, e)) && Settled(Next(st, e), n)
  {
  }

  lemma SettledUnregister(st: State, e: Event, n: string)
    requires Inv(st) && e.Unregister? && Enabled(st, e) && n in st.sessions && Settled(st, n)
    ensures Indexed(Next(st, e)) && Settled(Next(st, e), n)
  {
  }

  lemma SettledClaim(st: State, e: Event, n: string)
    requires Inv(st) && (e.Resize? || e.ClaimInput?) && Enabled(st, e) && n in st.sessions && Settled(st, n)
    requires Applies(st, e, n)
    ensures Indexed(Next(st, e)) && Settled(Next(st, e), n)
  {
    NextInv(st, e);
    var conn := st.conns[e.conn];
    if conn.unregistered || Stale(st, e.conn) {
    } else {
      SizedAppend(st.log, Owned(conn.tmuxName, conn.clientID), n);
      if conn.tmuxName != n {
        assert st.sessions[n] != conn.record;
      }
    }
  }

  lemma SettledApplyDone(st: State, e: Event, n: string)
    requires Inv(st) && e.ApplyDone? && Enabled(st, e) && Applies(st, e, n) && n in st.sessions && Settled(st, n)
    ensures Indexed(Next(st, e)) && Settled(Next(st, e), n)
  {
    NextInv(st, e);
    var a := st.records[e.record].held.value;
    assert HolderOwns(st, e.record) && Attaches(st, a.conn);
    SizedAppend(st.log, Sized(st.conns[a.conn].tmuxName, st.conns[a.conn].clientID, a.cols, a.rows), n);
  }

  lemma SettledNext(st: State, e: Event, n: string)
    requires Inv(st) && Enabled(st, e) && (n in st.sessions ==> Settled(st, n)) && n in Next(st, e).sessions
    requires Applies(st, e, n)
    ensures Indexed(Next(st, e)) && Settled(Next(st, e), n)
  {
    match e
    case Register(_, _, _, _) => SettledRegister(st, e, n);
    case Prune(_, _) => SettledPrune(st, e, n);
    case Unregister(_, _) => SettledUnregister(st, e, n);
    case Resize(_, _, _, _, _) => SettledClaim(st, e, n);
    case ClaimInput(_, _) => SettledClaim(st, e, n);
    case ApplyDone(_, _, _) => SettledApplyDone(st, e, n);
  }

  lemma {:induction false} AlwaysSettled(run: Run, i: nat, n: string)
    requires IsRun(run) && i < |run.states|
    requires forall k :: 0 <= k < i ==> AppliesAt(run, k, n)
    requires n in run.states[i].sessions
    ensures Indexed(run.states[i]) && Settled(run.states[i], n)
  {
    RunInv(run, i);
    if i > 0 {
      RunInv(run, i - 1);
      assert StepAt(run, i - 1) && AppliesAt(run, i - 1, n);
      var st, e := run.states[i - 1], run.events[i - 1];
      if n in st.sessions {
        AlwaysSettled(run, i - 1, n);
      }
      SettledNext(st, e, n);
    }
  }

  /** Whenever a session's resizeMu is free and it has an owner, the last resize of
      its window was made by a connection of that owner, in every run in which the
      tmux calls that size this window succeed and the ClaimInputs that move it know
      their dims. What happens to other sessions is left open. */
  lemma OwnerSizedTheWindow(run: Run, i: nat, n: string)
    requires IsRun(run) && i < |run.states|
    requires forall k :: 0 <= k < i ==> AppliesAt(run, k, n)
    requires n in run.states[i].sessions
    ensures
      Indexed(run.states[i]) &&
      var st := run.states[i];
      st.records[st.sessions[n]].held.None? && OwnerOf(st, n) != "" ==>
        LastSizer(st.log, n) == Some(OwnerOf(st, n))
  {
    RunInv(run, i);
    AlwaysSettled(run, i, n);
    var st := run.states[i];
    if st.records[st.sessions[n]].held.None? && OwnerOf(st, n) != "" {
      SizerIsOwner(st.log, n);
    }
  }

  predicate Agrees(st: State, n: string)
    requires Indexed(st)
  {
    LastSizer(st.log, n) == Some(OwnerOf(st, n))
  }

  /** ClaimInput from start to finish, its tmux call returning `ok`. */
  function ClaimThenApply(st: State, c: nat, now: int, ok: bool): (r: State)
    requires Indexed(st) && c < |st.conns|
  {
    var mid := ClaimInputNext(st, c, now);
    if mid.records[st.conns[c].record].held.Some?
    then ApplyDoneNext(mid, st.conns[c].record, ok) else mid
  }

  /** Exactly when ClaimInput leaves owner and window in agreement: it must know its
      dims and its tmux call must succeed, unless it does not move the window. */
  lemma ClaimKeepsAgreementIff(st: State, c: nat, now: int, ok: bool)
    requires Indexed(st) && c < |st.conns| && Enabled(st, ClaimInput(c, now))
    requires Agrees(st, st.conns[c].tmuxName) && !st.conns[c].unregistered
    ensures
      var st' := ClaimThenApply(st, c, now, ok);
      Indexed(st') &&
      (Agrees(st', st.conns[c].tmuxName)
       <==> !Transfers(st, c) || (st.conns[c].cols != 0 && st.conns[c].rows != 0 && ok))
  {
  }
}

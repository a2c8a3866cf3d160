/** What the tmux calls of Resize and ClaimInput do to the shared window, told from the
    requests alone: which of them size it, for whom, and to which dims. */
module ArbiterCalls {
  import opened Options
  import opened ArbiterState
  import opened ArbiterInvariant
  import opened ArbiterRuns

  // ----------------------------------------------------------- one request decided

  /** A handle that Resize and ClaimInput act on. */
  predicate Good(st: State, c: nat)
    requires Indexed(st)
  {
    c < |st.conns| && !st.conns[c].unregistered && !Stale(st, c)
  }

  /** Of Resize: an active one always makes its client the owner, an ordinary one of a
      passive client never does, and one of a follow-input client keeps a window it owns
      and takes one that nobody does. The call that follows sizes the shared window
      unless the client does not own it or has just repeated an active resize. */
  lemma ResizeDecides(st: State, c: nat, cols: nat, rows: nat, active: bool, now: int)
    requires Indexed(st) && Good(st, c)
    ensures
      var st', conn := ResizeNext(st, c, cols, rows, active, now), st.conns[c];
      var was, owner := st.records[conn.record].ownerID, st'.records[conn.record].ownerID;
      var window := if active then conn.policy == Passive || was != conn.clientID
                    else conn.policy == FollowInput && owner == conn.clientID;
      && st'.records[conn.record].held == Some(Apply(c, window, cols, rows))
      && (active ==> owner == conn.clientID)
      && (!active && conn.policy == Passive ==> owner == was)
      && (!active && conn.policy == FollowInput && was in {"", conn.clientID} ==> owner == conn.clientID)
  {
  }

  /** Of ClaimInput: a follow-input client owns the window afterwards, and sizes it to its
      own dims if it did not own it before and has any; a passive one changes nothing. */
  lemma ClaimDecides(st: State, c: nat, now: int)
    requires Indexed(st) && Good(st, c) && st.records[st.conns[c].record].held.None?
    ensures
      var st', conn := ClaimInputNext(st, c, now), st.conns[c];
      var was := st.records[conn.record].ownerID;
      var moves := conn.policy == FollowInput && was != conn.clientID;
      && st'.records[conn.record].ownerID == (if conn.policy == FollowInput then conn.clientID else was)
      && st'.records[conn.record].held
         == (if moves && conn.cols != 0 && conn.rows != 0 then Some(Apply(c, true, conn.cols, conn.rows)) else None)
  {
  }

  // ------------------------------------------------------------------- over runs

  lemma {:induction false} HandlesStayGood(run: Run, i: nat, c: nat)
    requires IsRun(run) && i < |run.states| && c < |run.states[i].conns| && !run.states[i].conns[c].unregistered
    ensures Indexed(run.states[i]) && Good(run.states[i], c)
  {
    RunInv(run, i);
    assert Attaches(run.states[i], c);
  }

  /** Who a handle is does not change, and a lock that is taken stays taken until its own
      call returns. */
  lemma HeldStep(st: State, e: Event, r: nat, a: Apply)
    requires Indexed(st) && Enabled(st, e) && r < |st.records| && st.records[r].held == Some(a)
    requires e.ApplyDone? ==> e.record != r
    ensures
      var st' := Next(st, e);
      && r < |st'.records| && st'.records[r].held == Some(a)
      && a.conn < |st.conns| <= |st'.conns|
      && st'.conns[a.conn].tmuxName == st.conns[a.conn].tmuxName
      && st'.conns[a.conn].clientID == st.conns[a.conn].clientID
  {
  }

  lemma {:induction false} HeldStays(run: Run, i: nat, j: nat, r: nat, a: Apply)
    requires IsRun(run) && i <= j < |run.states|
    requires Indexed(run.states[i]) && r < |run.states[i].records| && run.states[i].records[r].held == Some(a)
    requires forall k :: i <= k < j && run.events[k].ApplyDone? ==> run.events[k].record != r
    ensures Indexed(run.states[j]) && r < |run.states[j].records| && run.states[j].records[r].held == Some(a)
    ensures a.conn < |run.states[i].conns| && a.conn < |run.states[j].conns|
    ensures run.states[j].conns[a.conn].tmuxName == run.states[i].conns[a.conn].tmuxName
    ensures run.states[j].conns[a.conn].clientID == run.states[i].conns[a.conn].clientID
    decreases j
  {
    RunInv(run, j);
    if i < j {
      HeldStays(run, i, j - 1, r, a);
      assert StepAt(run, j - 1);
      HeldStep(run.states[j - 1], run.events[j - 1], r, a);
    }
  }

  /** What the return of the call adds to the window's history. */
  function Logged(name: string, client: string, a: Apply, ok: bool): seq<Entry> {
    if a.window && ok then [Sized(name, client, a.cols, a.rows)] else []
  }

  /** Step j is the return of the tmux call that step i made. */
  ghost predicate Returns(run: Run, i: nat, j: nat, r: nat)
    requires IsRun(run) && i < j < |run.events|
  {
    && run.events[j].ApplyDone? && run.events[j].record == r
    && forall k :: i < k < j && run.events[k].ApplyDone? ==> run.events[k].record != r
  }

  lemma CallReturns(run: Run, i: nat, j: nat, r: nat, a: Apply)
    requires IsRun(run) && i < j < |run.events| && Returns(run, i, j, r)
    requires Indexed(run.states[i + 1]) && r < |run.states[i + 1].records| && a.conn < |run.states[i + 1].conns|
    requires run.states[i + 1].records[r].held == Some(a)
    ensures
      var conn := run.states[i + 1].conns[a.conn];
      run.states[j + 1].log == run.states[j].log + Logged(conn.tmuxName, conn.clientID, a, run.events[j].ok)
  {
    HeldStays(run, i + 1, j, r, a);
    assert StepAt(run, j);
  }

  /** A resize reaches the shared window, with the dims it was asked for and in the name of
      its client, exactly when its tmux call works and the client owns the window after it,
      but for an active one repeated by a follow-input owner, whose dims its ordinary
      resizes keep current, and an ordinary one of a passive owner. */
  lemma ResizeReachesWindow(run: Run, i: nat, j: nat)
    requires IsRun(run) && i < j < |run.events| && run.events[i].Resize?
    requires run.events[i].conn < |run.states[i].conns| && !run.states[i].conns[run.events[i].conn].unregistered
    requires Returns(run, i, j, run.states[i].conns[run.events[i].conn].record)
    ensures
      var e, conn := run.events[i], run.states[i].conns[run.events[i].conn];
      && conn.record < |run.states[i].records| && conn.record < |run.states[i + 1].records|
      && var was, owner := run.states[i].records[conn.record].ownerID, run.states[i + 1].records[conn.record].ownerID;
      var sizes := if e.active then conn.policy == Passive || was != conn.clientID else conn.policy == FollowInput;
      var reaches := run.events[j].ok && owner == conn.clientID && sizes;
      run.states[j + 1].log
      == run.states[j].log + if reaches then [Sized(conn.tmuxName, conn.clientID, e.cols, e.rows)] else []
  {
    var c, st := run.events[i].conn, run.states[i];
    assert StepAt(run, i);
    HandlesStayGood(run, i, c);
    ResizeDecides(st, c, run.events[i].cols, run.events[i].rows, run.events[i].active, run.events[i].now);
    var r := st.conns[c].record;
    RunInv(run, i + 1);
    CallReturns(run, i, j, r, run.states[i + 1].records[r].held.value);
  }

  /** The dims of the latest Resize made on the handle, none before the first. */
  function LastDims(run: Run, i: nat, c: nat): (nat, nat)
    requires i < |run.states| && |run.states| == |run.events| + 1
  {
    if i == 0 then (0, 0)
    else
      var st, e := run.states[i - 1], run.events[i - 1];
      if e.Resize? && e.conn == c && c < |st.conns| && !st.conns[c].unregistered then (e.cols, e.rows)
      else LastDims(run, i - 1, c)
  }

  lemma DimsStep(st: State, e: Event, c: nat)
    requires Indexed(st) && Enabled(st, e) && c < |Next(st, e).conns| && (c < |st.conns| ==> Attaches(st, c))
    ensures
      var conn := Next(st, e).conns[c];
      (conn.cols, conn.rows)
      == if e.Resize? && e.conn == c && !st.conns[c].unregistered then (e.cols, e.rows)
         else if c < |st.conns| then (st.conns[c].cols, st.conns[c].rows) else (0, 0)
  {
  }

  lemma {:induction false} NoHandleNoDims(run: Run, i: nat, c: nat)
    requires IsRun(run) && i < |run.states| && c >= |run.states[i].conns|
    ensures LastDims(run, i, c) == (0, 0)
  {
    if i > 0 {
      assert StepAt(run, i - 1);
      NoHandleNoDims(run, i - 1, c);
    }
  }

  lemma {:induction false} DimsAreLast(run: Run, i: nat, c: nat)
    requires IsRun(run) && i < |run.states| && c < |run.states[i].conns|
    ensures (run.states[i].conns[c].cols, run.states[i].conns[c].rows) == LastDims(run, i, c)
  {
    assert i > 0 && StepAt(run, i - 1);
    RunInv(run, i - 1);
    var st := run.states[i - 1];
    assert c < |st.conns| ==> Attaches(st, c);
    DimsStep(st, run.events[i - 1], c);
    if c < |st.conns| {
      DimsAreLast(run, i - 1, c);
    } else {
      NoHandleNoDims(run, i - 1, c);
    }
  }

  /** ClaimInput by a follow-input client that did not own the window gives it, once the
      tmux call works, the dims of that client's latest resize; if there was none no call
      is made. */
  lemma ClaimReachesWindow(run: Run, i: nat, c: nat)
    requires IsRun(run) && i < |run.events| && run.events[i].ClaimInput? && run.events[i].conn == c
    requires c < |run.states[i].conns| && !run.states[i].conns[c].unregistered
    ensures
      var conn, dims := run.states[i].conns[c], LastDims(run, i, c);
      var r := conn.record;
      && r < |run.states[i].records| && r < |run.states[i + 1].records|
      && var was := run.states[i].records[r].ownerID;
      var calls := conn.policy == FollowInput && was != conn.clientID && dims.0 != 0 && dims.1 != 0;
      && run.states[i + 1].records[r].ownerID == (if conn.policy == FollowInput then conn.clientID else was)
      && (run.states[i + 1].records[r].held.Some? <==> calls)
      && (calls ==> forall j :: i < j < |run.events| && Returns(run, i, j, r) ==>
            run.states[j + 1].log
            == run.states[j].log
               + if run.events[j].ok then [Sized(conn.tmuxName, conn.clientID, dims.0, dims.1)] else [])
  {
    assert StepAt(run, i);
    HandlesStayGood(run, i, c);
    DimsAreLast(run, i, c);
    ClaimDecides(run.states[i], c, run.events[i].now);
    RunInv(run, i + 1);
    var r := run.states[i].conns[c].record;
    if run.states[i + 1].records[r].held.Some? {
      forall j | i < j < |run.events| && Returns(run, i, j, r) {
        CallReturns(run, i, j, r, run.states[i + 1].records[r].held.value);
      }
    }
  }
}

/** Prune drops presence older than presenceWindow. Under a clock that does not run
    backwards nobody can tell: the same events without the dropping decide the same. */
module ArbiterPresence {
  import opened ArbiterState
  import opened ArbiterRuns

  /** The step of an arbiter that remembers every gesture for ever. */
  function NextHoarding(st: State, e: Event): State
    requires Indexed(st) && Enabled(st, e)
  {
    if e.Prune? then Next(st, e).(lastHuman := st.lastHuman) else Next(st, e)
  }

  predicate SameButPresence(a: State, b: State) {
    a.sessions == b.sessions && a.records == b.records && a.conns == b.conns && a.log == b.log
  }

  /** What `pruned` has forgotten of `full` was stale at time t already. */
  ghost predicate Covers(full: State, pruned: State, t: int) {
    && SameButPresence(full, pruned)
    && (forall k :: k in pruned.lastHuman ==> k in full.lastHuman && full.lastHuman[k] == pruned.lastHuman[k])
    && (forall k :: k in full.lastHuman && k !in pruned.lastHuman ==> full.lastHuman[k] < t - PRESENCE_WINDOW)
  }

  lemma CoversPresent(full: State, pruned: State, t: int, client: string, now: int)
    requires Covers(full, pruned, t) && t <= now
    ensures Present(full.lastHuman, client, now) == Present(pruned.lastHuman, client, now)
  {
  }

  lemma CoversResize(full: State, pruned: State, t: int, e: Event)
    requires Indexed(full) && Indexed(pruned) && Covers(full, pruned, t) && t <= e.now
    requires e.Resize? && Enabled(full, e)
    ensures Enabled(pruned, e) && Covers(NextHoarding(full, e), Next(pruned, e), e.now)
  {
  }

  lemma CoversPrune(full: State, pruned: State, t: int, alive: set<string>, now: int)
    requires Indexed(full) && Indexed(pruned) && Covers(full, pruned, t) && t <= now
    ensures Covers(NextHoarding(full, Prune(alive, now)), Next(pruned, Prune(alive, now)), now)
  {
    var a, b := PruneNext(full, alive, now), PruneNext(pruned, alive, now);
    assert forall n :: Prunable(full, alive, n) == Prunable(pruned, alive, n);
    assert a.sessions == b.sessions;
    assert PrunedNames(full, alive) == PrunedNames(pruned, alive);
  }

  lemma CoversOther(full: State, pruned: State, t: int, e: Event)
    requires Indexed(full) && Indexed(pruned) && Covers(full, pruned, t) && t <= e.now
    requires e.Register? || e.Unregister? || e.ClaimInput? || e.ApplyDone?
    requires Enabled(full, e)
    ensures Enabled(pruned, e) && Covers(NextHoarding(full, e), Next(pruned, e), e.now)
  {
    match e {
      case ClaimInput(c, _) =>
        assert Transfers(full, c) == Transfers(pruned, c) && Stale(full, c) == Stale(pruned, c);
      case _ =>
    }
  }

  lemma CoversStep(full: State, pruned: State, t: int, e: Event)
    requires Indexed(full) && Indexed(pruned) && Covers(full, pruned, t) && t <= e.now
    requires Enabled(full, e)
    ensures Enabled(pruned, e) && Covers(NextHoarding(full, e), Next(pruned, e), e.now)
  {
    if e.Resize? {
      CoversResize(full, pruned, t, e);
    } else if e.Prune? {
      CoversPrune(full, pruned, t, e.alive, e.now);
    } else {
      CoversOther(full, pruned, t, e);
    }
  }

  ghost predicate HoardsAt(run: Run, i: nat)
    requires i < |run.events| && |run.states| == |run.events| + 1
  {
    && Indexed(run.states[i]) && Enabled(run.states[i], run.events[i])
    && run.states[i + 1] == NextHoarding(run.states[i], run.events[i])
  }

  /** A run of the hoarding arbiter over the same events. */
  ghost predicate IsHoardingRun(run: Run) {
    && |run.states| == |run.events| + 1 && run.states[0] == INITIAL
    && forall i :: 0 <= i < |run.events| ==> HoardsAt(run, i)
  }

  lemma {:induction false} CoversAlong(run: Run, hoard: Run, i: nat)
    requires IsRun(run) && IsHoardingRun(hoard) && run.events == hoard.events && i < |run.states|
    ensures Covers(hoard.states[i], run.states[i], if i == 0 then 0 else run.events[i - 1].now)
  {
    if i > 0 {
      CoversAlong(run, hoard, i - 1);
      assert StepAt(run, i - 1) && HoardsAt(hoard, i - 1);
      var t := if i == 1 then run.events[0].now else run.events[i - 2].now;
      assert Covers(hoard.states[i - 1], run.states[i - 1], t);
      CoversStep(hoard.states[i - 1], run.states[i - 1], t, run.events[i - 1]);
    }
  }

  /** Dropping old presence changes no decision: every state of a run, with its owners,
      its pending tmux calls and the history of its windows, is the one the same
      events give an arbiter that drops nothing. */
  lemma DroppingPresenceIsInvisible(run: Run, hoard: Run, i: nat)
    requires IsRun(run) && IsHoardingRun(hoard) && run.events == hoard.events && i < |run.states|
    ensures SameButPresence(run.states[i], hoard.states[i])
    ensures i < |run.events| ==> forall k ::
      Present(run.states[i].lastHuman, k, run.events[i].now) == Present(hoard.states[i].lastHuman, k, run.events[i].now)
  {
    CoversAlong(run, hoard, i);
    if i < |run.events| {
      var t := if i == 0 then run.events[0].now else run.events[i - 1].now;
      assert Covers(hoard.states[i], run.states[i], t);
      forall k
        ensures Present(run.states[i].lastHuman, k, run.events[i].now)
             == Present(hoard.states[i].lastHuman, k, run.events[i].now)
      {
        CoversPresent(hoard.states[i], run.states[i], t, k, run.events[i].now);
      }
    }
  }
}

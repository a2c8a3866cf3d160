/** What a reconcile pass gives up on, over every interleaving: all that the rows, tmux's
    listing and the clock say is gone, and nothing else. */
module PassRuns {
  import opened SessionLifecycle
  import opened SessionRuns
  import opened LaunchRuns

  /** Row `id` runs in the snapshot, tmux does not list it, and its grace is over. */
  predicate Abandoned(snapshot: Rows, live: Sessions, clock: nat, id: nat) {
    && id in snapshot && snapshot[id].status == Running && Name(id) !in live
    && clock >= snapshot[id].createdAt + RECONCILE_GRACE
  }

  /** Task t is still the pass that arrived with this snapshot: it waits for its listing,
      is marking, or has ended. */
  predicate PassAt(s: State, t: nat, snapshot: Rows) {
    t < |s.tasks| && (s.tasks[t] == PassList(snapshot) || s.tasks[t].PassMark? || s.tasks[t].Finished?)
  }

  ghost predicate NoRestart(run: Run, i: nat, j: nat)
    requires j <= |run.events|
  {
    forall k :: i <= k < j ==> !run.events[k].Restart?
  }

  lemma PassStep(s: State, e: Event, t: nat, snapshot: Rows)
    requires Enabled(s, e) && !e.Restart? && PassAt(s, t, snapshot)
    ensures PassAt(Next(s, e), t, snapshot)
    ensures !s.tasks[t].PassList? ==> !Next(s, e).tasks[t].PassList?
  {
  }

  /** The rows a pass judges are those that were listed when it began. */
  lemma {:induction false} PassKeepsSnapshot(run: Run, m: nat, i: nat)
    requires IsRun(run) && m < i < |run.states| && run.events[m].ReadForPass? && NoRestart(run, m, i)
    ensures PassAt(run.states[i], |run.states[m].tasks|, run.states[m].rows)
    decreases i
  {
    assert StepAt(run, i - 1);
    if m < i - 1 {
      PassKeepsSnapshot(run, m, i - 1);
      PassStep(run.states[i - 1], run.events[i - 1], |run.states[m].tasks|, run.states[m].rows);
    }
  }

  /** A listing that works leaves exactly the abandoned sessions to mark. */
  lemma ListingFinds(s: State, t: nat)
    requires Enabled(s, Step(t, true)) && s.tasks[t].PassList?
    ensures
      var task := Next(s, Step(t, true)).tasks[t];
      && task.PassMark?
      && forall id :: id in task.doomed <==> Abandoned(s.tasks[t].snapshot, s.live, s.clock, id)
  {
  }

  /** id is marked dead, or its row is gone. */
  predicate GivenUp(s: State, id: nat) {
    id < s.nextID && (id in s.rows ==> s.rows[id].status == Dead)
  }

  lemma GivenUpStays(s: State, e: Event, id: nat)
    requires Issued(s) && Enabled(s, e) && GivenUp(s, id)
    ensures GivenUp(Next(s, e), id)
  {
    AgeGrows(s, e, id);
  }

  /** What a pass at work does with a session it is to mark. */
  lemma MarkStep(s: State, e: Event, t: nat, id: nat)
    requires Issued(s) && Enabled(s, e) && !e.Restart? && t < |s.tasks| && s.tasks[t].PassMark? && id < s.nextID
    requires id in s.tasks[t].doomed || GivenUp(s, id)
    ensures
      var s' := Next(s, e);
      t < |s'.tasks| && (s'.tasks[t].Finished?
        || (s'.tasks[t].PassMark? && s'.tasks[t].doomed <= s.tasks[t].doomed
            && (id in s'.tasks[t].doomed || GivenUp(s', id))))
  {
    if GivenUp(s, id) {
      GivenUpStays(s, e, id);
    }
  }

  lemma EndedStays(s: State, e: Event, t: nat)
    requires Enabled(s, e) && !e.Restart? && t < |s.tasks| && s.tasks[t].Finished?
    ensures t < |Next(s, e).tasks| && Next(s, e).tasks[t].Finished?
  {
  }

  /** The pass that listed tmux at step i, at a later state: ended by an error, or with
      each abandoned session marked or still to be, and no other. */
  lemma {:induction false} PassMarks(run: Run, i: nat, j: nat, t: nat, id: nat)
    requires IsRun(run) && i < j < |run.states| && run.events[i] == Step(t, true)
    requires t < |run.states[i].tasks| && run.states[i].tasks[t].PassList? && NoRestart(run, i, j)
    ensures
      var s, s0 := run.states[j], run.states[i];
      var snapshot := s0.tasks[t].snapshot;
      && t < |s.tasks|
      && (s.tasks[t].Finished?
          || (s.tasks[t].PassMark?
              && (id in s.tasks[t].doomed ==> Abandoned(snapshot, s0.live, s0.clock, id))
              && (Abandoned(snapshot, s0.live, s0.clock, id) && id < s0.nextID ==>
                    id in s.tasks[t].doomed || GivenUp(s, id))))
      && s0.nextID <= s.nextID
    decreases j
  {
    RunBooks(run, j - 1);
    assert StepAt(run, j - 1);
    var s := run.states[j - 1];
    if j == i + 1 {
      ListingFinds(s, t);
    } else {
      PassMarks(run, i, j - 1, t, id);
      NextIDGrows(s, run.events[j - 1]);
      if s.tasks[t].Finished? {
        EndedStays(s, run.events[j - 1], t);
      } else {
        MarkOrLeave(s, run.events[j - 1], t, id);
      }
    }
  }

  lemma NextIDGrows(s: State, e: Event)
    requires Enabled(s, e)
    ensures s.nextID <= Next(s, e).nextID
  {
  }

  lemma MarkOrLeave(s: State, e: Event, t: nat, id: nat)
    requires Issued(s) && Enabled(s, e) && !e.Restart? && t < |s.tasks| && s.tasks[t].PassMark?
    ensures
      var s' := Next(s, e);
      t < |s'.tasks| && (s'.tasks[t].Finished?
        || (s'.tasks[t].PassMark? && s'.tasks[t].doomed <= s.tasks[t].doomed
            && (id < s.nextID && (id in s.tasks[t].doomed || GivenUp(s, id)) ==>
                  id in s'.tasks[t].doomed || GivenUp(s', id))))
  {
    if id < s.nextID && (id in s.tasks[t].doomed || GivenUp(s, id)) {
      MarkStep(s, e, t, id);
    }
  }

  /** Over all runs: once a pass that began at m and listed tmux at i has nothing left to
      mark, every session that ran by its rows, was not in tmux's listing and had used up
      its grace is dead by its row, or its row is gone. */
  lemma AbandonedAreGivenUp(run: Run, m: nat, i: nat, j: nat, id: nat)
    requires IsRun(run) && m < i < j < |run.states| && run.events[m].ReadForPass? && NoRestart(run, m, j)
    requires
      var t := |run.states[m].tasks|;
      && run.events[i] == Step(t, true) && t < |run.states[i].tasks| && run.states[i].tasks[t].PassList?
      && t < |run.states[j].tasks| && run.states[j].tasks[t] == PassMark({})
    requires Abandoned(run.states[m].rows, run.states[i].live, run.states[i].clock, id)
    ensures GivenUp(run.states[j], id)
  {
    var t := |run.states[m].tasks|;
    RunBooks(run, m);
    NextIDsGrow(run, m, i);
    PassKeepsSnapshot(run, m, i);
    PassMarks(run, i, j, t, id);
  }

  lemma {:induction false} NextIDsGrow(run: Run, m: nat, i: nat)
    requires IsRun(run) && m <= i < |run.states|
    ensures run.states[m].nextID <= run.states[i].nextID
    decreases i
  {
    if m < i {
      NextIDsGrow(run, m, i - 1);
      assert StepAt(run, i - 1);
      NextIDGrows(run.states[i - 1], run.events[i - 1]);
    }
  }

  /** ... and no pass ever marks any other: what a pass that began at m and listed tmux at i
      marks at k was such a session. */
  lemma OnlyAbandonedAreMarked(run: Run, m: nat, i: nat, k: nat, id: nat, ok: bool)
    requires IsRun(run) && m < i < k < |run.events| && run.events[m].ReadForPass? && NoRestart(run, m, k)
    requires
      var t := |run.states[m].tasks|;
      && run.events[i] == Step(t, true) && t < |run.states[i].tasks| && run.states[i].tasks[t].PassList?
      && run.events[k] == MarkOne(t, id, ok)
    ensures Abandoned(run.states[m].rows, run.states[i].live, run.states[i].clock, id)
    ensures ok ==> id in run.states[k + 1].rows ==> run.states[k + 1].rows[id].status == Dead
  {
    PassKeepsSnapshot(run, m, i);
    PassMarks(run, i, k, |run.states[m].tasks|, id);
    assert StepAt(run, k);
  }
}

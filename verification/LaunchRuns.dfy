/** What holds of launches and rows in every run, whatever is killed or given up on while
    a launch waits: an account of its own of what each launch has inserted. */
module LaunchRuns {
  import opened CommandGroups
  import opened SessionLifecycle
  import opened SessionRuns

  /** IDs are handed out in order and never twice. */
  ghost predicate Issued(s: State) {
    forall id :: id in s.rows || id in s.ours ==> id < s.nextID
  }

  /** A session the launch inserted has ended, or its row was given up or failed to go, or
      it is still in the launch's hands. */
  ghost predicate Covered(s: State, l: Task, id: nat)
    requires l.Launch?
  {
    id in s.ours && Name(id) in s.live ==> id in s.orphaned || InCharge(l, id)
  }

  /** The label a group's command k is told apart by; a command alone has none. */
  function LabelIn(commands: seq<string>, k: nat): string
    requires k < |commands|
  {
    if |commands| == 1 then "" else CommandLabel(commands[k])
  }

  ghost predicate Titled(s: State, l: Task)
    requires l.Launch? && |l.created| <= |l.commands|
  {
    && (forall k :: 0 <= k < |l.created| && l.created[k] in s.rows ==>
          s.rows[l.created[k]].title == LabelIn(l.commands, k))
    && (l.stage.Probe? || l.stage.Title? ==> l.stage.id in s.rows ==> s.rows[l.stage.id].title == "")
    && (l.stage.Start? || l.stage.Respawn? ==>
          |l.created| < |l.commands|
          && (l.stage.id in s.rows ==> s.rows[l.stage.id].title == LabelIn(l.commands, |l.created|)))
  }

  ghost predicate Kept(s: State, l: Task)
    requires l.Launch?
  {
    && CreatedOk(s, l) && StageHeld(s, l) && Titled(s, l)
    && forall id :: id in l.inserted ==> id < s.nextID && Accounted(s, l, id) && Covered(s, l, id)
  }

  ghost predicate TaskKept(s: State, task: Task) {
    task.Launch? ==> Kept(s, task)
  }

  ghost predicate Books(s: State) {
    && Issued(s)
    && (forall t :: 0 <= t < |s.tasks| ==> TaskKept(s, s.tasks[t]))
    && (forall t, u :: 0 <= t < u < |s.tasks| ==> Apart(s.tasks[t], s.tasks[u]))
  }

  // ---------------------------------------------------------- what others do to a launch

  /** To these sessions nothing happens but that they end. */
  ghost predicate OnlyEnds(s: State, s': State, ids: set<nat>) {
    && s.nextID <= s'.nextID && s.ours <= s'.ours && s.orphaned <= s'.orphaned
    && (forall id :: id in ids && id in s'.rows ==> id in s.rows && s'.rows[id].title == s.rows[id].title)
    && (forall id :: id in ids && id in s'.ours ==> id in s.ours)
    && (forall id :: id in ids && Name(id) in s'.live ==>
          Name(id) in s.live && s'.live[Name(id)] == s.live[Name(id)])
  }

  lemma OthersKeep(s: State, s': State, l: Task)
    requires l.Launch? && Kept(s, l) && OnlyEnds(s, s', l.inserted)
    ensures Kept(s', l)
  {
    forall id | id in l.inserted
      ensures Accounted(s', l, id) && Covered(s', l, id)
    {
      assert Accounted(s, l, id) && Covered(s, l, id);
    }
  }

  // ------------------------------------------------------------ the launch's own steps

  /** Everything the launch was in charge of it still is, but for x, which is settled. */
  lemma ChargeStays(s: State, s': State, l: Task, l': Task, x: nat)
    requires l.Launch? && l'.Launch? && Kept(s, l) && s.nextID == s'.nextID
    requires s.orphaned <= s'.orphaned && (forall id :: id != x ==> (id in s'.ours ==> id in s.ours))
    requires forall id: nat :: id != x ==>
      (id in s'.rows ==> id in s.rows) && (Name(id) in s'.live ==> Name(id) in s.live)
    requires forall id: nat :: id != x && InCharge(l, id) ==> InCharge(l', id)
    requires l'.inserted == l.inserted && (x in l.inserted ==> Accounted(s', l', x) && Covered(s', l', x))
    ensures forall id :: id in l'.inserted ==> id < s'.nextID && Accounted(s', l', id) && Covered(s', l', id)
  {
    forall id | id in l'.inserted
      ensures Accounted(s', l', id) && Covered(s', l', id)
    {
      assert Accounted(s, l, id) && Covered(s, l, id);
    }
  }

  /** What one step makes of the stores and the launch. */
  ghost predicate Steps(s: State, l: Task, ok: bool, s': State, l': Task) {
    l.Launch? && l'.Launch? && LaunchEnabled(s, l, ok) && (s', l') == LaunchNext(s, l, ok)
  }

  lemma InsertKept(s: State, l: Task, ok: bool, s': State, l': Task)
    requires Steps(s, l, ok, s', l') && Issued(s) && Kept(s, l) && l.stage.Insert?
    ensures Kept(s', l')
  {
    forall id | id in l'.inserted
      ensures id < s'.nextID && Accounted(s', l', id) && Covered(s', l', id)
    {
      if id == s.nextID {
        assert Working(l', id);
      } else {
        assert Accounted(s, l, id) && Covered(s, l, id);
      }
    }
  }

  /** A step after which the launch is at work on the same session, which it neither
      starts nor gives its command. */
  lemma WorkKept(s: State, l: Task, ok: bool, s': State, l': Task, x: nat)
    requires Steps(s, l, ok, s', l') && Kept(s, l) && Working(l, x) && !l.stage.Skip? && !l.stage.Drop?
    requires ok ==> !l.stage.Start? && !l.stage.Respawn?
    ensures Kept(s', l')
  {
    NamesApart(x);
    assert Working(l', x);
    ChargeStays(s, s', l, l', x);
  }

  /** A step in which the launch lets go of its session. */
  lemma EndKept(s: State, l: Task, ok: bool, s': State, l': Task, x: nat)
    requires Steps(s, l, ok, s', l') && Kept(s, l) && Working(l, x) && (l.stage.Skip? || l.stage.Drop?)
    ensures Kept(s', l')
  {
    assert Accounted(s', l', x) && Covered(s', l', x);
    ChargeStays(s, s', l, l', x);
  }

  lemma UndoKept(s: State, l: Task, ok: bool, s': State, l': Task)
    requires Steps(s, l, ok, s', l') && Kept(s, l) && (l.stage.Undo? || l.stage.Erase?)
    ensures Kept(s', l')
  {
    var x := l.created[l.stage.k];
    NamesApart(x);
    assert l.stage.Undo? ==> InCharge(l', x);
    assert Accounted(s', l', x) && Covered(s', l', x);
    ChargeStays(s, s', l, l', x);
  }

  lemma StartCreated(s: State, l: Task, s': State, l': Task, x: nat)
    requires Steps(s, l, true, s', l') && Kept(s, l) && Working(l, x) && (l.stage.Start? || l.stage.Respawn?)
    ensures CreatedOk(s', l')
  {
    NamesApart(x);
    forall k | 0 <= k < |l'.created|
      ensures l'.created[k] in s'.ours && l'.created[k] in l'.inserted
      ensures Name(l'.created[k]) in s'.live ==> s'.live[Name(l'.created[k])] == l'.commands[k]
    {
      assert k < |l.created| ==> l'.created[k] == l.created[k] && l.created[k] < x;
    }
  }

  /** The session is up, and the launch goes on with it or with the next command. */
  lemma StartKept(s: State, l: Task, s': State, l': Task, x: nat)
    requires Steps(s, l, true, s', l') && Kept(s, l) && Working(l, x) && (l.stage.Start? || l.stage.Respawn?)
    ensures Kept(s', l')
  {
    var n := |l.created|;
    NamesApart(x);
    StartCreated(s, l, s', l', x);
    assert forall k :: 0 <= k < n ==> l'.created[k] == l.created[k];
    assert Working(l', x) || l'.created[n] == x;
    ChargeStays(s, s', l, l', x);
  }

  lemma LaunchKept(s: State, l: Task, ok: bool, s': State, l': Task)
    requires Steps(s, l, ok, s', l') && Issued(s) && Kept(s, l)
    ensures Kept(s', l')
  {
    if l.stage.Insert? {
      InsertKept(s, l, ok, s', l');
    } else if l.stage.Undo? || l.stage.Erase? {
      UndoKept(s, l, ok, s', l');
    } else if l.stage.Skip? || l.stage.Drop? {
      EndKept(s, l, ok, s', l', l.stage.id);
    } else if ok && (l.stage.Start? || l.stage.Respawn?) {
      StartKept(s, l, s', l', l.stage.id);
    } else {
      WorkKept(s, l, ok, s', l', l.stage.id);
    }
  }

  /** ... and of the sessions other launches inserted. */
  lemma LaunchSpares(s: State, l: Task, ok: bool, s': State, l': Task, others: set<nat>)
    requires Steps(s, l, ok, s', l') && Kept(s, l) && others !! l.inserted
    requires forall id :: id in others ==> id < s.nextID
    ensures OnlyEnds(s, s', others)
  {
    if !l.stage.Insert? && !l.stage.Failed? && !l.stage.Done? {
      SubjectOnly(s, l, ok, s', l');
      NamesApart(Subject(l));
      assert Subject(l) in l.inserted;
    }
  }

  lemma SubjectOnly(s: State, l: Task, ok: bool, s': State, l': Task)
    requires Steps(s, l, ok, s', l') && Kept(s, l) && !l.stage.Insert? && !l.stage.Failed? && !l.stage.Done?
    ensures s'.nextID == s.nextID && s.ours <= s'.ours <= s.ours + {Subject(l)} && s.orphaned <= s'.orphaned
    ensures forall id :: id != Subject(l) && id in s'.rows ==> id in s.rows && s'.rows[id] == s.rows[id]
    ensures forall name :: name != Name(Subject(l)) && name in s'.live ==>
      name in s.live && s'.live[name] == s.live[name]
  {
  }

  // ----------------------------------------------------------------- every step keeps it

  lemma StepIssues(s: State, e: Event)
    requires Issued(s) && Enabled(s, e)
    requires e.Step? && s.tasks[e.task].Launch? ==> Kept(s, s.tasks[e.task])
    ensures Issued(Next(s, e)) && s.nextID <= Next(s, e).nextID
  {
  }

  /** A step that is not a launch's takes rows and sessions away at most. */
  lemma RestSpares(s: State, e: Event, ids: set<nat>)
    requires Enabled(s, e) && (e.Step? ==> !s.tasks[e.task].Launch?)
    ensures OnlyEnds(s, Next(s, e), ids)
  {
  }

  lemma OwnStepStays(s: State, t: nat, ok: bool)
    requires Books(s) && Enabled(s, Step(t, ok)) && s.tasks[t].Launch?
    ensures TaskKept(Next(s, Step(t, ok)), Next(s, Step(t, ok)).tasks[t])
  {
    var (w, l') := LaunchNext(s, s.tasks[t], ok);
    assert TaskKept(s, s.tasks[t]);
    LaunchKept(s, s.tasks[t], ok, w, l');
    OthersKeep(w, Next(s, Step(t, ok)), l');
  }

  lemma OtherStepStays(s: State, t: nat, ok: bool, u: nat)
    requires Books(s) && Enabled(s, Step(t, ok)) && s.tasks[t].Launch? && u < |s.tasks| && u != t
    ensures TaskKept(Next(s, Step(t, ok)), s.tasks[u])
  {
    var (w, l') := LaunchNext(s, s.tasks[t], ok);
    assert TaskKept(s, s.tasks[t]) && TaskKept(s, s.tasks[u]);
    if s.tasks[u].Launch? {
      assert Apart(s.tasks[t], s.tasks[u]) || Apart(s.tasks[u], s.tasks[t]);
      LaunchSpares(s, s.tasks[t], ok, w, l', s.tasks[u].inserted);
      OthersKeep(s, Next(s, Step(t, ok)), s.tasks[u]);
    }
  }

  lemma RestStays(s: State, e: Event, t: nat)
    requires Books(s) && Enabled(s, e) && (e.Step? ==> !s.tasks[e.task].Launch?) && t < |Next(s, e).tasks|
    ensures TaskKept(Next(s, e), Next(s, e).tasks[t])
  {
    var l := Next(s, e).tasks[t];
    if t < |s.tasks| && l.Launch? {
      assert l == s.tasks[t] && TaskKept(s, l);
      RestSpares(s, e, l.inserted);
      OthersKeep(s, Next(s, e), l);
    }
  }

  lemma TaskStays(s: State, e: Event, t: nat)
    requires Books(s) && Enabled(s, e) && t < |Next(s, e).tasks|
    ensures TaskKept(Next(s, e), Next(s, e).tasks[t])
  {
    if !e.Step? || !s.tasks[e.task].Launch? {
      RestStays(s, e, t);
    } else if t == e.task {
      OwnStepStays(s, t, e.ok);
    } else {
      OtherStepStays(s, e.task, e.ok, t);
    }
  }

  /** A step gives a task no rows but the next one. */
  lemma InsertedGrows(s: State, e: Event, t: nat)
    requires Enabled(s, e) && t < |s.tasks| && t < |Next(s, e).tasks| && Next(s, e).tasks[t].Launch?
    ensures s.tasks[t].Launch? && s.tasks[t].inserted <= Next(s, e).tasks[t].inserted
    ensures Next(s, e).tasks[t].inserted <= s.tasks[t].inserted + {s.nextID}
    ensures Next(s, e).tasks[t].inserted != s.tasks[t].inserted ==> e.Step? && e.task == t
  {
  }

  lemma StaysApart(s: State, e: Event, t: nat, u: nat)
    requires Books(s) && Enabled(s, e) && t < u < |Next(s, e).tasks|
    ensures Apart(Next(s, e).tasks[t], Next(s, e).tasks[u])
  {
    var a, b := Next(s, e).tasks[t], Next(s, e).tasks[u];
    if a.Launch? && b.Launch? && u < |s.tasks| {
      InsertedGrows(s, e, t);
      InsertedGrows(s, e, u);
      assert Apart(s.tasks[t], s.tasks[u]) && TaskKept(s, s.tasks[t]) && TaskKept(s, s.tasks[u]);
      assert s.nextID !in s.tasks[t].inserted && s.nextID !in s.tasks[u].inserted;
    }
  }

  lemma NextBooks(s: State, e: Event)
    requires Books(s) && Enabled(s, e)
    ensures Books(Next(s, e))
  {
    var s' := Next(s, e);
    assert e.Step? ==> TaskKept(s, s.tasks[e.task]);
    StepIssues(s, e);
    forall t | 0 <= t < |s'.tasks|
      ensures TaskKept(s', s'.tasks[t])
    {
      TaskStays(s, e, t);
    }
    forall t, u | 0 <= t < u < |s'.tasks|
      ensures Apart(s'.tasks[t], s'.tasks[u])
    {
      StaysApart(s, e, t, u);
    }
  }

  lemma {:induction false} RunBooks(run: Run, i: nat)
    requires IsRun(run) && i < |run.states|
    ensures Books(run.states[i])
  {
    if i > 0 {
      RunBooks(run, i - 1);
      assert StepAt(run, i - 1);
      NextBooks(run.states[i - 1], run.events[i - 1]);
    }
  }

  // ------------------------------------------------------------------------ main results

  /** Status from first to last, as far as row `id` has come. */
  function Age(s: State, id: nat): nat {
    if id >= s.nextID then 0
    else if id in s.rows then (if s.rows[id].status == Running then 1 else 2)
    else 3
  }

  lemma AgeGrows(s: State, e: Event, id: nat)
    requires Issued(s) && Enabled(s, e)
    ensures Age(s, id) <= Age(Next(s, e), id)
  {
  }

  /** A row only goes from running to dead to deleted, and its ID is never used again. */
  lemma {:induction false} StatusOnlyAdvances(run: Run, i: nat, j: nat, id: nat)
    requires IsRun(run) && i <= j < |run.states|
    ensures Age(run.states[i], id) <= Age(run.states[j], id)
    decreases j
  {
    if i < j {
      StatusOnlyAdvances(run, i, j - 1, id);
      RunBooks(run, j - 1);
      assert StepAt(run, j - 1);
      AgeGrows(run.states[j - 1], run.events[j - 1], id);
    }
  }

  /** A launch that succeeds has started one session per command, shared with no other
      launch; each runs its own command as long as it lives. */
  lemma LaunchIsWhole(run: Run, i: nat, t: nat)
    requires IsRun(run) && i < |run.states| && t < |run.states[i].tasks|
    requires run.states[i].tasks[t].Launch? && run.states[i].tasks[t].stage.Done?
    ensures
      var s, l := run.states[i], run.states[i].tasks[t];
      && |l.created| == |l.commands| && Ascending(l.created)
      && (forall k :: 0 <= k < |l.created| ==>
            && l.created[k] in s.ours
            && (Name(l.created[k]) in s.live ==> s.live[Name(l.created[k])] == l.commands[k])
            && (l.created[k] in s.rows ==> s.rows[l.created[k]].title == LabelIn(l.commands, k)))
      && (forall u, k :: 0 <= u < |s.tasks| && u != t && s.tasks[u].Launch? && 0 <= k < |l.created| ==>
            l.created[k] !in s.tasks[u].created)
  {
    RunBooks(run, i);
    var s, l := run.states[i], run.states[i].tasks[t];
    assert TaskKept(s, l);
    forall u, k | 0 <= u < |s.tasks| && u != t && s.tasks[u].Launch? && 0 <= k < |l.created|
      ensures l.created[k] !in s.tasks[u].created
    {
      assert TaskKept(s, s.tasks[u]);
      assert Apart(s.tasks[t], s.tasks[u]) || Apart(s.tasks[u], s.tasks[t]);
    }
  }

  /** A launch that fails leaves no row but one it failed to delete, and no session but
      one it failed to kill or whose row it failed to delete. */
  lemma FailedLaunchLeavesNothing(run: Run, i: nat, t: nat, id: nat)
    requires IsRun(run) && i < |run.states| && t < |run.states[i].tasks|
    requires run.states[i].tasks[t].Launch? && run.states[i].tasks[t].stage.Failed?
    requires id in run.states[i].tasks[t].inserted
    ensures
      var s, l := run.states[i], run.states[i].tasks[t];
      && (id in s.rows ==> id in l.left)
      && (id in s.ours && Name(id) in s.live ==> id in l.left || id in s.orphaned)
  {
    RunBooks(run, i);
    var s, l := run.states[i], run.states[i].tasks[t];
    assert TaskKept(s, l);
    assert Accounted(s, l, id) && Covered(s, l, id);
  }
}

/** The session handlers interleaved: any number of launches, kills, dismissals and
    reconcile passes, every database statement and tmux call its own step, any of them
    allowed to fail, sessions dying and the daemon restarting at any moment. */
module SessionRuns {
  import opened SessionLifecycle

  /** Where a launch is. `since` is when the row was inserted; `killed` tells whether
      the session about to lose its row is known to be gone. */
  datatype Stage =
    | Insert
    | Probe(id: nat, since: nat)
    | Skip(id: nat)
    | Title(id: nat, since: nat)
    | Start(id: nat, since: nat)
    | Respawn(id: nat)
    | Cleanup(id: nat)
    | Drop(id: nat, killed: bool)
    | Undo(k: nat)
    | Erase(k: nat, killed: bool)
    | Done
    | Failed

  /** `inserted` and `left` are history: the rows the launch inserted, and those it then
      failed to delete. */
  datatype Task =
    | Launch(commands: seq<string>, created: seq<nat>, stage: Stage, inserted: set<nat>, left: set<nat>)
    | KillTmux(id: nat)
    | KillMark(id: nat)
    | DismissDelete(id: nat)
    | PassList(snapshot: Rows)
    | PassMark(doomed: set<nat>)
    | Finished

  /** `ours` is every session the daemon started, `orphaned` those whose row was deleted
      after their kill failed, `stuck` the rows left behind for sessions never started. */
  datatype State = State(
    rows: Rows, nextID: nat, live: Sessions, clock: nat, tasks: seq<Task>,
    ours: set<nat>, orphaned: set<nat>, stuck: set<nat>)

  datatype Event =
    | BeginLaunch(commands: seq<string>)
    | ReadForKill(id: nat)
    | ReadForDismiss(id: nat)
    | ReadForPass
    | Step(task: nat, ok: bool)
    | MarkOne(task: nat, id: nat, ok: bool)
    | Tick(elapsed: nat)
    | Dies(name: string)
    | ForeignStarts(name: string, command: string)
    | Restart

  predicate Initial(s: State) {
    s.rows == map[] && s.tasks == [] && s.ours == {} && s.orphaned == {} && s.stuck == {}
  }

  // ------------------------------------------------------------------ one step

  predicate LaunchEnabled(s: State, l: Task, ok: bool)
    requires l.Launch?
  {
    match l.stage
    case Insert => |l.created| < |l.commands|
    case Probe(id, _) => ok || Name(id) in s.live
    case Title(id, _) => |l.created| < |l.commands| && (ok ==> id in s.rows)
    case Start(id, _) => |l.created| < |l.commands| && (ok ==> Name(id) !in s.live)
    case Respawn(id) => |l.created| < |l.commands| && (ok ==> Name(id) in s.live)
    case Undo(k) => k < |l.created|
    case Erase(k, _) => k < |l.created|
    case Done => false
    case Failed => false
    case _ => true
  }

  ghost predicate Enabled(s: State, e: Event) {
    match e
    case BeginLaunch(commands) => commands != []
    case ReadForKill(id) => id in s.rows
    case ReadForDismiss(id) => id in s.rows && s.rows[id].status == Dead
    case Step(t, ok) =>
      && t < |s.tasks| && !s.tasks[t].Finished? && !s.tasks[t].PassMark?
      && (s.tasks[t].Launch? ==> LaunchEnabled(s, s.tasks[t], ok))
    case MarkOne(t, id, ok) => t < |s.tasks| && s.tasks[t].PassMark? && id in s.tasks[t].doomed
    case ForeignStarts(name, _) => name !in s.live && forall id: nat :: Name(id) != name
    case _ => true
  }

  /** Roll back from session k on; done with that, the launch has failed. */
  function Rolling(l: Task, k: nat): Task
    requires l.Launch?
  {
    l.(stage := if k < |l.created| then Undo(k) else Failed)
  }

  function Started(l: Task, id: nat): Task
    requires l.Launch?
  {
    var created := l.created + [id];
    l.(created := created, stage := if |created| == |l.commands| then Done else Insert)
  }

  function Without(s: State, id: nat, killed: bool): State {
    s.(rows := s.rows - {id}, orphaned := if killed then s.orphaned else s.orphaned + {id})
  }

  /** A launch moves on: the stores after the step, and the launch. */
  function LaunchNext(s: State, l: Task, ok: bool): (State, Task)
    requires l.Launch? && LaunchEnabled(s, l, ok)
  {
    match l.stage
    case Insert =>
      if ok then (s.(rows := s.rows[s.nextID := NewRow(s.clock)], nextID := s.nextID + 1),
                  l.(stage := Probe(s.nextID, s.clock), inserted := l.inserted + {s.nextID}))
      else (s, Rolling(l, 0))
    case Probe(id, since) =>
      (s, l.(stage := if !ok then Skip(id) else if |l.commands| > 1 then Title(id, since) else Start(id, since)))
    case Skip(id) =>
      if ok then (s.(rows := s.rows - {id}), l.(stage := Insert))
      else (s.(stuck := s.stuck + {id}), Rolling(l.(left := l.left + {id}), 0))
    case Title(id, since) =>
      if ok then (s.(rows := WithTitle(s.rows, id, TitleOf(l.commands, |l.created|))), l.(stage := Start(id, since)))
      else (s, l.(stage := Drop(id, true)))
    case Start(id, _) =>
      if ok then (s.(live := s.live[Name(id) := ""], ours := s.ours + {id}),
                  if l.commands[|l.created|] == "" then Started(l, id) else l.(stage := Respawn(id)))
      else (s, l.(stage := Drop(id, true)))
    case Respawn(id) =>
      if ok then (s.(live := s.live[Name(id) := l.commands[|l.created|]]), Started(l, id))
      else (s, l.(stage := Cleanup(id)))
    case Cleanup(id) =>
      (if ok then s.(live := s.live - {Name(id)}) else s, l.(stage := Drop(id, ok)))
    case Drop(id, killed) =>
      if ok then (Without(s, id, killed), Rolling(l, 0))
      else (s.(stuck := if id in s.ours then s.stuck else s.stuck + {id}), Rolling(l.(left := l.left + {id}), 0))
    case Undo(k) =>
      (if ok then s.(live := s.live - {Name(l.created[k])}) else s, l.(stage := Erase(k, ok)))
    case Erase(k, killed) =>
      if ok then (Without(s, l.created[k], killed), Rolling(l, k + 1))
      else (s, Rolling(l.(left := l.left + {l.created[k]}), k + 1))
    case _ => (s, l)
  }

  function TaskNext(s: State, task: Task, ok: bool): (State, Task)
    requires task.Launch? ==> LaunchEnabled(s, task, ok)
  {
    match task
    case Launch(_, _, _, _, _) => LaunchNext(s, task, ok)
    case KillTmux(id) => if ok then (s.(live := s.live - {Name(id)}), KillMark(id)) else (s, Finished)
    case KillMark(id) => (if ok then s.(rows := WithStatus(s.rows, id, Dead)) else s, Finished)
    case DismissDelete(id) => (if ok then s.(rows := s.rows - {id}) else s, Finished)
    case PassList(snapshot) =>
      // The listing and the clock are read in this one step.
      (s, if ok then PassMark(DoomedIn(s, snapshot)) else Finished)
    case _ => (s, task)
  }

  ghost function Next(s: State, e: Event): State
    requires Enabled(s, e)
  {
    match e
    case BeginLaunch(commands) => s.(tasks := s.tasks + [Launch(commands, [], Insert, {}, {})])
    case ReadForKill(id) => s.(tasks := s.tasks + [KillTmux(id)])
    case ReadForDismiss(id) => s.(tasks := s.tasks + [DismissDelete(id)])
    case ReadForPass => s.(tasks := s.tasks + [PassList(s.rows)])
    case Step(t, ok) =>
      var (s', task) := TaskNext(s, s.tasks[t], ok);
      s'.(tasks := s.tasks[t := task])
    case MarkOne(t, id, ok) =>
      if ok then s.(rows := WithStatus(s.rows, id, Dead), tasks := s.tasks[t := PassMark(s.tasks[t].doomed - {id})])
      else s.(tasks := s.tasks[t := Finished])
    case Tick(elapsed) => s.(clock := s.clock + elapsed)
    case Dies(name) => s.(live := s.live - {name})
    case ForeignStarts(name, command) => s.(live := s.live[name := command])
    case Restart => s.(tasks := [], stuck := s.stuck + (set id | id in s.rows && id !in s.ours))
  }

  // -------------------------------------------------------------------- assumptions

  /** The session a launch is working on. */
  predicate Working(task: Task, id: nat) {
    && task.Launch? && !task.stage.Insert? && !task.stage.Done? && !task.stage.Failed?
    && !task.stage.Undo? && !task.stage.Erase? && task.stage.id == id
  }

  /** ... while its row waits for its tmux session. */
  predicate Waiting(task: Task, id: nat) {
    Working(task, id) && (task.stage.Probe? || task.stage.Title? || task.stage.Start?)
  }

  ghost predicate Pending(s: State, id: nat) {
    exists t :: 0 <= t < |s.tasks| && Waiting(s.tasks[t], id)
  }

  /** What the listing and clock of a pass give up on. */
  function DoomedIn(s: State, snapshot: Rows): set<nat> {
    set id | id in snapshot && Doomed(snapshot, s.live, s.clock, id)
  }

  /** Neither a kill's tmux call nor a pass's listing is made on a session that still
      waits to be started. */
  ghost predicate Assumed(s: State, e: Event) {
    e.Step? && e.ok && e.task < |s.tasks| ==> Harmless(s, s.tasks[e.task])
  }

  ghost predicate Harmless(s: State, task: Task) {
    match task
    case KillTmux(id) => !Pending(s, id)
    case PassList(snapshot) => forall id :: id in DoomedIn(s, snapshot) ==> !Pending(s, id)
    case _ => true
  }

  datatype Run = Run(states: seq<State>, events: seq<Event>)

  ghost predicate StepAt(run: Run, i: nat)
    requires i < |run.events| && |run.states| == |run.events| + 1
  {
    Enabled(run.states[i], run.events[i]) && run.states[i + 1] == Next(run.states[i], run.events[i])
  }

  ghost predicate IsRun(run: Run) {
    && |run.states| == |run.events| + 1 && Initial(run.states[0])
    && forall i :: 0 <= i < |run.events| ==> StepAt(run, i)
  }

  ghost predicate AssumedAt(run: Run, i: nat)
    requires i < |run.events| && |run.states| == |run.events| + 1
  {
    Assumed(run.states[i], run.events[i])
  }

  ghost predicate IsAssumedRun(run: Run) {
    IsRun(run) && forall i :: 0 <= i < |run.events| ==> AssumedAt(run, i)
  }

  // ---------------------------------------------------------------- the invariant

  /** No live session, and none can come: the ID is used up. */
  ghost predicate Gone(s: State, id: nat) {
    id < s.nextID && Name(id) !in s.live && !Pending(s, id)
  }

  ghost predicate RowRuns(s: State, id: nat) {
    id in s.rows && s.rows[id].status == Running
  }

  ghost predicate CreatedOk(s: State, l: Task)
    requires l.Launch?
  {
    && |l.created| <= |l.commands| && Ascending(l.created)
    && forall k :: 0 <= k < |l.created| ==>
         && l.created[k] in s.ours && l.created[k] in l.inserted
         && (Name(l.created[k]) in s.live ==> s.live[Name(l.created[k])] == l.commands[k])
  }

  /** What its stage says of a launch, whatever became of its rows. */
  ghost predicate StageHeld(s: State, l: Task)
    requires l.Launch? && |l.created| <= |l.commands|
  {
    if l.stage.Insert? then |l.created| < |l.commands|
    else if l.stage.Undo? then l.stage.k < |l.created|
    else if l.stage.Erase? then
      l.stage.k < |l.created| && (l.stage.killed ==> Name(l.created[l.stage.k]) !in s.live)
    else if l.stage.Done? then |l.created| == |l.commands|
    else if l.stage.Failed? then true
    else
      var id := l.stage.id;
      && id < s.nextID && id in l.inserted && |l.created| < |l.commands|
      && (forall k :: 0 <= k < |l.created| ==> l.created[k] < id)
      && (Waiting(l, id) || l.stage.Skip? ==> id !in s.ours)
      && (l.stage.Respawn? || l.stage.Cleanup? ==> id in s.ours)
      && (l.stage.Drop? && l.stage.killed && id in s.ours ==> Name(id) !in s.live)
  }

  /** While it waits its row is listed, as it was inserted. */
  ghost predicate RowWaits(s: State, l: Task)
    requires l.Launch?
  {
    l.stage.Probe? || l.stage.Title? || l.stage.Start? ==>
      && RowRuns(s, l.stage.id)
      && s.rows[l.stage.id].createdAt == Stored(l.stage.since) && l.stage.since <= s.clock
  }

  ghost predicate StageOk(s: State, l: Task)
    requires l.Launch? && |l.created| <= |l.commands|
  {
    StageHeld(s, l) && RowWaits(s, l)
  }

  /** How far a rollback has got: the created sessions before this one are undone. */
  function UndoneTo(l: Task): nat
    requires l.Launch?
  {
    match l.stage
    case Undo(k) => k
    case Erase(k, _) => k
    case Failed => |l.created|
    case _ => 0
  }

  /** The launch failed to delete the row, or still has it in its hands. */
  ghost predicate InCharge(l: Task, id: nat)
    requires l.Launch?
  {
    || id in l.left || Working(l, id)
    || exists k :: UndoneTo(l) <= k < |l.created| && l.created[k] == id
  }

  /** A row the launch inserted is gone, or failed to go, or is still in its hands. */
  ghost predicate Accounted(s: State, l: Task, id: nat)
    requires l.Launch?
  {
    id in s.rows ==> InCharge(l, id)
  }

  ghost predicate TaskOk(s: State, task: Task) {
    match task
    case Launch(_, _, _, inserted, _) =>
      && CreatedOk(s, task) && StageOk(s, task)
      && forall id :: id in inserted ==> id < s.nextID && Accounted(s, task, id)
    case KillTmux(id) => id < s.nextID
    case KillMark(id) => Gone(s, id)
    case DismissDelete(id) => Gone(s, id)
    case PassList(snapshot) => forall id :: id in snapshot ==> SnapshotOk(s, snapshot[id], id)
    case PassMark(doomed) => forall id :: id in doomed ==> Gone(s, id)
    case Finished => true
  }

  ghost predicate SnapshotOk(s: State, row: Row, id: nat) {
    id < s.nextID && (Pending(s, id) ==> RowRuns(s, id) && row.createdAt == s.rows[id].createdAt)
  }

  ghost predicate Apart(a: Task, b: Task) {
    a.Launch? && b.Launch? ==> a.inserted !! b.inserted
  }

  ghost predicate Agree(s: State) {
    && (forall id :: id in s.rows || id in s.ours || id in s.orphaned ==> id < s.nextID)
    && (forall id :: id in s.orphaned ==> id !in s.rows)
    && (forall id :: id in s.ours && Name(id) in s.live ==> id in s.orphaned || RowRuns(s, id))
    && (forall id :: id in s.rows && s.rows[id].status == Dead ==> Gone(s, id))
  }

  ghost predicate Inv(s: State) {
    && Agree(s)
    && (forall t :: 0 <= t < |s.tasks| ==> TaskOk(s, s.tasks[t]))
    && (forall t, u :: 0 <= t < u < |s.tasks| ==> Apart(s.tasks[t], s.tasks[u]))
  }

  // ---------------------------------------------------------------- every step keeps it

  lemma NamesApart(x: nat)
    ensures forall id: nat :: id != x ==> Name(id) != Name(x)
  {
    forall id: nat | id != x
      ensures Name(id) != Name(x)
    {
      if Name(id) == Name(x) { NamesDiffer(id, x); }
    }
  }

  /** A step of task t that changes nothing but session x, and brings x to life only for
      the launch that waits for it. */
  ghost predicate Moves(s: State, s': State, t: nat, x: nat) {
    && t < |s.tasks| == |s'.tasks| && s'.tasks == s.tasks[t := s'.tasks[t]]
    && s'.clock == s.clock && s.nextID <= s'.nextID
    && s.ours <= s'.ours <= s.ours + {x} && s.stuck <= s'.stuck
    && s.orphaned <= s'.orphaned <= s.orphaned + {x}
    && (forall id :: id != x ==> (id in s.rows <==> id in s'.rows) && (id in s.rows ==> s'.rows[id] == s.rows[id]))
    && (forall id: nat :: id != x ==>
          (Name(id) in s.live <==> Name(id) in s'.live)
          && (Name(id) in s.live ==> s'.live[Name(id)] == s.live[Name(id)]))
    && (forall id: nat :: Waiting(s'.tasks[t], id) ==> Waiting(s.tasks[t], id) || id >= s.nextID)
    && (Name(x) in s'.live ==> Name(x) in s.live || Waiting(s.tasks[t], x))
  }

  lemma PendingBack(s: State, s': State, t: nat, x: nat, id: nat)
    requires Moves(s, s', t, x) && Pending(s', id)
    ensures Pending(s, id) || id >= s.nextID
  {
  }

  lemma GoneStays(s: State, s': State, t: nat, x: nat, id: nat)
    requires Moves(s, s', t, x) && Gone(s, id)
    ensures Gone(s', id)
  {
  }

  /** What the step may do to x under another launch that inserted it: end it. */
  ghost predicate Ends(s: State, s': State, x: nat) {
    && (x in s'.rows ==> x in s.rows) && (x in s'.ours ==> x in s.ours)
    && (Name(x) in s'.live ==> Name(x) in s.live && s'.live[Name(x)] == s.live[Name(x)])
  }

  lemma OtherLaunch(s: State, s': State, t: nat, x: nat, l: Task)
    requires Moves(s, s', t, x) && l.Launch? && TaskOk(s, l)
    requires x in l.inserted ==> !Waiting(l, x) && Ends(s, s', x)
    ensures TaskOk(s', l)
  {
  }

  lemma OtherTask(s: State, s': State, t: nat, x: nat, task: Task)
    requires Moves(s, s', t, x) && TaskOk(s, task)
    requires task.Launch? && x in task.inserted ==> !Waiting(task, x) && Ends(s, s', x)
    requires Pending(s', x) && x < s.nextID ==>
      RowRuns(s', x) && (x in s.rows ==> s'.rows[x].createdAt == s.rows[x].createdAt)
    ensures TaskOk(s', task)
  {
    match task
    case Launch(_, _, _, _, _) => OtherLaunch(s, s', t, x, task);
    case KillTmux(_) =>
    case KillMark(id) => GoneStays(s, s', t, x, id);
    case DismissDelete(id) => GoneStays(s, s', t, x, id);
    case PassList(snapshot) =>
      forall id | id in snapshot
        ensures SnapshotOk(s', snapshot[id], id)
      {
        assert SnapshotOk(s, snapshot[id], id);
        if Pending(s', id) { PendingBack(s, s', t, x, id); }
      }
    case PassMark(doomed) =>
      forall id | id in doomed
        ensures Gone(s', id)
      {
        GoneStays(s, s', t, x, id);
      }
    case Finished =>
  }

  /** What is left to check of a step, all of it about x and task t. */
  ghost predicate Local(s: State, s': State, t: nat, x: nat)
    requires Moves(s, s', t, x)
  {
    Own(s, s', t, x) && forall u :: 0 <= u < |s.tasks| && u != t ==> Spares(s, s', s.tasks[u], x)
  }

  ghost predicate Own(s: State, s': State, t: nat, x: nat)
    requires Moves(s, s', t, x)
  {
    && TaskOk(s', s'.tasks[t])
    && (x in s'.rows || x in s'.ours || x in s'.orphaned ==> x < s'.nextID)
    && (x in s'.orphaned ==> x !in s'.rows)
    && (x in s'.ours && Name(x) in s'.live ==> x in s'.orphaned || RowRuns(s', x))
    && (x in s'.rows && s'.rows[x].status == Dead ==> Gone(s', x))
    && (forall id: nat :: Working(s.tasks[t], id) ==> id == x)
    && (Pending(s', x) && x < s.nextID ==>
          RowRuns(s', x) && (x in s.rows ==> s'.rows[x].createdAt == s.rows[x].createdAt))
    && (s'.tasks[t].Launch? ==>
          s.tasks[t].Launch? && forall id :: id in s'.tasks[t].inserted ==> id in s.tasks[t].inserted || id >= s.nextID)
  }

  ghost predicate Spares(s: State, s': State, other: Task, x: nat) {
    other.Launch? && x in other.inserted ==> !Waiting(other, x) && Ends(s, s', x)
  }

  lemma StepAgrees(s: State, s': State, t: nat, x: nat)
    requires Inv(s) && Moves(s, s', t, x) && Local(s, s', t, x)
    ensures Agree(s')
  {
  }

  lemma StepKeeps(s: State, s': State, t: nat, x: nat)
    requires Inv(s) && Moves(s, s', t, x) && Local(s, s', t, x)
    ensures Inv(s')
  {
    StepAgrees(s, s', t, x);
    forall u | 0 <= u < |s'.tasks|
      ensures TaskOk(s', s'.tasks[u])
    {
      if u != t {
        assert Spares(s, s', s.tasks[u], x);
        OtherTask(s, s', t, x, s.tasks[u]);
      }
    }
    forall u, v | 0 <= u < v < |s'.tasks|
      ensures Apart(s'.tasks[u], s'.tasks[v])
    {
      assert Apart(s.tasks[u], s.tasks[v]);
      assert TaskOk(s, s.tasks[u]) && TaskOk(s, s.tasks[v]);
    }
  }

  // ------------------------------------------------------------ the steps of a launch

  /** No other launch has to do with a session this one inserted. */
  lemma Sole(s: State, s': State, t: nat, x: nat)
    requires Inv(s) && t < |s.tasks| == |s'.tasks| && s'.tasks == s.tasks[t := s'.tasks[t]]
    requires s.tasks[t].Launch? && x in s.tasks[t].inserted
    ensures forall u :: 0 <= u < |s.tasks| && u != t ==> Spares(s, s', s.tasks[u], x)
    ensures Pending(s', x) ==> Waiting(s'.tasks[t], x)
    ensures Pending(s, x) ==> Waiting(s.tasks[t], x)
  {
  }

  /** A failing insert only turns the launch back. */
  lemma TurnedBack(s: State, t: nat, l': Task)
    requires Inv(s) && t < |s.tasks| && s.tasks[t].Launch? && s.tasks[t].stage.Insert?
    requires l' == Rolling(s.tasks[t], 0)
    ensures Inv(s.(tasks := s.tasks[t := l']))
  {
    var l, s' := s.tasks[t], s.(tasks := s.tasks[t := l']);
    assert TaskOk(s, l);
    forall id | id in l'.inserted
      ensures Accounted(s', l', id)
    {
      assert Accounted(s, l, id);
    }
    assert !Pending(s', s.nextID) by {
      if Pending(s', s.nextID) { PendingBack(s, s', t, s.nextID, s.nextID); }
    }
    StepKeeps(s, s', t, s.nextID);
  }

  lemma InsertStep(s: State, t: nat, ok: bool)
    requires Inv(s) && Enabled(s, Step(t, ok)) && s.tasks[t].Launch? && s.tasks[t].stage.Insert?
    ensures Inv(Next(s, Step(t, ok)))
  {
    var l, s' := s.tasks[t], Next(s, Step(t, ok));
    var x, l' := s.nextID, s'.tasks[t];
    if !ok {
      TurnedBack(s, t, l');
      return;
    }
    assert TaskOk(s, l);
    assert Moves(s, s', t, x) by { NamesApart(x); }
    assert Waiting(l', x);
    assert Working(s'.tasks[t], x);
    forall u | 0 <= u < |s.tasks| && u != t
      ensures Spares(s, s', s.tasks[u], x)
    {
      assert TaskOk(s, s.tasks[u]);
    }
    forall id | id in l'.inserted
      ensures Accounted(s', l', id)
    {
      assert id in l.inserted ==> Accounted(s, l, id);
    }
    StepKeeps(s, s', t, x);
  }

  /** What the launch's own part of a step rests on. */
  ghost predicate Quiet(s: State, t: nat) {
    t < |s.tasks| && Agree(s) && TaskOk(s, s.tasks[t])
  }

  ghost predicate SoleWaiter(s: State, t: nat, x: nat)
    requires t < |s.tasks|
  {
    Pending(s, x) ==> Waiting(s.tasks[t], x)
  }

  ghost predicate Moved(s: State, s': State, t: nat, x: nat) {
    Moves(s, s', t, x) && Own(s, s', t, x)
  }

  /** The session a step of a launch is about. */
  function Subject(l: Task): nat
    requires l.Launch? && !l.stage.Insert? && !l.stage.Done? && !l.stage.Failed?
    requires (l.stage.Undo? || l.stage.Erase?) ==> l.stage.k < |l.created|
  {
    if l.stage.Undo? || l.stage.Erase? then l.created[l.stage.k] else l.stage.id
  }

  lemma LaunchTouchesRows(s: State, t: nat, ok: bool)
    requires Quiet(s, t) && Enabled(s, Step(t, ok)) && s.tasks[t].Launch? && !s.tasks[t].stage.Insert?
    ensures
      var s', x := Next(s, Step(t, ok)), Subject(s.tasks[t]);
      forall id :: id != x ==> (id in s.rows <==> id in s'.rows) && (id in s.rows ==> s'.rows[id] == s.rows[id])
  {
  }

  lemma LaunchTouchesLive(s: State, t: nat, ok: bool)
    requires Quiet(s, t) && Enabled(s, Step(t, ok)) && s.tasks[t].Launch? && !s.tasks[t].stage.Insert?
    ensures
      var s', x := Next(s, Step(t, ok)), Subject(s.tasks[t]);
      && (forall name :: name != Name(x) ==>
            (name in s.live <==> name in s'.live) && (name in s.live ==> s'.live[name] == s.live[name]))
      && (Name(x) in s'.live ==> Name(x) in s.live || Waiting(s.tasks[t], x))
  {
  }

  lemma LaunchTouchesSets(s: State, t: nat, ok: bool)
    requires Quiet(s, t) && Enabled(s, Step(t, ok)) && s.tasks[t].Launch? && !s.tasks[t].stage.Insert?
    ensures
      var s', x := Next(s, Step(t, ok)), Subject(s.tasks[t]);
      && s'.clock == s.clock && s'.nextID == s.nextID
      && s.ours <= s'.ours <= s.ours + {x}
  {
  }

  lemma LaunchStrands(s: State, t: nat, ok: bool)
    requires Quiet(s, t) && Enabled(s, Step(t, ok)) && s.tasks[t].Launch? && !s.tasks[t].stage.Insert?
    ensures
      var s', x := Next(s, Step(t, ok)), Subject(s.tasks[t]);
      && s.stuck <= s'.stuck
      && s.orphaned <= s'.orphaned <= s.orphaned + {x}
  {
  }

  lemma LaunchWaitsOn(s: State, t: nat, ok: bool)
    requires Quiet(s, t) && Enabled(s, Step(t, ok)) && s.tasks[t].Launch? && !s.tasks[t].stage.Insert?
    ensures forall id: nat :: Waiting(Next(s, Step(t, ok)).tasks[t], id) ==> Waiting(s.tasks[t], id)
  {
  }

  lemma LaunchTouchesOne(s: State, t: nat, ok: bool)
    requires Quiet(s, t) && Enabled(s, Step(t, ok)) && s.tasks[t].Launch? && !s.tasks[t].stage.Insert?
    ensures Moves(s, Next(s, Step(t, ok)), t, Subject(s.tasks[t]))
  {
    LaunchTouchesRows(s, t, ok);
    LaunchTouchesLive(s, t, ok);
    LaunchTouchesSets(s, t, ok);
    LaunchStrands(s, t, ok);
    LaunchWaitsOn(s, t, ok);
    NamesApart(Subject(s.tasks[t]));
  }

  /** A launch's rows stay accounted for through a step that starts nothing. */
  lemma AccountsStay(s: State, s': State, l: Task, l': Task)
    requires l.Launch? && l'.Launch? && l' == l.(stage := l'.stage, left := l'.left) && l.left <= l'.left
    requires forall id :: id in l.inserted ==> Accounted(s, l, id)
    requires forall id :: id in s'.rows ==> id in s.rows
    requires forall id: nat :: Working(l, id) ==> Working(l', id) || id !in s'.rows || id in l'.left
    requires forall k :: UndoneTo(l) <= k < UndoneTo(l') && k < |l.created| ==>
      l.created[k] !in s'.rows || l.created[k] in l'.left
    ensures forall id :: id in l'.inserted ==> Accounted(s', l', id)
  {
    forall id | id in l'.inserted
      ensures Accounted(s', l', id)
    {
      assert Accounted(s, l, id);
    }
  }

  /** A step after which the launch is still at work on the same session. */
  lemma WorkGoesOn(s: State, t: nat, ok: bool, x: nat)
    requires Quiet(s, t) && Enabled(s, Step(t, ok)) && s.tasks[t].Launch? && Working(s.tasks[t], x)
    requires !s.tasks[t].stage.Skip? && !s.tasks[t].stage.Drop?
    requires ok ==> !s.tasks[t].stage.Start? && !s.tasks[t].stage.Respawn?
    requires SoleWaiter(Next(s, Step(t, ok)), t, x)
    ensures Moved(s, Next(s, Step(t, ok)), t, x)
  {
    var s' := Next(s, Step(t, ok));
    LaunchTouchesOne(s, t, ok);
    AccountsStay(s, s', s.tasks[t], s'.tasks[t]);
  }

  /** A step in which the launch lets go of its session. */
  lemma WorkEnds(s: State, t: nat, ok: bool, x: nat)
    requires Quiet(s, t) && Enabled(s, Step(t, ok)) && s.tasks[t].Launch? && Working(s.tasks[t], x)
    requires s.tasks[t].stage.Skip? || s.tasks[t].stage.Drop?
    requires SoleWaiter(Next(s, Step(t, ok)), t, x)
    ensures Moved(s, Next(s, Step(t, ok)), t, x)
  {
    var s' := Next(s, Step(t, ok));
    LaunchTouchesOne(s, t, ok);
    AccountsStay(s, s', s.tasks[t], s'.tasks[t]);
  }

  /** A step of a rollback. */
  lemma RollbackGoesOn(s: State, t: nat, ok: bool)
    requires Quiet(s, t) && Enabled(s, Step(t, ok)) && s.tasks[t].Launch?
    requires s.tasks[t].stage.Undo? || s.tasks[t].stage.Erase?
    requires SoleWaiter(Next(s, Step(t, ok)), t, s.tasks[t].created[s.tasks[t].stage.k])
    ensures Moved(s, Next(s, Step(t, ok)), t, s.tasks[t].created[s.tasks[t].stage.k])
  {
    var s' := Next(s, Step(t, ok));
    var x := s.tasks[t].created[s.tasks[t].stage.k];
    LaunchTouchesOne(s, t, ok);
    AccountsStay(s, s', s.tasks[t], s'.tasks[t]);
  }

  /** One more session of the group is up. */
  lemma StartedIsOk(s: State, l: Task, id: nat)
    requires l.Launch? && CreatedOk(s, l) && |l.created| < |l.commands| && Working(l, id) && UndoneTo(l) == 0
    requires id in s.ours && id in l.inserted && forall k :: 0 <= k < |l.created| ==> l.created[k] < id
    requires Name(id) in s.live ==> s.live[Name(id)] == l.commands[|l.created|]
    requires forall i :: i in l.inserted ==> i < s.nextID && Accounted(s, l, i)
    ensures TaskOk(s, Started(l, id))
  {
    var l' := Started(l, id);
    assert CreatedOk(s, l');
    forall i | i in l'.inserted
      ensures Accounted(s, l', i)
    {
      assert Accounted(s, l, i);
      if i == id {
        assert l'.created[|l.created|] == id;
      } else if i in s.rows && i !in l.left {
        var k :| UndoneTo(l) <= k < |l.created| && l.created[k] == i;
        assert l'.created[k] == i;
      }
    }
  }

  /** The stores change at x only, and the launch says so in its own terms. */
  lemma LaunchAfter(s: State, w: State, x: nat, l: Task)
    requires l.Launch? && TaskOk(s, l) && Working(l, x) && !l.stage.Drop? && !l.stage.Skip?
    requires w.nextID == s.nextID && w.rows == s.rows && w.clock == s.clock
    requires s.ours <= w.ours <= s.ours + {x} && w.orphaned == s.orphaned
    requires forall name :: name != Name(x) ==>
      (name in s.live <==> name in w.live) && (name in s.live ==> w.live[name] == s.live[name])
    ensures CreatedOk(w, l) && forall id :: id in l.inserted ==> id < w.nextID && Accounted(w, l, id)
  {
    NamesApart(x);
    forall id | id in l.inserted
      ensures Accounted(w, l, id)
    {
      assert Accounted(s, l, id);
    }
  }

  lemma StartOk(s: State, t: nat)
    requires Quiet(s, t) && Enabled(s, Step(t, true)) && s.tasks[t].Launch? && s.tasks[t].stage.Start?
    requires SoleWaiter(Next(s, Step(t, true)), t, s.tasks[t].stage.id)
    ensures Moved(s, Next(s, Step(t, true)), t, s.tasks[t].stage.id)
  {
    var l, s' := s.tasks[t], Next(s, Step(t, true));
    var x, l' := l.stage.id, s'.tasks[t];
    assert TaskOk(s, l);
    LaunchTouchesOne(s, t, true);
    LaunchAfter(s, s'.(tasks := s.tasks), x, l);
    assert CreatedOk(s', l) && forall id :: id in l.inserted ==> Accounted(s', l, id);
    if l.commands[|l.created|] == "" {
      StartedIsOk(s', l, x);
    } else {
      assert Working(s'.tasks[t], x);
      forall id | id in l'.inserted
        ensures Accounted(s', l', id)
      {
        assert Accounted(s', l, id);
      }
    }
  }

  lemma RespawnOk(s: State, t: nat)
    requires Quiet(s, t) && Enabled(s, Step(t, true)) && s.tasks[t].Launch? && s.tasks[t].stage.Respawn?
    requires SoleWaiter(Next(s, Step(t, true)), t, s.tasks[t].stage.id)
    ensures Moved(s, Next(s, Step(t, true)), t, s.tasks[t].stage.id)
  {
    var l, s' := s.tasks[t], Next(s, Step(t, true));
    var x := l.stage.id;
    assert TaskOk(s, l);
    LaunchTouchesOne(s, t, true);
    LaunchAfter(s, s'.(tasks := s.tasks), x, l);
    assert CreatedOk(s', l) && forall id :: id in l.inserted ==> Accounted(s', l, id);
    StartedIsOk(s', l, x);
  }

  lemma LaunchMoves(s: State, t: nat, ok: bool)
    requires Quiet(s, t) && Enabled(s, Step(t, ok)) && s.tasks[t].Launch? && !s.tasks[t].stage.Insert?
    requires SoleWaiter(Next(s, Step(t, ok)), t, Subject(s.tasks[t]))
    ensures Moved(s, Next(s, Step(t, ok)), t, Subject(s.tasks[t]))
  {
    var stage := s.tasks[t].stage;
    if stage.Undo? || stage.Erase? {
      RollbackGoesOn(s, t, ok);
    } else if stage.Skip? || stage.Drop? {
      WorkEnds(s, t, ok, stage.id);
    } else if stage.Start? && ok {
      StartOk(s, t);
    } else if stage.Respawn? && ok {
      RespawnOk(s, t);
    } else {
      WorkGoesOn(s, t, ok, stage.id);
    }
  }

  lemma LaunchKeeps(s: State, t: nat, ok: bool)
    requires Inv(s) && Enabled(s, Step(t, ok)) && s.tasks[t].Launch?
    ensures Inv(Next(s, Step(t, ok)))
  {
    if s.tasks[t].stage.Insert? {
      InsertStep(s, t, ok);
    } else {
      var x, s' := Subject(s.tasks[t]), Next(s, Step(t, ok));
      assert TaskOk(s, s.tasks[t]);
      Sole(s, s', t, x);
      LaunchMoves(s, t, ok);
      StepKeeps(s, s', t, x);
    }
  }

  // ------------------------------------------------ kills, dismissals and passes

  lemma KillTmuxKeeps(s: State, t: nat)
    requires Inv(s) && Enabled(s, Step(t, true)) && s.tasks[t].KillTmux? && !Pending(s, s.tasks[t].id)
    ensures Inv(Next(s, Step(t, true)))
  {
    var s' := Next(s, Step(t, true));
    var x := s.tasks[t].id;
    assert TaskOk(s, s.tasks[t]);
    assert Moves(s, s', t, x) by { NamesApart(x); }
    assert !Pending(s', x) by {
      if Pending(s', x) { PendingBack(s, s', t, x, x); }
    }
    assert forall u :: 0 <= u < |s.tasks| && Waiting(s.tasks[u], x) ==> Pending(s, x);
    StepKeeps(s, s', t, x);
  }

  /** A task that ends, or a listing, changes neither store. */
  lemma OnlyTaskKeeps(s: State, t: nat, task: Task)
    requires Inv(s) && t < |s.tasks| && !s.tasks[t].Launch? && !task.Launch?
    requires TaskOk(s, task)
    ensures Inv(s.(tasks := s.tasks[t := task]))
  {
    var s', x := s.(tasks := s.tasks[t := task]), s.nextID;
    assert Moves(s, s', t, x);
    OtherTask(s, s', t, x, task);
    forall u | 0 <= u < |s.tasks|
      ensures Spares(s, s', s.tasks[u], x)
    {
      assert TaskOk(s, s.tasks[u]);
    }
    StepKeeps(s, s', t, x);
  }

  /** Marking or deleting the row of a session that is gone. */
  lemma GoneRowKeeps(s: State, s': State, t: nat, x: nat)
    requires Inv(s) && t < |s.tasks| && !s.tasks[t].Launch? && !s.tasks[t].Finished? && Gone(s, x)
    requires s'.rows == s.rows || s'.rows == WithStatus(s.rows, x, Dead) || s'.rows == s.rows - {x}
    requires s' == s.(rows := s'.rows, tasks := s'.tasks) && |s'.tasks| == |s.tasks|
    requires s'.tasks == s.tasks[t := s'.tasks[t]]
    requires
      || s'.tasks[t].Finished?
      || (s'.tasks[t].PassMark? && s.tasks[t].PassMark? && s'.tasks[t].doomed <= s.tasks[t].doomed)
    ensures Inv(s')
  {
    assert Moves(s, s', t, x);
    GoneStays(s, s', t, x, x);
    if s'.tasks[t].PassMark? {
      assert TaskOk(s, s.tasks[t]);
      forall id | id in s'.tasks[t].doomed
        ensures Gone(s', id)
      {
        GoneStays(s, s', t, x, id);
      }
    }
    assert forall u :: 0 <= u < |s.tasks| && Waiting(s.tasks[u], x) ==> Pending(s, x);
    StepKeeps(s, s', t, x);
  }

  /** A launch whose wait has not used up the grace, the second that created_at loses to
      truncation taken off. */
  predicate InTime(task: Task, clock: nat) {
    task.Launch? && (task.stage.Probe? || task.stage.Title? || task.stage.Start?) ==>
      clock < task.stage.since + RECONCILE_GRACE - SECOND
  }

  lemma YoungIsSpared(s: State, snapshot: Rows, u: nat, id: nat)
    requires u < |s.tasks| && Waiting(s.tasks[u], id) && TaskOk(s, s.tasks[u]) && InTime(s.tasks[u], s.clock)
    requires id in snapshot && SnapshotOk(s, snapshot[id], id)
    ensures !Doomed(snapshot, s.live, s.clock, id)
  {
    StoredIsClose(s.tasks[u].stage.since);
  }

  /** Why the grace is enough: when every launch that waits is in time, the listing of a
      pass is harmless, however old the snapshot it is held against. */
  lemma PassInTimeIsHarmless(s: State, t: nat)
    requires Inv(s) && t < |s.tasks| && s.tasks[t].PassList?
    requires forall u :: 0 <= u < |s.tasks| ==> InTime(s.tasks[u], s.clock)
    ensures Harmless(s, s.tasks[t])
  {
    var snapshot := s.tasks[t].snapshot;
    assert TaskOk(s, s.tasks[t]);
    forall u, id: nat | 0 <= u < |s.tasks| && Waiting(s.tasks[u], id) && id in snapshot
      ensures id !in DoomedIn(s, snapshot)
    {
      assert TaskOk(s, s.tasks[u]) && SnapshotOk(s, snapshot[id], id);
      YoungIsSpared(s, snapshot, u, id);
    }
  }

  lemma StoredIsClose(now: nat)
    ensures now - SECOND < Stored(now) <= now
  {
  }

  lemma TaskKeeps(s: State, t: nat, ok: bool)
    requires Inv(s) && Enabled(s, Step(t, ok)) && (ok ==> Harmless(s, s.tasks[t]))
    ensures Inv(Next(s, Step(t, ok)))
  {
    assert TaskOk(s, s.tasks[t]);
    match s.tasks[t]
    case Launch(_, _, _, _, _) => LaunchKeeps(s, t, ok);
    case KillTmux(_) => if ok { KillTmuxKeeps(s, t); } else { OnlyTaskKeeps(s, t, Finished); }
    case KillMark(x) => GoneRowKeeps(s, Next(s, Step(t, ok)), t, x);
    case DismissDelete(x) => GoneRowKeeps(s, Next(s, Step(t, ok)), t, x);
    case PassList(snapshot) =>
      assert ok ==> forall id :: id in DoomedIn(s, snapshot) ==> SnapshotOk(s, snapshot[id], id);
      OnlyTaskKeeps(s, t, if ok then PassMark(DoomedIn(s, snapshot)) else Finished);
  }

  // ---------------------------------------------------- requests arriving, and the world

  lemma ArrivalKeeps(s: State, task: Task)
    requires Inv(s)
    requires task.Launch? ==> |task.commands| > 0 && task == Launch(task.commands, [], Insert, {}, {})
    requires task.KillTmux? ==> task.id in s.rows
    requires !task.KillMark? && !task.PassMark?
    requires task.DismissDelete? ==> task.id in s.rows && s.rows[task.id].status == Dead
    requires task.PassList? ==> task.snapshot == s.rows
    ensures Inv(s.(tasks := s.tasks + [task]))
  {
    var s' := s.(tasks := s.tasks + [task]);
    forall id: nat
      ensures Pending(s', id) <==> Pending(s, id)
    {
      SamePending(s, task, id);
    }
    assert forall id :: Gone(s', id) <==> Gone(s, id);
    forall t | 0 <= t < |s'.tasks|
      ensures TaskOk(s', s'.tasks[t])
    {
      if t < |s.tasks| {
        Unmoved(s, s', s.tasks[t]);
      } else if task.PassList? {
        forall id | id in task.snapshot
          ensures SnapshotOk(s', task.snapshot[id], id)
        {
          if Pending(s, id) {
            var u :| 0 <= u < |s.tasks| && Waiting(s.tasks[u], id);
            assert TaskOk(s, s.tasks[u]);
          }
        }
      }
    }
    forall t, u | 0 <= t < u < |s'.tasks|
      ensures Apart(s'.tasks[t], s'.tasks[u])
    {
      assert u < |s.tasks| ==> Apart(s.tasks[t], s.tasks[u]);
    }
  }

  lemma SamePending(s: State, task: Task, id: nat)
    requires !(exists i: nat :: Waiting(task, i))
    ensures Pending(s.(tasks := s.tasks + [task]), id) <==> Pending(s, id)
  {
    var s' := s.(tasks := s.tasks + [task]);
    if Pending(s, id) {
      var t :| 0 <= t < |s.tasks| && Waiting(s.tasks[t], id);
      assert Waiting(s'.tasks[t], id);
    }
  }

  /** Nothing but time and sessions ending: every task is as well off as before. */
  lemma Unmoved(s: State, s': State, task: Task)
    requires TaskOk(s, task)
    requires s'.rows == s.rows && s'.nextID == s.nextID && s'.ours == s.ours && s'.stuck == s.stuck
    requires s.clock <= s'.clock
    requires forall id: nat :: Name(id) in s'.live ==> Name(id) in s.live && s'.live[Name(id)] == s.live[Name(id)]
    requires forall id: nat :: Pending(s', id) <==> Pending(s, id)
    ensures TaskOk(s', task)
  {
  }

  lemma WorldKeeps(s: State, s': State)
    requires Inv(s) && s' == s.(live := s'.live, clock := s'.clock) && s.clock <= s'.clock
    requires forall id: nat :: Name(id) in s'.live ==> Name(id) in s.live && s'.live[Name(id)] == s.live[Name(id)]
    ensures Inv(s')
  {
    assert forall id: nat :: Pending(s', id) <==> Pending(s, id);
    assert forall id :: Gone(s, id) ==> Gone(s', id);
    forall t | 0 <= t < |s'.tasks|
      ensures TaskOk(s', s'.tasks[t])
    {
      Unmoved(s, s', s.tasks[t]);
    }
    forall t, u | 0 <= t < u < |s'.tasks|
      ensures Apart(s'.tasks[t], s'.tasks[u])
    {
      assert Apart(s.tasks[t], s.tasks[u]);
    }
  }

  lemma RestartKeeps(s: State)
    requires Inv(s)
    ensures Inv(Next(s, Restart))
  {
  }

  lemma NextInv(s: State, e: Event)
    requires Inv(s) && Enabled(s, e) && Assumed(s, e)
    ensures Inv(Next(s, e))
  {
    assert forall t :: 0 <= t < |s.tasks| ==> TaskOk(s, s.tasks[t]);
    match e
    case BeginLaunch(commands) => ArrivalKeeps(s, Launch(commands, [], Insert, {}, {}));
    case ReadForKill(id) => ArrivalKeeps(s, KillTmux(id));
    case ReadForDismiss(id) => ArrivalKeeps(s, DismissDelete(id));
    case ReadForPass => ArrivalKeeps(s, PassList(s.rows));
    case Step(t, ok) => TaskKeeps(s, t, ok);
    case MarkOne(t, id, ok) => GoneRowKeeps(s, Next(s, e), t, id);
    case Restart => RestartKeeps(s);
    case _ => WorldKeeps(s, Next(s, e));
  }

  lemma {:induction false} RunInv(run: Run, i: nat)
    requires IsAssumedRun(run) && i < |run.states|
    ensures Inv(run.states[i])
  {
    if i > 0 {
      RunInv(run, i - 1);
      assert StepAt(run, i - 1) && AssumedAt(run, i - 1);
      NextInv(run.states[i - 1], run.events[i - 1]);
    }
  }

  // ------------------------------------------------------------------ main results

  /** A session the daemon started is live, its row was not given up by a rollback, and
      yet no running row shows it. */
  ghost predicate Lost(s: State, id: nat) {
    id in s.ours && Name(id) in s.live && id !in s.orphaned && !RowRuns(s, id)
  }

  /** No lost sessions: at every moment of every run, a live session the daemon started
      has a running row, except when the launch that rolled it back failed to kill it and
      deleted its row all the same. */
  lemma NoLostSessions(run: Run, i: nat, id: nat)
    requires IsAssumedRun(run) && i < |run.states|
    requires id in run.states[i].ours && Name(id) in run.states[i].live
    ensures RowRuns(run.states[i], id) <==> id !in run.states[i].orphaned
  {
    RunInv(run, i);
  }

  /** No kill's tmux call on a session that still waits, and no listing by a pass but while
      every launch that waits is in time. */
  ghost predicate TimelyAt(run: Run, i: nat)
    requires i < |run.events| && |run.states| == |run.events| + 1
  {
    var s, e := run.states[i], run.events[i];
    e.Step? && e.ok && e.task < |s.tasks| ==>
      && (s.tasks[e.task].KillTmux? ==> !Pending(s, s.tasks[e.task].id))
      && (s.tasks[e.task].PassList? ==> forall u :: 0 <= u < |s.tasks| ==> InTime(s.tasks[u], s.clock))
  }

  ghost predicate IsTimelyRun(run: Run) {
    IsRun(run) && forall i :: 0 <= i < |run.events| ==> TimelyAt(run, i)
  }

  lemma {:induction false} TimelyInv(run: Run, i: nat)
    requires IsTimelyRun(run) && i < |run.states|
    ensures Inv(run.states[i]) && (i < |run.events| ==> AssumedAt(run, i))
  {
    if i > 0 {
      TimelyInv(run, i - 1);
      assert StepAt(run, i - 1);
      NextInv(run.states[i - 1], run.events[i - 1]);
    }
    if i < |run.events| && run.events[i].Step? && run.events[i].task < |run.states[i].tasks| {
      assert TimelyAt(run, i);
      if run.events[i].ok && run.states[i].tasks[run.events[i].task].PassList? {
        PassInTimeIsHarmless(run.states[i], run.events[i].task);
      }
    }
  }

  /** The grace does what it is for: in every run in which launches that wait are in time
      whenever a pass lists tmux, and no kill is made on a session that waits, none is lost. */
  lemma TimelyRunsLoseNothing(run: Run)
    requires IsTimelyRun(run)
    ensures IsAssumedRun(run)
    ensures forall i, id: nat :: 0 <= i < |run.states| ==> !Lost(run.states[i], id)
  {
    forall i | 0 <= i < |run.events|
      ensures AssumedAt(run, i)
    {
      TimelyInv(run, i);
    }
    forall i, id: nat | 0 <= i < |run.states|
      ensures !Lost(run.states[i], id)
    {
      TimelyInv(run, i);
    }
  }

  lemma GoneForGood(s: State, e: Event, id: nat)
    requires Inv(s) && Enabled(s, e) && Gone(s, id)
    ensures Gone(Next(s, e), id)
  {
    if Pending(Next(s, e), id) {
      PendingBefore(s, e, id);
    }
    NamesApart(id);
    assert e.Step? && Waiting(s.tasks[e.task], id) ==> Pending(s, id);
  }

  lemma PendingBefore(s: State, e: Event, id: nat)
    requires Enabled(s, e) && Pending(Next(s, e), id) && id < s.nextID
    ensures Pending(s, id)
  {
  }

  /** A dead row names a session that is gone, and gone for good: nothing the daemon does
      later brings the name back. */
  lemma {:induction false} DeadSessionsStayGone(run: Run, i: nat, j: nat, id: nat)
    requires IsAssumedRun(run) && i <= j < |run.states|
    requires id in run.states[i].rows && run.states[i].rows[id].status == Dead
    ensures Gone(run.states[j], id)
    decreases j
  {
    if j == i {
      RunInv(run, i);
    } else {
      DeadSessionsStayGone(run, i, j - 1, id);
      RunInv(run, j - 1);
      assert StepAt(run, j - 1);
      GoneForGood(run.states[j - 1], run.events[j - 1], id);
    }
  }

  // ------------------------------------------- exactly when a session can be lost

  /** Steps that are all harmless lead from s to a lost session. */
  ghost predicate Loses(s: State, events: seq<Event>)
    decreases |events|
  {
    if events == [] then exists id: nat :: Lost(s, id)
    else Enabled(s, events[0]) && Assumed(s, events[0]) && Loses(Next(s, events[0]), events[1..])
  }

  ghost predicate CanLose(s: State) {
    exists events :: Loses(s, events)
  }

  lemma {:induction false} InvNeverLoses(s: State, events: seq<Event>)
    requires Inv(s)
    ensures !Loses(s, events)
    decreases |events|
  {
    if events != [] && Enabled(s, events[0]) && Assumed(s, events[0]) {
      NextInv(s, events[0]);
      InvNeverLoses(Next(s, events[0]), events[1..]);
    }
  }

  lemma LosesAfter(s: State, e: Event)
    requires Enabled(s, e) && Assumed(s, e) && CanLose(Next(s, e))
    ensures CanLose(s)
  {
    var events :| Loses(Next(s, e), events);
    assert ([e] + events)[1..] == events;
    assert Loses(s, [e] + events);
  }

  /** Launch u waits to start a session that task t is about to mark dead. */
  ghost predicate Cornered(s: State, u: nat, t: nat, id: nat) {
    && u < |s.tasks| && t < |s.tasks| && u != t && Waiting(s.tasks[u], id)
    && |s.tasks[u].created| < |s.tasks[u].commands|
    && id in s.rows && id !in s.orphaned && Name(id) !in s.live
    && (s.tasks[t] == KillMark(id) || (s.tasks[t].PassMark? && id in s.tasks[t].doomed))
  }

  lemma MarkedAfterStart(s: State, t: nat, id: nat)
    requires t < |s.tasks| && (s.tasks[t] == KillMark(id) || (s.tasks[t].PassMark? && id in s.tasks[t].doomed))
    requires id in s.rows && id !in s.orphaned && id in s.ours && Name(id) in s.live
    ensures CanLose(s)
  {
    var e := if s.tasks[t].KillMark? then Step(t, true) else MarkOne(t, id, true);
    assert Lost(Next(s, e), id);
    assert Loses(Next(s, e), []);
    LosesAfter(s, e);
  }

  lemma CorneredAtStart(s: State, u: nat, t: nat, id: nat)
    requires Cornered(s, u, t, id) && s.tasks[u].stage.Start?
    ensures CanLose(s)
  {
    MarkedAfterStart(Next(s, Step(u, true)), t, id);
    LosesAfter(s, Step(u, true));
  }

  lemma CorneredAtTitle(s: State, u: nat, t: nat, id: nat)
    requires Cornered(s, u, t, id) && s.tasks[u].stage.Title?
    ensures CanLose(s)
  {
    CorneredAtStart(Next(s, Step(u, true)), u, t, id);
    LosesAfter(s, Step(u, true));
  }

  lemma CorneredLoses(s: State, u: nat, t: nat, id: nat)
    requires Cornered(s, u, t, id)
    ensures CanLose(s)
  {
    if s.tasks[u].stage.Start? {
      CorneredAtStart(s, u, t, id);
    } else if s.tasks[u].stage.Title? {
      CorneredAtTitle(s, u, t, id);
    } else {
      var s' := Next(s, Step(u, true));
      if s'.tasks[u].stage.Title? {
        CorneredAtTitle(s', u, t, id);
      } else {
        CorneredAtStart(s', u, t, id);
      }
      LosesAfter(s, Step(u, true));
    }
  }

  /** The exact condition, over every reachable state and every step: a session can be
      lost, then or later, exactly when a kill's tmux call or a pass's listing is made on
      a session that still waits to be started. Kills of a session in any other stage of
      its launch are harmless. */
  lemma StepCanLoseIff(s: State, e: Event)
    requires Inv(s) && Enabled(s, e)
    ensures CanLose(Next(s, e)) <==> !Assumed(s, e)
  {
    if Assumed(s, e) {
      NextInv(s, e);
      if CanLose(Next(s, e)) {
        var events :| Loses(Next(s, e), events);
        InvNeverLoses(Next(s, e), events);
      }
    } else {
      HarmfulCorners(s, e.task);
    }
  }

  lemma HarmfulCorners(s: State, t: nat)
    requires Inv(s) && Enabled(s, Step(t, true)) && !Harmless(s, s.tasks[t])
    ensures CanLose(Next(s, Step(t, true)))
  {
    var s' := Next(s, Step(t, true));
    var id: nat :| Pending(s, id)
      && (s.tasks[t] == KillTmux(id) || (s.tasks[t].PassList? && id in DoomedIn(s, s.tasks[t].snapshot)));
    var u :| 0 <= u < |s.tasks| && Waiting(s.tasks[u], id);
    assert TaskOk(s, s.tasks[u]);
    assert s'.tasks[u] == s.tasks[u];
    CorneredLoses(s', u, t, id);
  }

  // --------------------------------------------------- whose sessions are killed

  /** Each row is of a session the daemon started, or in a launch's hands, or stuck. */
  ghost predicate Explained(s: State, id: nat) {
    id in s.ours || id in s.stuck || InHand(s, id)
  }

  ghost predicate InHand(s: State, id: nat) {
    exists t :: 0 <= t < |s.tasks| && Working(s.tasks[t], id)
  }

  /** What a launch may kill, the daemon has started. */
  ghost predicate KillsOwn(s: State, task: Task) {
    task.Launch? ==>
      && (forall k :: 0 <= k < |task.created| ==> task.created[k] in s.ours)
      && (task.stage.Respawn? || task.stage.Cleanup? ==> task.stage.id in s.ours)
  }

  ghost predicate Accountable(s: State) {
    && (forall id :: id in s.rows ==> Explained(s, id))
    && (forall t :: 0 <= t < |s.tasks| ==> KillsOwn(s, s.tasks[t]))
  }

  /** A step of one task: what it works on next, and which rows it may add. */
  lemma TaskExplains(s: State, t: nat, ok: bool, id: nat)
    requires Accountable(s) && Enabled(s, Step(t, ok)) && id in Next(s, Step(t, ok)).rows
    ensures Explained(Next(s, Step(t, ok)), id)
  {
    var s' := Next(s, Step(t, ok));
    if id in s.rows {
      assert Explained(s, id);
      if id !in s.ours && id !in s.stuck {
        var u :| 0 <= u < |s.tasks| && Working(s.tasks[u], id);
        assert u != t ==> Working(s'.tasks[u], id);
        assert u == t ==> Working(s'.tasks[t], id) || id in s'.ours || id in s'.stuck;
      }
    } else {
      assert Working(s'.tasks[t], id);
    }
  }

  lemma TaskKillsOwn(s: State, t: nat, ok: bool)
    requires Accountable(s) && Enabled(s, Step(t, ok))
    ensures KillsOwn(Next(s, Step(t, ok)), Next(s, Step(t, ok)).tasks[t]) && s.ours <= Next(s, Step(t, ok)).ours
  {
    assert KillsOwn(s, s.tasks[t]);
  }

  lemma StaysInHand(s: State, s': State, id: nat)
    requires InHand(s, id) && |s.tasks| <= |s'.tasks|
    requires forall t :: 0 <= t < |s.tasks| && s.tasks[t].Launch? ==> s'.tasks[t] == s.tasks[t]
    ensures InHand(s', id)
  {
    var t :| 0 <= t < |s.tasks| && Working(s.tasks[t], id);
    assert Working(s'.tasks[t], id);
  }

  lemma NextAccountable(s: State, e: Event)
    requires Accountable(s) && Enabled(s, e)
    ensures Accountable(Next(s, e))
  {
    var s' := Next(s, e);
    forall id | id in s'.rows
      ensures Explained(s', id)
    {
      if e.Step? {
        TaskExplains(s, e.task, e.ok, id);
      } else {
        assert Explained(s, id);
        if InHand(s, id) && !e.Restart? { StaysInHand(s, s', id); }
      }
    }
    forall t | 0 <= t < |s'.tasks|
      ensures KillsOwn(s', s'.tasks[t])
    {
      if e.Step? {
        TaskKillsOwn(s, e.task, e.ok);
      }
      assert t < |s.tasks| ==> KillsOwn(s, s.tasks[t]);
    }
  }

  lemma {:induction false} RunAccountable(run: Run, i: nat)
    requires IsRun(run) && i < |run.states|
    ensures Accountable(run.states[i])
  {
    if i > 0 {
      RunAccountable(run, i - 1);
      assert StepAt(run, i - 1);
      NextAccountable(run.states[i - 1], run.events[i - 1]);
    }
  }

  /** Row `id` is listed while its name is held by a session the daemon did not start. */
  predicate HeldRow(s: State, id: nat) {
    id in s.rows && id !in s.ours && Name(id) in s.live
  }

  /** The state after a kill request for `id` has been made and its tmux call has worked. */
  ghost function Killed(s: State, id: nat): State
    requires id in s.rows
  {
    Next(Next(s, ReadForKill(id)), Step(|s.tasks|, true))
  }

  /** A session the daemon did not start is within reach of a kill request exactly while a
      row has its name, and such a row is one that a launch or a restart left behind or that
      a launch has in hand. */
  lemma HeldSessionEndsIff(run: Run, i: nat, id: nat)
    requires IsRun(run) && i < |run.states| && id !in run.states[i].ours
    ensures
      var s := run.states[i];
      && (HeldRow(s, id) <==> id in s.rows && Name(id) in s.live && Name(id) !in Killed(s, id).live)
      && (HeldRow(s, id) ==> id in s.stuck || InHand(s, id))
  {
    var s := run.states[i];
    RunAccountable(run, i);
    if id in s.rows {
      assert Explained(s, id);
    }
  }

  /** A kill request read such a row. */
  ghost predicate ReadHeld(run: Run, i: nat, id: nat)
    requires i < |run.events| && |run.states| == |run.events| + 1
  {
    run.events[i] == ReadForKill(id) && HeldRow(run.states[i], id)
  }

  lemma StartedStays(s: State, e: Event)
    requires Enabled(s, e)
    ensures s.ours <= Next(s, e).ours
  {
  }

  /** A session under such a name that the daemon has not started has been there from the
      beginning. */
  lemma ForeignIsOld(s: State, e: Event, id: nat)
    requires Enabled(s, e) && id !in Next(s, e).ours && Name(id) in Next(s, e).live
    ensures Name(id) in s.live
  {
    if e.Step? && s.tasks[e.task].Launch? && s.tasks[e.task].stage.Start? && e.ok {
      NamesApart(id);
    }
  }

  /** Where a kill request came from. */
  lemma {:induction false} KillWasRead(run: Run, i: nat, t: nat, id: nat) returns (j: nat)
    requires IsRun(run) && i < |run.states| && t < |run.states[i].tasks|
    requires run.states[i].tasks[t] == KillTmux(id) && id !in run.states[i].ours
    requires Name(id) in run.states[i].live
    ensures j < i && ReadHeld(run, j, id)
  {
    assert i > 0 && StepAt(run, i - 1);
    var s, e := run.states[i - 1], run.events[i - 1];
    StartedStays(s, e);
    ForeignIsOld(s, e, id);
    if t < |s.tasks| && s.tasks[t] == KillTmux(id) {
      j := KillWasRead(run, i - 1, t, id);
    } else {
      j := i - 1;
    }
  }

  /** In every run whatever: a session that ends died by itself, or the daemon had started
      it, or a kill request had read a row of its name while it was held. */
  lemma OnlyOwnSessionsAreKilled(run: Run, i: nat, name: string)
    requires IsRun(run) && i < |run.events|
    requires name in run.states[i].live && name !in run.states[i + 1].live
    ensures
      || run.events[i] == Dies(name)
      || exists id: nat :: name == Name(id) &&
           (id in run.states[i].ours || exists j :: 0 <= j < i && ReadHeld(run, j, id))
  {
    assert StepAt(run, i);
    var s, e := run.states[i], run.events[i];
    RunAccountable(run, i);
    if e.Step? {
      assert KillsOwn(s, s.tasks[e.task]);
      if s.tasks[e.task].KillTmux? {
        var id := s.tasks[e.task].id;
        assert name == Name(id);
        if id !in s.ours {
          var j := KillWasRead(run, i, e.task, id);
        }
      }
    }
  }

  // ---------------------------------------------------------------- two runs

  lemma Longer(run: Run, e: Event) returns (longer: Run)
    requires IsRun(run) && Enabled(run.states[|run.events|], e)
    ensures IsRun(longer) && longer.events == run.events + [e]
    ensures longer.states == run.states + [Next(run.states[|run.events|], e)]
  {
    longer := Run(run.states + [Next(run.states[|run.events|], e)], run.events + [e]);
    forall i | 0 <= i < |longer.events|
      ensures StepAt(longer, i)
    {
      assert i < |run.events| ==> StepAt(run, i);
    }
  }

  lemma LongerAssumed(run: Run, e: Event) returns (longer: Run)
    requires IsAssumedRun(run) && Enabled(run.states[|run.events|], e) && Assumed(run.states[|run.events|], e)
    ensures IsAssumedRun(longer) && longer.events == run.events + [e]
    ensures longer.states == run.states + [Next(run.states[|run.events|], e)]
  {
    longer := Longer(run, e);
    forall i | 0 <= i < |longer.events|
      ensures AssumedAt(longer, i)
    {
      assert i < |run.events| ==> AssumedAt(run, i);
    }
  }

  /** A launch of one command that has inserted row 1, beside other tasks. */
  function Scene(stage: Stage, status: Status, live: Sessions, ours: set<nat>, others: seq<Task>): State {
    State(map[1 := NewRow(0).(status := status)], 2, live, 0, [Launch(["zsh"], [], stage, {1}, {})] + others,
          ours, {}, {})
  }

  /** The first two steps: the launch begins and inserts its row. */
  lemma SceneBegins(live: Sessions) returns (run: Run)
    ensures IsAssumedRun(run) && run.events == [BeginLaunch(["zsh"]), Step(0, true)]
    ensures run.states[2] == Scene(Probe(1, 0), Running, live, {}, [])
  {
    var s0 := State(map[], 1, live, 0, [], {}, {}, {});
    var launch := Launch(["zsh"], [], Insert, {}, {});
    var s1 := s0.(tasks := [launch]);
    run := Run([s0], []);
    run := LongerAssumed(run, BeginLaunch(["zsh"]));
    assert run.states[1] == s1;
    run := LongerAssumed(run, Step(0, true));
    var inserted := Launch(["zsh"], [], Probe(1, 0), {1}, {});
    assert launch.inserted + {1} == inserted.inserted;
    assert LaunchNext(s1, launch, true).1 == inserted;
    assert s1.tasks[0 := inserted] == [inserted] + [];
  }

  lemma SceneStarts()
    ensures
      var s := Scene(Probe(1, 0), Running, map[], {}, [KillMark(1)]);
      var s' := Scene(Start(1, 0), Running, map[], {}, [KillMark(1)]);
      Enabled(s, Step(0, true)) && s' == Next(s, Step(0, true))
    ensures
      var s := Scene(Start(1, 0), Running, map[], {}, [KillMark(1)]);
      var s' := Scene(Respawn(1), Running, map[Name(1) := ""], {1}, [KillMark(1)]);
      Enabled(s, Step(0, true)) && s' == Next(s, Step(0, true))
  {
    assert {} + {1 as nat} == {1};
  }

  lemma SceneKills()
    ensures
      var s, s' := Scene(Probe(1, 0), Running, map[], {}, []), Scene(Probe(1, 0), Running, map[], {}, [KillTmux(1)]);
      Enabled(s, ReadForKill(1)) && s' == Next(s, ReadForKill(1))
    ensures
      var s := Scene(Probe(1, 0), Running, map[], {}, [KillTmux(1)]);
      var s' := Scene(Probe(1, 0), Running, map[], {}, [KillMark(1)]);
      Enabled(s, Step(1, true)) && s' == Next(s, Step(1, true))
    ensures
      var s := Scene(Respawn(1), Running, map[Name(1) := ""], {1}, [KillMark(1)]);
      var s' := Scene(Respawn(1), Dead, map[Name(1) := ""], {1}, [Finished]);
      Enabled(s, Step(1, true)) && s' == Next(s, Step(1, true))
  {
  }

  /** A kill whose tmux call is made while the launch waits: tmux has nothing to kill yet,
      the launch starts the session, and the row is marked dead. */
  lemma KillDuringLaunchLosesTheSession() returns (run: Run, id: nat)
    ensures IsRun(run) && |run.states| > 0 && Lost(run.states[|run.states| - 1], id)
  {
    id := 1;
    run := SceneBegins(map[]);
    SceneKills();
    SceneStarts();
    run := Longer(run, ReadForKill(1));
    run := Longer(run, Step(1, true));
    run := Longer(run, Step(0, true));
    run := Longer(run, Step(0, true));
    run := Longer(run, Step(1, true));
  }

  lemma SceneHeld(live: Sessions)
    requires Name(1) in live
    ensures
      var s, s' := Scene(Probe(1, 0), Running, live, {}, []), Scene(Skip(1), Running, live, {}, []);
      Enabled(s, Step(0, false)) && s' == Next(s, Step(0, false))
    ensures
      var s, s' := Scene(Skip(1), Running, live, {}, []), Scene(Skip(1), Running, live, {}, [KillTmux(1)]);
      Enabled(s, ReadForKill(1)) && s' == Next(s, ReadForKill(1))
    ensures
      var s := Scene(Skip(1), Running, live, {}, [KillTmux(1)]);
      Enabled(s, Step(1, true)) && Name(1) !in Next(s, Step(1, true)).live && Assumed(s, Step(1, true))
  {
  }

  /** A kill asked for while a launch gives way to a held name ends the session that the
      launch left running, though every step is harmless to the daemon's own. */
  lemma KillDuringSkipEndsTheHeldSession() returns (run: Run, i: nat, id: nat)
    ensures IsAssumedRun(run) && i + 1 < |run.states|
    ensures id !in run.states[i].ours && id !in run.states[i].stuck
    ensures Name(id) in run.states[i].live && Name(id) !in run.states[i + 1].live
    ensures ReadForKill(id) in run.events
  {
    var live := map[Name(1) := "vim"];
    i, id := 4, 1;
    run := SceneBegins(live);
    SceneHeld(live);
    run := LongerAssumed(run, Step(0, false));
    run := LongerAssumed(run, ReadForKill(1));
    run := LongerAssumed(run, Step(1, true));
    assert run.events[3] == ReadForKill(1);
  }
}

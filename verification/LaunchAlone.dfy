/** The launch of the interleaved model when nothing comes in between: it does what the
    handler of SessionLifecycle promises, step by step. */
module LaunchAlone {
  import opened Text
  import opened CommandGroups
  import opened SessionLifecycle
  import opened SessionRuns

  /** From s and l the launch takes one step for each outcome in `oks`. */
  predicate Playable(s: State, l: Task, oks: seq<bool>)
    decreases |oks|
  {
    && l.Launch?
    && (oks != [] ==>
          LaunchEnabled(s, l, oks[0])
          && var (s', l') := LaunchNext(s, l, oks[0]);
          Playable(s', l', oks[1..]))
  }

  function Play(s: State, l: Task, oks: seq<bool>): (State, Task)
    requires Playable(s, l, oks)
    decreases |oks|
  {
    if oks == [] then (s, l)
    else
      var (s', l') := LaunchNext(s, l, oks[0]);
      Play(s', l', oks[1..])
  }

  predicate Leads(s: State, l: Task, oks: seq<bool>, s': State, l': Task) {
    Playable(s, l, oks) && Play(s, l, oks) == (s', l')
  }

  lemma {:induction false} LeadsOn(s: State, l: Task, a: seq<bool>, s1: State, l1: Task,
                                   b: seq<bool>, s2: State, l2: Task)
    requires Leads(s, l, a, s1, l1) && Leads(s1, l1, b, s2, l2)
    ensures Leads(s, l, a + b, s2, l2)
    decreases |a|
  {
    if a == [] {
      assert a + b == b;
    } else {
      var (s', l') := LaunchNext(s, l, a[0]);
      LeadsOn(s', l', a[1..], s1, l1, b, s2, l2);
      assert (a + b)[1..] == a[1..] + b;
    }
  }

  predicate AllWork(oks: seq<bool>) {
    forall i :: 0 <= i < |oks| ==> oks[i]
  }

  lemma OneStep(s: State, l: Task, ok: bool)
    requires l.Launch? && LaunchEnabled(s, l, ok)
    ensures Leads(s, l, [ok], LaunchNext(s, l, ok).0, LaunchNext(s, l, ok).1)
  {
    var (s', l') := LaunchNext(s, l, ok);
    assert [ok][1..] == [];
  }

  /** No call fails: what is false in `oks` is a probe that finds the name held. */
  predicate Faultless(s: State, l: Task, oks: seq<bool>)
    requires Playable(s, l, oks)
    decreases |oks|
  {
    oks != [] ==>
      (oks[0] || l.stage.Probe?) && Faultless(LaunchNext(s, l, oks[0]).0, LaunchNext(s, l, oks[0]).1, oks[1..])
  }

  lemma {:induction false} WorkIsFaultless(s: State, l: Task, oks: seq<bool>)
    requires Playable(s, l, oks) && AllWork(oks)
    ensures Faultless(s, l, oks)
    decreases |oks|
  {
    if oks != [] {
      WorkIsFaultless(LaunchNext(s, l, oks[0]).0, LaunchNext(s, l, oks[0]).1, oks[1..]);
    }
  }

  lemma {:induction false} FaultlessOn(s: State, l: Task, a: seq<bool>, s1: State, l1: Task,
                                       b: seq<bool>, s2: State, l2: Task)
    requires Leads(s, l, a, s1, l1) && Leads(s1, l1, b, s2, l2)
    requires Faultless(s, l, a) && Faultless(s1, l1, b)
    ensures Leads(s, l, a + b, s2, l2) && Faultless(s, l, a + b)
    decreases |a|
  {
    LeadsOn(s, l, a, s1, l1, b, s2, l2);
    if a == [] {
      assert a + b == b;
    } else {
      var (s', l') := LaunchNext(s, l, a[0]);
      FaultlessOn(s', l', a[1..], s1, l1, b, s2, l2);
      assert (a + b)[1..] == a[1..] + b;
    }
  }

  /** ... and one more. */
  lemma Further(s: State, l: Task, a: seq<bool>, s1: State, l1: Task, ok: bool)
    requires Leads(s, l, a, s1, l1) && l1.Launch? && LaunchEnabled(s1, l1, ok)
    ensures Leads(s, l, a + [ok], LaunchNext(s1, l1, ok).0, LaunchNext(s1, l1, ok).1)
  {
    OneStep(s1, l1, ok);
    LeadsOn(s, l, a, s1, l1, [ok], LaunchNext(s1, l1, ok).0, LaunchNext(s1, l1, ok).1);
  }

  /** Ready to insert a row of which the name is free. */
  predicate Ready(s: State, l: Task) {
    && l.Launch? && l.stage.Insert? && |l.created| < |l.commands|
    && s.nextID !in s.rows && Name(s.nextID) !in s.live && s.nextID !in s.ours
  }

  /** How far a command gets before the call that fails. */
  datatype Failing = Inserting | Titling | Starting | Respawning

  /** A command's row, inserted and with its label. */
  function RowOf(s: State, l: Task): Row
    requires l.Launch? && |l.created| < |l.commands|
  {
    Row(Running, Stored(s.clock), TitleOf(l.commands, |l.created|))
  }

  lemma ToStart(s: State, l: Task) returns (oks: seq<bool>, s': State, l': Task)
    requires Ready(s, l)
    ensures Leads(s, l, oks, s', l') && AllWork(oks)
    ensures s' == s.(rows := s.rows[s.nextID := RowOf(s, l)], nextID := s.nextID + 1)
    ensures l' == l.(stage := Start(s.nextID, s.clock), inserted := l.inserted + {s.nextID})
  {
    OneStep(s, l, true);
    var (s1, l1) := LaunchNext(s, l, true);
    Further(s, l, [true], s1, l1, true);
    var (s2, l2) := LaunchNext(s1, l1, true);
    oks, s', l' := [true] + [true], s2, l2;
    if |l.commands| > 1 {
      Further(s, l, oks, s2, l2, true);
      oks := oks + [true];
      s', l' := LaunchNext(s2, l2, true).0, LaunchNext(s2, l2, true).1;
    }
  }

  /** One command whose calls all succeed: its labelled row and its session, running it. */
  lemma CommandRuns(s: State, l: Task) returns (oks: seq<bool>, s': State, l': Task)
    requires Ready(s, l)
    ensures Leads(s, l, oks, s', l') && AllWork(oks)
    ensures s'.rows == s.rows[s.nextID := RowOf(s, l)]
    ensures s'.live == s.live[Name(s.nextID) := l.commands[|l.created|]]
    ensures s'.nextID == s.nextID + 1 && s'.clock == s.clock && s'.ours == s.ours + {s.nextID}
    ensures l'.Launch? && l'.commands == l.commands && l'.created == l.created + [s.nextID]
    ensures l'.stage == if |l'.created| == |l.commands| then Done else Insert
  {
    var id, command := s.nextID, l.commands[|l.created|];
    var a, s1, l1 := ToStart(s, l);
    Further(s, l, a, s1, l1, true);
    oks := a + [true];
    s', l' := LaunchNext(s1, l1, true).0, LaunchNext(s1, l1, true).1;
    if command != "" {
      Further(s, l, oks, s', l', true);
      oks := oks + [true];
      s', l' := LaunchNext(s', l', true).0, LaunchNext(s', l', true).1;
      assert s.live[Name(id) := ""][Name(id) := command] == s.live[Name(id) := command];
    }
  }

  /** Before a row is inserted. */
  predicate Inserts(l: Task) {
    l.Launch? && l.stage.Insert? && |l.created| < |l.commands|
  }

  /** A name that a session holds is passed over: its row is taken out again. */
  lemma HeldNameIsSkipped(s: State, l: Task) returns (oks: seq<bool>, s': State, l': Task)
    requires Inserts(l) && s.nextID !in s.rows && Name(s.nextID) in s.live
    ensures oks == [true, false, true] && Leads(s, l, oks, s', l') && Faultless(s, l, oks)
    ensures s' == s.(nextID := s.nextID + 1) && l' == l.(inserted := l.inserted + {s.nextID})
  {
    OneStep(s, l, true);
    var (s1, l1) := LaunchNext(s, l, true);
    Further(s, l, [true], s1, l1, false);
    var (s2, l2) := LaunchNext(s1, l1, false);
    Further(s, l, [true] + [false], s2, l2, true);
    oks, s', l' := [true] + [false] + [true], LaunchNext(s2, l2, true).0, LaunchNext(s2, l2, true).1;
    assert s.rows[s.nextID := NewRow(s.clock)] - {s.nextID} == s.rows;
    SkipIsFaultless(s, l, oks);
  }

  lemma SkipIsFaultless(s: State, l: Task, oks: seq<bool>)
    requires Inserts(l) && Playable(s, l, oks) && oks == [true, false, true]
    ensures Faultless(s, l, oks)
  {
    var (s1, l1) := LaunchNext(s, l, true);
    var (s2, l2) := LaunchNext(s1, l1, false);
    assert oks[1..] == [false, true] && [false, true][1..] == [true];
    WorkIsFaultless(s2, l2, [true]);
    assert l1.stage.Probe? && Faultless(s1, l1, [false, true]);
  }

  /** IDs are handed out in order. */
  ghost predicate InOrder(s: State) {
    forall id :: id in s.rows || id in s.ours ==> id < s.nextID
  }

  /** All the held names ahead are passed over. */
  lemma {:induction false} FreeNameIsReached(s: State, l: Task) returns (oks: seq<bool>, s': State, l': Task)
    requires Inserts(l) && InOrder(s)
    ensures Leads(s, l, oks, s', l') && Faultless(s, l, oks) && Ready(s', l')
    ensures s' == s.(nextID := s'.nextID) && s.nextID <= s'.nextID
    ensures l' == l.(inserted := l'.inserted)
    decreases Ahead(s.live, s.nextID)
  {
    if Name(s.nextID) !in s.live {
      return [], s, l;
    }
    var a, s1, l1 := HeldNameIsSkipped(s, l);
    AheadShrinks(s.live, s.nextID);
    var b;
    b, s', l' := FreeNameIsReached(s1, l1);
    FaultlessOn(s, l, a, s1, l1, b, s', l');
    oks := a + b;
  }

  /** What a launch begun at s0 has done so far. */
  ghost predicate SoFar(s0: State, s: State, l: Task) {
    && l.Launch? && s0.nextID <= s.nextID && InOrder(s)
    && Added(s0.rows, s0.live, s0.nextID, s.rows, s.live, l.created)
    && Runs(s.rows, s.live, l.created, l.commands)
    && forall id :: id in l.created ==> id < s.nextID
  }

  lemma OneMoreSoFar(s0: State, s: State, l: Task, id: nat, row: Row, s': State, l': Task)
    requires SoFar(s0, s, l) && |l.created| < |l.commands| && s.nextID <= id && Name(id) !in s.live
    requires row.status == Running && row.title == TitleOf(l.commands, |l.created|)
    requires s'.rows == s.rows[id := row] && s'.live == s.live[Name(id) := l.commands[|l.created|]]
    requires s'.nextID == id + 1 && s'.ours == s.ours + {id}
    requires l'.Launch? && l'.commands == l.commands && l'.created == l.created + [id]
    ensures SoFar(s0, s', l')
  {
    OneAdded(s0.rows, s0.live, s0.nextID, s.rows, s.live, s.nextID, l.created, l.commands, id, row);
  }

  lemma NextCommand(s0: State, s: State, l: Task) returns (oks: seq<bool>, s': State, l': Task)
    requires SoFar(s0, s, l) && Inserts(l)
    ensures Leads(s, l, oks, s', l') && Faultless(s, l, oks) && SoFar(s0, s', l')
    ensures l'.commands == l.commands && |l'.created| == |l.created| + 1
    ensures l'.stage == if |l'.created| == |l.commands| then Done else Insert
  {
    var a, s1, l1 := FreeNameIsReached(s, l);
    var b;
    b, s', l' := CommandRuns(s1, l1);
    OneMoreSoFar(s0, s, l, s1.nextID, RowOf(s1, l1), s', l');
    WorkIsFaultless(s1, l1, b);
    FaultlessOn(s, l, a, s1, l1, b, s', l');
    oks := a + b;
  }

  lemma NoSteps(s: State, l: Task)
    requires l.Launch?
    ensures Leads(s, l, [], s, l) && Faultless(s, l, [])
  {
  }

  /** From any point between two commands: the next ones run, up to n in all. */
  lemma {:induction false} MoreRun(s0: State, s: State, l: Task, n: nat)
    returns (oks: seq<bool>, s': State, l': Task)
    requires SoFar(s0, s, l) && Inserts(l) && |l.created| <= n <= |l.commands|
    ensures Leads(s, l, oks, s', l') && Faultless(s, l, oks) && SoFar(s0, s', l')
    ensures l'.commands == l.commands && |l'.created| == n
    ensures l'.stage == if n == |l.commands| then Done else Insert
    decreases n - |l.created|
  {
    if |l.created| == n {
      NoSteps(s, l);
      return [], s, l;
    }
    var first, s1, l1 := NextCommand(s0, s, l);
    if |l1.created| == n {
      return first, s1, l1;
    }
    var more;
    more, s', l' := MoreRun(s0, s1, l1, n);
    FaultlessOn(s, l, first, s1, l1, more, s', l');
    oks := first + more;
  }

  lemma NothingYet(s: State, l: Task)
    requires l.Launch? && l.created == [] && InOrder(s)
    ensures SoFar(s, s, l)
  {
    assert NamesOf([]) == {};
  }

  /** Left alone, with no call failing, a launch ends in success with exactly what the
      handler promises, whatever names are held: one new row and one session for each
      command, in order, each running its command under its label, and nothing else
      touched. */
  lemma AloneItSucceeds(s: State, commands: seq<string>) returns (oks: seq<bool>, s': State, l': Task)
    requires commands != [] && InOrder(s)
    ensures
      var l := Launch(commands, [], Insert, {}, {});
      Leads(s, l, oks, s', l') && Faultless(s, l, oks)
    ensures l'.Launch? && l'.stage.Done? && |l'.created| == |commands|
    ensures Added(s.rows, s.live, s.nextID, s'.rows, s'.live, l'.created)
    ensures Runs(s'.rows, s'.live, l'.created, commands)
  {
    var l := Launch(commands, [], Insert, {}, {});
    NothingYet(s, l);
    oks, s', l' := MoreRun(s, s, l, |commands|);
  }

  // ---------------------------------------------------------------- one call fails

  /** One command of which a call fails and no other does: nothing of it stays, and the
      launch turns to undoing the commands before it. */
  lemma CommandFails(s: State, l: Task, at: Failing) returns (oks: seq<bool>, s': State, l': Task)
    requires Ready(s, l) && (at.Titling? ==> |l.commands| > 1) && (at.Respawning? ==> l.commands[|l.created|] != "")
    ensures Leads(s, l, oks, s', l') && s'.rows == s.rows && s'.live == s.live
    ensures l'.Launch? && l'.created == l.created && l' == Rolling(l', 0)
  {
    match at
    case Inserting =>
      OneStep(s, l, false);
      oks, s', l' := [false], LaunchNext(s, l, false).0, LaunchNext(s, l, false).1;
    case Titling => oks, s', l' := TitleFails(s, l);
    case Starting =>
      var a, s1, l1 := ToStart(s, l);
      Further(s, l, a, s1, l1, false);
      var (s2, l2) := LaunchNext(s1, l1, false);
      Further(s, l, a + [false], s2, l2, true);
      oks, s', l' := a + [false] + [true], LaunchNext(s2, l2, true).0, LaunchNext(s2, l2, true).1;
      TakenOut(s, l);
    case Respawning => oks, s', l' := RespawnFails(s, l);
  }

  lemma TakenOut(s: State, l: Task)
    requires Ready(s, l)
    ensures s.rows[s.nextID := RowOf(s, l)] - {s.nextID} == s.rows
    ensures s.rows[s.nextID := NewRow(s.clock)] - {s.nextID} == s.rows
    ensures s.live[Name(s.nextID) := ""] - {Name(s.nextID)} == s.live
  {
  }

  lemma TitleFails(s: State, l: Task) returns (oks: seq<bool>, s': State, l': Task)
    requires Ready(s, l) && |l.commands| > 1
    ensures Leads(s, l, oks, s', l') && s'.rows == s.rows && s'.live == s.live
    ensures l'.Launch? && l'.created == l.created && l' == Rolling(l', 0)
  {
    OneStep(s, l, true);
    var (s1, l1) := LaunchNext(s, l, true);
    Further(s, l, [true], s1, l1, true);
    var (s2, l2) := LaunchNext(s1, l1, true);
    Further(s, l, [true] + [true], s2, l2, false);
    var (s3, l3) := LaunchNext(s2, l2, false);
    Further(s, l, [true] + [true] + [false], s3, l3, true);
    oks, s', l' := [true] + [true] + [false] + [true], LaunchNext(s3, l3, true).0, LaunchNext(s3, l3, true).1;
    TakenOut(s, l);
  }

  lemma RespawnFails(s: State, l: Task) returns (oks: seq<bool>, s': State, l': Task)
    requires Ready(s, l) && l.commands[|l.created|] != ""
    ensures Leads(s, l, oks, s', l') && s'.rows == s.rows && s'.live == s.live
    ensures l'.Launch? && l'.created == l.created && l' == Rolling(l', 0)
  {
    var a, s1, l1 := ToStart(s, l);
    Further(s, l, a, s1, l1, true);
    var (s2, l2) := LaunchNext(s1, l1, true);
    Further(s, l, a + [true], s2, l2, false);
    var (s3, l3) := LaunchNext(s2, l2, false);
    Further(s, l, a + [true] + [false], s3, l3, true);
    var (s4, l4) := LaunchNext(s3, l3, true);
    Further(s, l, a + [true] + [false] + [true], s4, l4, true);
    oks := a + [true] + [false] + [true] + [true];
    s', l' := LaunchNext(s4, l4, true).0, LaunchNext(s4, l4, true).1;
    TakenOut(s, l);
  }

  lemma UndoOne(s: State, l: Task, k: nat) returns (s': State, l': Task)
    requires l.Launch? && k < |l.created| && l == Rolling(l, k)
    ensures Leads(s, l, [true] + [true], s', l') && l'.Launch? && l'.created == l.created && l' == Rolling(l', k + 1)
    ensures s'.rows == s.rows - {l.created[k]} && s'.live == s.live - {Name(l.created[k])}
  {
    OneStep(s, l, true);
    var (s1, l1) := LaunchNext(s, l, true);
    Further(s, l, [true], s1, l1, true);
    s', l' := LaunchNext(s1, l1, true).0, LaunchNext(s1, l1, true).1;
  }

  function Members(ids: seq<nat>): set<nat> {
    set id | id in ids
  }

  lemma UndoneFrom(rows: Rows, live: Sessions, ids: seq<nat>, k: nat)
    requires k < |ids|
    ensures rows - {ids[k]} - Members(ids[k + 1..]) == rows - Members(ids[k..])
    ensures live - {Name(ids[k])} - NamesOf(ids[k + 1..]) == live - NamesOf(ids[k..])
  {
    assert ids[k..] == [ids[k]] + ids[k + 1..];
    NamesCons(ids[k], ids[k + 1..]);
  }

  /** The sessions from the k-th on are taken away, tmux session and row. */
  lemma {:induction false} RollsBack(s: State, l: Task, k: nat) returns (oks: seq<bool>, s': State, l': Task)
    requires l.Launch? && k <= |l.created| && l == Rolling(l, k)
    ensures Leads(s, l, oks, s', l') && AllWork(oks) && l'.Launch? && l'.stage.Failed?
    ensures s'.rows == s.rows - Members(l.created[k..]) && s'.live == s.live - NamesOf(l.created[k..])
    decreases |l.created| - k
  {
    if k == |l.created| {
      oks, s', l' := [], s, l;
    } else {
      var s1, l1 := UndoOne(s, l, k);
      var more;
      more, s', l' := RollsBack(s1, l1, k + 1);
      oks := [true] + [true] + more;
      LeadsOn(s, l, [true] + [true], s1, l1, more, s', l');
      UndoneFrom(s.rows, s.live, l.created, k);
    }
  }

  lemma NamesCons(id: nat, ids: seq<nat>)
    ensures NamesOf([id] + ids) == {Name(id)} + NamesOf(ids)
  {
    var more := [id] + ids;
    forall name | name in NamesOf(ids)
      ensures name in NamesOf(more)
    {
      var k :| 0 <= k < |ids| && name == Name(ids[k]);
      assert more[k + 1] == ids[k];
    }
    assert more[0] == id;
  }

  /** Left alone, with one call failing and every other working, a launch ends in failure
      with rows and sessions exactly as they were. */
  lemma AloneItUndoes(s: State, commands: seq<string>, n: nat, at: Failing)
    returns (oks: seq<bool>, s': State, l': Task)
    requires n < |commands| && InOrder(s)
    requires (at.Titling? ==> |commands| > 1) && (at.Respawning? ==> commands[n] != "")
    ensures Leads(s, Launch(commands, [], Insert, {}, {}), oks, s', l')
    ensures l'.Launch? && l'.stage.Failed? && s'.rows == s.rows && s'.live == s.live
  {
    var l := Launch(commands, [], Insert, {}, {});
    NothingYet(s, l);
    var a, s1, l1 := MoreRun(s, s, l, n);
    var f, s3, l3 := FreeNameIsReached(s1, l1);
    var b, s2, l2 := CommandFails(s3, l3, at);
    var c;
    c, s', l' := RollsBack(s2, l2, 0);
    LeadsOn(s, l, a, s1, l1, f, s3, l3);
    LeadsOn(s, l, a + f, s3, l3, b, s2, l2);
    LeadsOn(s, l, a + f + b, s2, l2, c, s', l');
    oks := a + f + b + c;
    assert l2.created[0..] == l1.created;
    AllUndone(s.rows, s.live, s.nextID, s1.rows, s1.live, l1.created);
  }

  // ------------------------------------------------------------ kills and dismissals

  /** A kill request whose calls work, nothing coming in between: the session is gone and
      its row dead, and nothing else has changed. */
  lemma AloneItKills(s: State, id: nat)
    requires Enabled(s, ReadForKill(id)) && id in s.rows
    ensures
      var t, s1 := |s.tasks|, Next(s, ReadForKill(id));
      && Enabled(s1, Step(t, true)) && var s2 := Next(s1, Step(t, true));
      && Enabled(s2, Step(t, true)) && var s3 := Next(s2, Step(t, true));
      && s3.rows == s.rows[id := s.rows[id].(status := Dead)] && s3.live == s.live - {Name(id)}
      && s3.tasks == s.tasks + [Finished] && s3.nextID == s.nextID && s3.clock == s.clock
  {
  }

  /** One whose tmux call fails changes nothing; one whose mark fails leaves its row as it
      was. */
  lemma AloneItFailsToKill(s: State, id: nat)
    requires Enabled(s, ReadForKill(id)) && id in s.rows
    ensures
      var t, s1 := |s.tasks|, Next(s, ReadForKill(id));
      && Enabled(s1, Step(t, false)) && Enabled(s1, Step(t, true))
      && Next(s1, Step(t, false)) == s.(tasks := s.tasks + [Finished])
      && var s2 := Next(s1, Step(t, true));
      && Enabled(s2, Step(t, false))
      && Next(s2, Step(t, false)) == s.(live := s.live - {Name(id)}, tasks := s.tasks + [Finished])
  {
  }

  /** A dismissal takes its row out, or changes nothing when the delete fails. */
  lemma AloneItDismisses(s: State, id: nat, ok: bool)
    requires Enabled(s, ReadForDismiss(id))
    ensures
      var t, s1 := |s.tasks|, Next(s, ReadForDismiss(id));
      && Enabled(s1, Step(t, ok))
      && Next(s1, Step(t, ok))
         == s.(rows := if ok then s.rows - {id} else s.rows, tasks := s.tasks + [Finished])
  {
  }
}

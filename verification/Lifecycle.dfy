/** Sessions live twice: as rows of the daemon's database and as tmux sessions. These
    are the two stores and the request handlers that must keep them in agreement, each
    handler on its own; SessionRuns interleaves them. */
module SessionLifecycle {
  import opened Options
  import opened Text
  import opened CommandGroups

  /** Times are nanoseconds. */
  const SECOND: nat := 1_000_000_000
  const RECONCILE_GRACE: nat := 10 * SECOND

  datatype Status = Running | Dead

  datatype Row = Row(status: Status, createdAt: nat, title: string)

  type Rows = map<nat, Row>

  /** The live tmux sessions, each with the command it runs. */
  type Sessions = map<string, string>

  function Name(id: nat): string {
    "mm-" + Digits(id)
  }

  lemma NamesDiffer(i: nat, j: nat)
    requires Name(i) == Name(j)
    ensures i == j
  {
    assert Name(i)[3..] == Digits(i) && Name(j)[3..] == Digits(j);
    DigitsInjective(i, j);
  }

  /** created_at is kept in RFC 3339 form, which has no fraction of a second. */
  function Stored(now: nat): nat {
    now / SECOND * SECOND
  }

  function NewRow(now: nat): Row {
    Row(Running, Stored(now), "")
  }

  /** UPDATE ... WHERE id = ?, which matches nothing when the row is gone. */
  function WithStatus(rows: Rows, id: nat, status: Status): Rows {
    if id in rows then rows[id := rows[id].(status := status)] else rows
  }

  function WithTitle(rows: Rows, id: nat, title: string): Rows {
    if id in rows then rows[id := rows[id].(title := title)] else rows
  }

  /** What Reconcile gives up on: running by the row, absent from tmux's listing, and
      too old to be a launch still under way. */
  predicate Doomed(rows: Rows, live: Sessions, now: nat, id: nat) {
    && id in rows && rows[id].status == Running && Name(id) !in live
    && now - rows[id].createdAt >= RECONCILE_GRACE
  }

  function Reconciled(rows: Rows, live: Sessions, now: nat): Rows {
    map id | id in rows :: if Doomed(rows, live, now, id) then rows[id].(status := Dead) else rows[id]
  }

  /** The rows with those of `dead` marked. */
  function MarkedDead(rows: Rows, dead: seq<nat>): Rows {
    map id | id in rows :: if id in dead then rows[id].(status := Dead) else rows[id]
  }

  lemma MarkedOneMore(rows: Rows, dead: seq<nat>, id: nat)
    requires id in rows
    ensures WithStatus(MarkedDead(rows, dead), id, Dead) == MarkedDead(rows, dead + [id])
  {
  }

  lemma StillDoomed(rows: Rows, live: Sessions, now: nat, dead: seq<nat>, id: nat)
    requires id !in dead
    ensures Doomed(MarkedDead(rows, dead), live, now, id) <==> Doomed(rows, live, now, id)
  {
  }

  lemma MarkedAll(rows: Rows, live: Sessions, now: nat, dead: seq<nat>)
    requires forall id :: id in rows ==> (id in dead <==> Doomed(rows, live, now, id))
    ensures MarkedDead(rows, dead) == Reconciled(rows, live, now)
  {
  }

  /** Going through an ascending list, each next ID is past all that were taken. */
  lemma NextListed(ids: seq<nat>, k: nat, taken: seq<nat>)
    requires Ascending(ids) && k < |ids| && forall id :: id in taken ==> id in ids[..k]
    ensures forall id :: id in taken ==> id < ids[k]
    ensures forall id :: id in ids[..k + 1] <==> id in ids[..k] || id == ids[k]
  {
    assert ids[..k + 1] == ids[..k] + [ids[k]];
  }

  function TitleOf(commands: seq<string>, k: nat): string
    requires k < |commands|
  {
    if |commands| > 1 then CommandLabel(commands[k]) else ""
  }

  // --------------------------------------------------------------- all or nothing

  ghost predicate Ascending(ids: seq<nat>) {
    forall i, j :: 0 <= i < j < |ids| ==> ids[i] < ids[j]
  }

  ghost function NamesOf(ids: seq<nat>): set<string> {
    set k | 0 <= k < |ids| :: Name(ids[k])
  }

  ghost predicate SameRows(rows0: Rows, rows: Rows) {
    forall id :: id in rows0 ==> id in rows && rows[id] == rows0[id]
  }

  ghost predicate SameSessions(live0: Sessions, live: Sessions) {
    forall name :: name in live0 ==> name in live && live[name] == live0[name]
  }

  ghost predicate AddedRows(rows0: Rows, next0: nat, rows: Rows, ids: seq<nat>) {
    && SameRows(rows0, rows)
    && (forall k :: 0 <= k < |ids| ==> next0 <= ids[k] && ids[k] !in rows0)
    && (forall id :: id in rows <==> id in rows0 || id in ids)
  }

  ghost predicate AddedSessions(live0: Sessions, live: Sessions, ids: seq<nat>) {
    && SameSessions(live0, live)
    && (forall k :: 0 <= k < |ids| ==> Name(ids[k]) !in live0)
    && live.Keys == live0.Keys + NamesOf(ids)
  }

  /** Exactly the sessions `ids` were added, each a row and a live tmux session. */
  ghost predicate Added(rows0: Rows, live0: Sessions, next0: nat, rows: Rows, live: Sessions, ids: seq<nat>) {
    Ascending(ids) && AddedRows(rows0, next0, rows, ids) && AddedSessions(live0, live, ids)
  }

  /** Sessions that were there are untouched, and what is new has an ID given out since. */
  ghost predicate Beyond(rows0: Rows, live0: Sessions, next0: nat, rows: Rows, live: Sessions, next: nat) {
    && next0 <= next && SameRows(rows0, rows) && SameSessions(live0, live)
    && (forall id :: id in rows ==> id in rows0 || next0 <= id < next)
    && (forall name :: name in live ==> name in live0 || Fresh(name, next0, next))
  }

  ghost predicate Fresh(name: string, next0: nat, next: nat) {
    exists id: nat :: next0 <= id < next && name == Name(id)
  }

  /** ... and session k of the group is running command k under its own label. */
  ghost predicate Runs(rows: Rows, live: Sessions, ids: seq<nat>, commands: seq<string>) {
    && |ids| <= |commands|
    && forall k :: 0 <= k < |ids| ==>
         && ids[k] in rows && rows[ids[k]].status == Running && rows[ids[k]].title == TitleOf(commands, k)
         && Name(ids[k]) in live && live[Name(ids[k])] == commands[k]
  }

  /** Live sessions that hold a name the table has yet to hand out: the measure of
      createSessionRow's loop. */
  ghost function Ahead(live: Sessions, next: nat): set<string> {
    set name | name in live && exists k: nat :: k >= next && name == Name(k)
  }

  lemma AheadShrinks(live: Sessions, next: nat)
    requires Name(next) in live
    ensures Ahead(live, next + 1) < Ahead(live, next)
  {
    forall k: nat | k >= next + 1
      ensures Name(k) != Name(next)
    {
      if Name(k) == Name(next) { NamesDiffer(k, next); }
    }
    assert Name(next) in Ahead(live, next);
  }

  lemma NamesSnoc(ids: seq<nat>, id: nat)
    ensures NamesOf(ids + [id]) == NamesOf(ids) + {Name(id)}
  {
    var more := ids + [id];
    assert more[|ids|] == id;
    forall name | name in NamesOf(ids)
      ensures name in NamesOf(more)
    {
      var k :| 0 <= k < |ids| && name == Name(ids[k]);
      assert more[k] == ids[k];
    }
  }

  lemma NewName(ids: seq<nat>, next: nat, id: nat)
    requires next <= id && forall j :: 0 <= j < |ids| ==> ids[j] < next
    ensures forall j :: 0 <= j < |ids| ==> ids[j] < id && Name(ids[j]) != Name(id)
  {
    forall j | 0 <= j < |ids|
      ensures Name(ids[j]) != Name(id)
    {
      if Name(ids[j]) == Name(id) { NamesDiffer(ids[j], id); }
    }
  }

  lemma AscendingSnoc(ids: seq<nat>, id: nat)
    requires Ascending(ids) && forall i :: i in ids ==> i < id
    ensures Ascending(ids + [id])
  {
    assert forall j :: 0 <= j < |ids| ==> ids[j] in ids;
  }

  lemma OneRow(rows0: Rows, next0: nat, rows: Rows, next: nat, ids: seq<nat>, id: nat, row: Row)
    requires AddedRows(rows0, next0, rows, ids) && next0 <= next <= id && id !in rows
    ensures AddedRows(rows0, next0, rows[id := row], ids + [id])
  {
  }

  lemma OneSession(live0: Sessions, live: Sessions, ids: seq<nat>, id: nat, command: string)
    requires AddedSessions(live0, live, ids) && Name(id) !in live
    ensures AddedSessions(live0, live[Name(id) := command], ids + [id])
  {
    NamesSnoc(ids, id);
    var live' := live[Name(id) := command];
    assert live'.Keys == live.Keys + {Name(id)};
  }

  lemma OneRuns(rows: Rows, live: Sessions, next: nat, ids: seq<nat>, commands: seq<string>, id: nat, row: Row)
    requires Runs(rows, live, ids, commands) && |ids| < |commands| && next <= id
    requires forall j :: 0 <= j < |ids| ==> ids[j] < next
    requires row.status == Running && row.title == TitleOf(commands, |ids|)
    ensures Runs(rows[id := row], live[Name(id) := commands[|ids|]], ids + [id], commands)
  {
    NewName(ids, next, id);
  }

  /** One more command of the group has its row and its session. */
  lemma OneAdded(rows0: Rows, live0: Sessions, next0: nat, rows: Rows, live: Sessions, next: nat,
                 ids: seq<nat>, commands: seq<string>, id: nat, row: Row)
    requires Added(rows0, live0, next0, rows, live, ids) && Runs(rows, live, ids, commands)
    requires |ids| < |commands| && next0 <= next <= id && (forall i :: i in ids ==> i < next)
    requires id !in rows && Name(id) !in live && row.status == Running && row.title == TitleOf(commands, |ids|)
    ensures
      var rows', live' := rows[id := row], live[Name(id) := commands[|ids|]];
      Added(rows0, live0, next0, rows', live', ids + [id]) && Runs(rows', live', ids + [id], commands)
  {
    AscendingSnoc(ids, id);
    OneRow(rows0, next0, rows, next, ids, id, row);
    OneSession(live0, live, ids, id, commands[|ids|]);
    assert forall j :: 0 <= j < |ids| ==> ids[j] in ids;
    OneRuns(rows, live, next, ids, commands, id, row);
  }

  /** A command launched alone leaves its row unlabelled; those of a group are told apart
      by their own programs. */
  lemma TitlesAsLabels(rows: Rows, live: Sessions, ids: seq<nat>, commands: seq<string>)
    requires Runs(rows, live, ids, commands) && |ids| == |commands|
    ensures forall k :: 0 <= k < |ids| ==>
      && ids[k] in rows
      && rows[ids[k]].title == if |commands| == 1 then "" else CommandLabel(commands[k])
  {
  }

  /** Two commands of a group that run different programs, whatever directories they are
      in and whatever their arguments, have different titles. */
  lemma GroupTitlesDiffer(rows: Rows, live: Sessions, ids: seq<nat>, commands: seq<string>, i: nat, j: nat,
                          dir: string, program: string, args: string,
                          dir': string, program': string, args': string)
    requires Runs(rows, live, ids, commands) && |ids| == |commands| && i < j < |ids| && program != program'
    requires commands[i] == dir + program + args && commands[j] == dir' + program' + args'
    requires RunsProgram(dir, program, args) && RunsProgram(dir', program', args')
    ensures rows[ids[i]].title == program && rows[ids[j]].title == program'
  {
    TitlesAsLabels(rows, live, ids, commands);
    LabelNamesTheProgram("", dir, program, args);
    LabelNamesTheProgram("", dir', program', args');
    assert "" + (dir + program + args) == commands[i] && "" + (dir' + program' + args') == commands[j];
  }

  lemma AllUndone(rows0: Rows, live0: Sessions, next0: nat, rows: Rows, live: Sessions, ids: seq<nat>)
    requires Added(rows0, live0, next0, rows, live, ids)
    ensures rows - (set id | id in ids) == rows0 && live - NamesOf(ids) == live0
  {
  }

  lemma AddedBeyond(rows0: Rows, live0: Sessions, next0: nat, rows: Rows, live: Sessions, ids: seq<nat>, next: nat)
    requires Added(rows0, live0, next0, rows, live, ids) && next0 <= next
    requires forall j :: 0 <= j < |ids| ==> ids[j] < next
    ensures Beyond(rows0, live0, next0, rows, live, next)
  {
  }

  lemma BeyondTwice(rows0: Rows, live0: Sessions, next0: nat, rows1: Rows, live1: Sessions, next1: nat,
                    rows: Rows, live: Sessions, next: nat)
    requires Beyond(rows0, live0, next0, rows1, live1, next1) && Beyond(rows1, live1, next1, rows, live, next)
    ensures Beyond(rows0, live0, next0, rows, live, next)
  {
  }

  /** ... as one more session named after a new row stays. */
  lemma StartedBeyond(rows0: Rows, live0: Sessions, next0: nat, rows: Rows, live: Sessions, next: nat,
                      id: nat, command: string)
    requires Beyond(rows0, live0, next0, rows, live, next) && next0 <= id < next && Name(id) !in live
    ensures Beyond(rows0, live0, next0, rows, live[Name(id) := command], next)
  {
  }

  /** Taking away only what the launch added stays beyond what was there. */
  lemma UndoneBeyond(rows0: Rows, live0: Sessions, next0: nat, rows: Rows, live: Sessions, next: nat,
                     rows': Rows, live': Sessions)
    requires Beyond(rows0, live0, next0, rows, live, next)
    requires forall id :: id in rows' ==> id in rows && rows'[id] == rows[id]
    requires forall name :: name in live' ==> name in live && live'[name] == live[name]
    requires forall id :: id in rows0 ==> id in rows'
    requires forall name :: name in live0 ==> name in live'
    ensures Beyond(rows0, live0, next0, rows', live', next)
  {
  }

  /** The daemon with both stores. Where the outside world may refuse, the outcome is
      arbitrary; `refusals` counts the kills and deletes that failed, `faults` every other
      store or tmux call that did. */
  class Daemon {
    var rows: Rows
    var nextID: nat
    var live: Sessions
    var clock: nat
    ghost var refusals: nat
    ghost var faults: nat

    /** AUTOINCREMENT: no row has an ID still to be handed out. */
    ghost predicate Valid()
      reads this
    {
      forall id :: id in rows ==> id < nextID
    }

    // --------------------------------------------------------------- the row store

    method InsertRow() returns (id: Option<nat>)
      requires Valid()
      modifies this`rows, this`nextID, this`clock, this`faults
      ensures Valid() && old(clock) <= clock
      ensures faults == old(faults) + if id.None? then 1 else 0
      ensures id.None? ==> rows == old(rows) && nextID == old(nextID)
      ensures id.Some? ==>
        id.value == old(nextID) && nextID == old(nextID) + 1 && rows == old(rows)[id.value := NewRow(clock)]
      ensures id.Some? ==>
        && rows[id.value].status == Running && rows[id.value].title == ""
        && rows[id.value].createdAt <= clock < rows[id.value].createdAt + SECOND
        && rows[id.value].createdAt % SECOND == 0
    {
      var now :| now >= clock;
      clock := now;
      if * {
        faults := faults + 1;
        return None;
      }
      rows := rows[nextID := NewRow(clock)];
      id := Some(nextID);
      nextID := nextID + 1;
    }

    method DeleteRow(id: nat) returns (ok: bool)
      modifies this`rows, this`refusals
      ensures rows == if ok then old(rows) - {id} else old(rows)
      ensures refusals == old(refusals) + if ok then 0 else 1
    {
      ok := *;
      if ok {
        rows := rows - {id};
      } else {
        refusals := refusals + 1;
      }
    }

    /** An error too when the row is gone. */
    method SetLabel(id: nat, title: string) returns (ok: bool)
      modifies this`rows, this`faults
      ensures rows == if ok then WithTitle(old(rows), id, title) else old(rows)
      ensures ok ==> id in rows
      ensures faults == old(faults) + if ok || id !in rows then 0 else 1
    {
      ok := *;
      if id !in rows {
        return false;
      }
      if ok {
        rows := WithTitle(rows, id, title);
      } else {
        faults := faults + 1;
      }
    }

    method SetStatus(id: nat, status: Status) returns (ok: bool)
      modifies this`rows, this`faults
      ensures rows == if ok then WithStatus(old(rows), id, status) else old(rows)
      ensures faults == old(faults) + if ok then 0 else 1
    {
      ok := *;
      if ok {
        rows := WithStatus(rows, id, status);
      } else {
        faults := faults + 1;
      }
    }

    // ------------------------------------------------------------------------ tmux

    /** A probe that fails reads as not alive. */
    method IsAlive(name: string) returns (alive: bool)
      modifies this`faults
      ensures alive ==> name in live
      ensures faults == old(faults) + if !alive && name in live then 1 else 0
    {
      alive := *;
      if name !in live {
        return false;
      }
      if !alive {
        faults := faults + 1;
      }
    }

    /** A session already gone counts as killed. */
    method KillSession(name: string) returns (ok: bool)
      modifies this`live, this`refusals
      ensures live == if ok then old(live) - {name} else old(live)
      ensures refusals == old(refusals) + if ok then 0 else 1
    {
      ok := *;
      if ok {
        live := live - {name};
      } else {
        refusals := refusals + 1;
      }
    }

    /** new-session, which refuses a name in use, then respawn-pane with the command;
        when that fails the new session is killed. */
    method TmuxCreate(name: string, command: string) returns (ok: bool)
      modifies this`live, this`refusals, this`faults
      ensures refusals >= old(refusals) && faults >= old(faults)
      ensures ok ==> name !in old(live) && live == old(live)[name := command]
      ensures !ok ==> name in old(live) || faults > old(faults)
      ensures !ok && refusals == old(refusals) ==> live == old(live)
      ensures !ok && refusals > old(refusals) ==> name !in old(live) && live == old(live)[name := ""]
    {
      if name in live {
        return false;
      }
      ok := *;
      if !ok {
        faults := faults + 1;
        return;
      }
      live := live[name := ""];
      if command != "" {
        ok := *;
        if !ok {
          faults := faults + 1;
          var killed := KillSession(name);
          assert killed ==> live == old(live);
          return;
        }
        live := live[name := command];
      }
    }

    // -------------------------------------------------------------------- launches

    /** A row whose tmux name is free. */
    method CreateSessionRow() returns (id: Option<nat>)
      requires Valid()
      modifies this`rows, this`nextID, this`clock, this`refusals, this`faults
      ensures Valid() && Beyond(old(rows), live, old(nextID), rows, live, nextID)
      ensures refusals >= old(refusals) && faults >= old(faults)
      ensures id.Some? ==>
        && old(nextID) <= id.value < nextID && id.value !in old(rows) && refusals == old(refusals)
        && exists now: nat :: rows == old(rows)[id.value := NewRow(now)]
      ensures id.Some? && Name(id.value) in live ==> faults > old(faults)
      ensures id.None? ==> refusals > old(refusals) || (faults > old(faults) && rows == old(rows))
    {
      while true
        invariant Valid() && rows == old(rows) && nextID >= old(nextID)
        invariant refusals == old(refusals) && faults >= old(faults)
        decreases Ahead(live, nextID)
      {
        id := InsertRow();
        if id.None? {
          return;
        }
        var alive := IsAlive(Name(id.value));
        if !alive {
          return;
        }
        AheadShrinks(live, id.value);
        var deleted := DeleteRow(id.value);
        if !deleted {
          return None;
        }
        assert rows == old(rows);
      }
    }

    /** Undo the sessions already started, going on past what fails. */
    method Rollback(created: seq<nat>)
      requires Valid()
      modifies this`rows, this`live, this`refusals
      ensures Valid() && refusals >= old(refusals)
      ensures forall id :: id in rows ==> id in old(rows) && rows[id] == old(rows)[id]
      ensures forall id :: id in old(rows) && id !in created ==> id in rows
      ensures forall name :: name in live ==> name in old(live) && live[name] == old(live)[name]
      ensures forall name :: name in old(live) && name !in NamesOf(created) ==> name in live
      ensures refusals == old(refusals) ==>
        && rows == old(rows) - (set id | id in created)
        && live == old(live) - NamesOf(created)
    {
      for k := 0 to |created|
        invariant Valid() && refusals >= old(refusals)
        invariant forall id :: id in rows ==> id in old(rows) && rows[id] == old(rows)[id]
        invariant forall id :: id in old(rows) && id !in created[..k] ==> id in rows
        invariant forall name :: name in live ==> name in old(live) && live[name] == old(live)[name]
        invariant forall name :: name in old(live) && name !in NamesOf(created[..k]) ==> name in live
        invariant refusals == old(refusals) ==>
          && (forall id :: id in created[..k] ==> id !in rows)
          && (forall name :: name in NamesOf(created[..k]) ==> name !in live)
      {
        var _ := KillSession(Name(created[k]));
        var _ := DeleteRow(created[k]);
        assert created[..k + 1] == created[..k] + [created[k]];
        NamesSnoc(created[..k], created[k]);
      }
      assert created[..|created|] == created;
    }

    /** Give up on a launch whose next session failed and, unless something was refused
        since `refusals0`, left nothing. */
    method Abort(ghost rows0: Rows, ghost live0: Sessions, ghost next0: nat, ghost rowsK: Rows, ghost liveK: Sessions,
                 ghost refusals0: nat, ids: seq<nat>)
      requires Valid() && Added(rows0, live0, next0, rowsK, liveK, ids)
      requires Beyond(rows0, live0, next0, rows, live, nextID)
      requires refusals >= refusals0 && (refusals == refusals0 ==> rows == rowsK && live == liveK)
      modifies this`rows, this`live, this`refusals
      ensures Valid() && Beyond(rows0, live0, next0, rows, live, nextID) && refusals >= old(refusals)
      ensures refusals == refusals0 ==> rows == rows0 && live == live0
    {
      Rollback(ids);
      UndoneBeyond(rows0, live0, next0, old(rows), old(live), nextID, rows, live);
      AllUndone(rows0, live0, next0, rowsK, liveK, ids);
    }

    /** Launch a tool: one session per command of its group, or none. */
    method HandleCreateSession(command: string) returns (created: Option<seq<nat>>)
      requires Valid()
      modifies this
      ensures Valid() && Beyond(old(rows), old(live), old(nextID), rows, live, nextID)
      ensures created.Some? ==>
        && |created.value| == |Split(command)|
        && Added(old(rows), old(live), old(nextID), rows, live, created.value)
        && Runs(rows, live, created.value, Split(command))
      ensures created.Some? ==> forall k :: 0 <= k < |created.value| ==>
        && created.value[k] in rows && rows[created.value[k]].status == Running
        && rows[created.value[k]].title
           == (if |Split(command)| == 1 then "" else CommandLabel(Split(command)[k]))
        && Name(created.value[k]) in live && live[Name(created.value[k])] == Split(command)[k]
      ensures created.None? ==> faults > old(faults) || refusals > old(refusals)
      ensures created.None? && refusals == old(refusals) ==> rows == old(rows) && live == old(live)
    {
      var commands := SplitCommand(command);
      var ids: seq<nat> := [];
      for k := 0 to |commands|
        invariant Valid() && nextID >= old(nextID) && |ids| == k
        invariant Added(old(rows), old(live), old(nextID), rows, live, ids)
        invariant Runs(rows, live, ids, commands)
        invariant forall j :: 0 <= j < |ids| ==> ids[j] < nextID
        invariant refusals >= old(refusals) && faults >= old(faults)
      {
        ghost var rowsK, liveK, nextK := rows, live, nextID;
        var id := LaunchOne(commands, k);
        AddedBeyond(old(rows), old(live), old(nextID), rowsK, liveK, ids, nextK);
        BeyondTwice(old(rows), old(live), old(nextID), rowsK, liveK, nextK, rows, live, nextID);
        if id.None? {
          Abort(old(rows), old(live), old(nextID), rowsK, liveK, old(refusals), ids);
          return None;
        }
        ghost var now :| rows == rowsK[id.value := NewRow(now).(title := TitleOf(commands, k))];
        ghost var row := NewRow(now).(title := TitleOf(commands, k));
        OneAdded(old(rows), old(live), old(nextID), rowsK, liveK, nextK, ids, commands, id.value, row);
        ids := ids + [id.value];
      }
      AddedBeyond(old(rows), old(live), old(nextID), rows, live, ids, nextID);
      TitlesAsLabels(rows, live, ids, commands);
      return Some(ids);
    }

    /** Label a new row as its group asks, or take it out again. */
    method LabelRow(id: nat, commands: seq<string>, k: nat) returns (ok: bool)
      requires k < |commands| && id in rows && rows[id].title == ""
      modifies this`rows, this`refusals, this`faults
      ensures refusals >= old(refusals) && faults >= old(faults)
      ensures ok ==>
        && refusals == old(refusals)
        && rows == old(rows)[id := old(rows)[id].(title := TitleOf(commands, k))]
      ensures !ok ==> faults > old(faults) && rows == if refusals > old(refusals) then old(rows) else old(rows) - {id}
    {
      ok := true;
      if |commands| > 1 {
        ok := SetLabel(id, CommandLabel(commands[k]));
        if !ok {
          var _ := DeleteRow(id);
        }
      }
    }

    /** Start a row's tmux session, or take the row out again. */
    method StartRow(id: nat, command: string) returns (ok: bool)
      requires id in rows
      modifies this`rows, this`live, this`refusals, this`faults
      ensures refusals >= old(refusals) && faults >= old(faults)
      ensures live != old(live) ==>
        Name(id) !in old(live) && Name(id) in live && live == old(live)[Name(id) := live[Name(id)]]
      ensures ok ==> Name(id) !in old(live) && live == old(live)[Name(id) := command] && rows == old(rows)
      ensures !ok ==> Name(id) in old(live) || faults > old(faults)
      ensures !ok ==> rows == old(rows) || rows == old(rows) - {id}
      ensures !ok && refusals == old(refusals) ==> rows == old(rows) - {id} && live == old(live)
    {
      ok := TmuxCreate(Name(id), command);
      if !ok {
        var _ := DeleteRow(id);
      }
    }

    /** One command of a group: its row, its label, its tmux session. */
    method LaunchOne(commands: seq<string>, k: nat) returns (id: Option<nat>)
      requires Valid() && k < |commands|
      modifies this
      ensures Valid() && Beyond(old(rows), old(live), old(nextID), rows, live, nextID)
      ensures refusals >= old(refusals) && faults >= old(faults)
      ensures id.Some? ==>
        && old(nextID) <= id.value < nextID && id.value !in old(rows) && Name(id.value) !in old(live)
        && live == old(live)[Name(id.value) := commands[k]]
        && exists now: nat :: rows == old(rows)[id.value := NewRow(now).(title := TitleOf(commands, k))]
      ensures id.None? ==> faults > old(faults) || refusals > old(refusals)
      ensures id.None? && refusals == old(refusals) ==> rows == old(rows) && live == old(live)
    {
      id := CreateSessionRow();
      if id.None? {
        return;
      }
      var labelled := LabelRow(id.value, commands, k);
      if !labelled {
        return None;
      }
      ghost var labelledRows := rows;
      var started := StartRow(id.value, commands[k]);
      if live != old(live) {
        StartedBeyond(old(rows), old(live), old(nextID), labelledRows, old(live), nextID, id.value,
                      live[Name(id.value)]);
      }
      if !started {
        return None;
      }
    }

    // --------------------------------------------------- kill, dismiss, reconcile

    /** Whether a row could be looked up; what it holds is in `rows`. */
    method GetSession() returns (ok: bool)
      modifies this`faults
      ensures faults == old(faults) + if ok then 0 else 1
    {
      ok := *;
      if !ok {
        faults := faults + 1;
      }
    }

    /** 204 only when the session is gone and its row says so; a failure never leaves
        a dead row over a live session. */
    method HandleKillSession(id: nat) returns (code: nat)
      requires Valid()
      modifies this`rows, this`live, this`refusals, this`faults
      ensures Valid() && code in {204, 404, 500}
      ensures code == 500 <==> refusals > old(refusals) || faults > old(faults)
      ensures code == 404 <==> id !in old(rows) && faults == old(faults)
      ensures code == 404 ==> rows == old(rows) && live == old(live)
      ensures code == 204 ==> rows == WithStatus(old(rows), id, Dead) && live == old(live) - {Name(id)}
      ensures code == 204 ==> id in old(rows) && rows == old(rows)[id := old(rows)[id].(status := Dead)]
      ensures code == 500 ==> rows == old(rows) && (live == old(live) || live == old(live) - {Name(id)})
    {
      var read := GetSession();
      if !read {
        return 500;
      }
      if id !in rows {
        return 404;
      }
      var killed := KillSession(Name(id));
      if !killed {
        return 500;
      }
      var marked := SetStatus(id, Dead);
      code := if marked then 204 else 500;
    }

    method HandleDismissSession(id: nat) returns (code: nat)
      requires Valid()
      modifies this`rows, this`refusals, this`faults
      ensures Valid() && code in {204, 404, 409, 500}
      ensures code == 500 <==> refusals > old(refusals) || faults > old(faults)
      ensures code == 404 <==> id !in old(rows) && faults == old(faults)
      ensures code == 409 <==> id in old(rows) && old(rows)[id].status == Running && faults == old(faults)
      ensures rows == if code == 204 then old(rows) - {id} else old(rows)
    {
      var read := GetSession();
      if !read {
        return 500;
      }
      if id !in rows {
        return 404;
      }
      if rows[id].status == Running {
        return 409;
      }
      var deleted := DeleteRow(id);
      code := if deleted then 204 else 500;
    }

    /** SELECT ... ORDER BY id. */
    method ListRows() returns (ids: seq<nat>)
      requires Valid()
      ensures Ascending(ids) && forall id :: id in ids <==> id in rows
    {
      ids := [];
      for id := 0 to nextID
        invariant Ascending(ids)
        invariant forall i :: i in ids <==> i in rows && i < id
      {
        if id in rows {
          AscendingSnoc(ids, id);
          ids := ids + [id];
        }
      }
    }

    /** One pass: mark dead what tmux no longer lists and is past the grace. An error
        stops the pass with some of them marked. `pruned` is the listing handed to the
        arbiter's Prune, if the pass gets that far. */
    method Reconcile() returns (newlyDead: seq<nat>, ok: bool, pruned: Option<set<string>>)
      requires Valid()
      modifies this`rows, this`faults
      ensures Valid() && Ascending(newlyDead) && rows == MarkedDead(old(rows), newlyDead)
      ensures forall id :: id in newlyDead ==> Doomed(old(rows), live, clock, id)
      ensures ok <==> faults == old(faults)
      ensures ok ==> rows == Reconciled(old(rows), live, clock)
      ensures forall id :: id in newlyDead ==>
        && id in old(rows) && old(rows)[id].status == Running && Name(id) !in live
        && clock >= old(rows)[id].createdAt + RECONCILE_GRACE && rows[id].status == Dead
      ensures ok ==> forall id :: id in rows && rows[id].status == Running ==>
        Name(id) in live || clock < rows[id].createdAt + RECONCILE_GRACE
      ensures pruned.Some? ==> pruned.value == live.Keys
      ensures ok || newlyDead != [] ==> pruned.Some?
    {
      newlyDead, ok, pruned := [], true, None;
      var sessions := ListRows();
      if * {
        // The rows or the tmux sessions could not be listed.
        faults := faults + 1;
        return [], false, None;
      }
      pruned := Some(live.Keys);
      for k := 0 to |sessions|
        invariant Valid() && Ascending(newlyDead) && faults == old(faults) && rows == MarkedDead(old(rows), newlyDead)
        invariant forall id :: id in newlyDead ==> Doomed(old(rows), live, clock, id) && id in sessions[..k]
        invariant forall id :: id in sessions[..k] && Doomed(old(rows), live, clock, id) ==> id in newlyDead
      {
        var id := sessions[k];
        NextListed(sessions, k, newlyDead);
        StillDoomed(old(rows), live, clock, newlyDead, id);
        if Doomed(rows, live, clock, id) {
          var marked := SetStatus(id, Dead);
          if !marked {
            return newlyDead, false, pruned;
          }
          MarkedOneMore(old(rows), newlyDead, id);
          AscendingSnoc(newlyDead, id);
          newlyDead := newlyDead + [id];
        }
      }
      MarkedAll(old(rows), live, clock, newlyDead);
    }
  }
}

/** The arbiter as the program holds it: mutable records and handles in the heap.
    Every method is one critical section, and its contract says that it takes the
    abstract state exactly where ArbiterState.Next takes it. */
module WindowArbiter {
  import opened Options
  import S = ArbiterState

  ghost function Records(rs: seq<ArbSession>): (vals: seq<S.Record>)
    reads rs
    ensures |vals| == |rs| && forall i :: 0 <= i < |rs| ==> vals[i] == rs[i].Val()
  {
    seq(|rs|, i requires 0 <= i < |rs| reads rs => rs[i].Val())
  }

  ghost function Conns(cs: seq<ArbConn>): (vals: seq<S.Conn>)
    reads cs
    ensures |vals| == |cs| && forall i :: 0 <= i < |cs| ==> vals[i] == cs[i].Val()
  {
    seq(|cs|, i requires 0 <= i < |cs| reads cs => cs[i].Val())
  }

  twostate lemma SameRecords(rs: seq<ArbSession>)
    requires forall r :: r in rs ==> unchanged(r)
    ensures Records(rs) == old(Records(rs))
  {
    forall i | 0 <= i < |rs|
      ensures rs[i].Val() == old(rs[i].Val())
    {
      assert rs[i] in rs;
    }
  }

  twostate lemma SameConns(cs: seq<ArbConn>)
    requires forall c :: c in cs ==> unchanged(c)
    ensures Conns(cs) == old(Conns(cs))
  {
    forall i | 0 <= i < |cs|
      ensures cs[i].Val() == old(cs[i].Val())
    {
      assert cs[i] in cs;
    }
  }

  /** In the model the return of a tmux call writes the two entries of its connection. */
  lemma ApplyDoneIsPut(st: S.State, c: nat, ok: bool)
    requires S.Indexed(st) && c < |st.conns|
    requires st.records[st.conns[c].record].held.Some? && st.records[st.conns[c].record].held.value.conn == c
    ensures
      var conn, s := st.conns[c], st.records[st.conns[c].record];
      var a := s.held.value;
      var log := if a.window && ok then st.log + [S.Sized(conn.tmuxName, conn.clientID, a.cols, a.rows)] else st.log;
      S.ApplyDoneNext(st, conn.record, ok) == S.Put(st, c, conn, s.(held := None), st.lastHuman, log)
  {
    assert st.conns[c := st.conns[c]] == st.conns;
  }

  class ArbSession {
    /** Identity, as a Go pointer has one. */
    const id: nat
    var refs: int
    var live: map<string, int>
    var ownerID: string
    var ownerLeftAt: int
    /** resizeMu: locked while Some, by the call that is still at tmux. */
    var held: Option<S.Apply>

    constructor (id: nat)
      ensures this.id == id && Val() == S.Record(0, map[], "", 0, None)
    {
      this.id := id;
      refs, live, ownerID, ownerLeftAt, held := 0, map[], "", 0, None;
    }

    ghost function Val(): S.Record
      reads this
    {
      S.Record(refs, live, ownerID, ownerLeftAt, held)
    }

    /** One more connection of this client. */
    method Join(clientID: string)
      modifies this`refs, this`live
      ensures Val() == S.Joined(old(Val()), clientID)
    {
      refs := refs + 1;
      live := live[clientID := (if clientID in live then live[clientID] else 0) + 1];
    }
  }

  class ArbConn {
    const id: nat
    const arb: Arbiter
    const tmuxName: string
    const clientID: string
    const sizePolicy: S.SizePolicy
    const session: ArbSession
    var cols: nat
    var rows: nat
    var unregistered: bool

    constructor (id: nat, arb: Arbiter, tmuxName: string, clientID: string,
                 sizePolicy: S.SizePolicy, session: ArbSession)
      ensures this.id == id && this.arb == arb && this.session == session
      ensures Val() == S.Conn(tmuxName, clientID, sizePolicy, session.id, 0, 0, false)
    {
      this.id, this.arb, this.tmuxName, this.clientID := id, arb, tmuxName, clientID;
      this.sizePolicy, this.session := sizePolicy, session;
      cols, rows, unregistered := 0, 0, false;
    }

    ghost function Val(): S.Conn
      reads this
    {
      S.Conn(tmuxName, clientID, sizePolicy, session.id, cols, rows, unregistered)
    }

    /** The owner check of an ordinary resize. */
    method MayResize(now: int) returns (b: bool)
      ensures b == S.MayResize(Val(), session.Val(), arb.lastHuman, now)
    {
      var s := session;
      if s.ownerID == "" || s.ownerID == clientID {
        return true;
      }
      if s.ownerID in s.live && s.live[s.ownerID] > 0 {
        return false;
      }
      if now - s.ownerLeftAt < S.OWNER_GRACE {
        return false;
      }
      b := arb.Present(clientID, now);
    }

    /** What the model says of this handle and its record. */
    lemma Mine()
      requires arb.Valid() && this in arb.conns
      ensures id < |arb.Model().conns| && arb.Model().conns[id] == Val()
      ensures session.id < |arb.Model().records| && arb.Model().records[session.id] == session.Val()
      ensures S.Stale(arb.Model(), id) <==> tmuxName !in arb.sessions || arb.sessions[tmuxName] != session
    {
    }

    /** A step that writes this handle and its session record, and nothing else of
        the linked structure, changes exactly those two entries of the model. */
    twostate lemma OnlyMine()
      requires old(arb.Valid() && this in arb.conns)
      requires session.held.Some? ==> session.held.value.conn < |arb.conns|
      requires unchanged(arb`sessions) && unchanged(arb`records) && unchanged(arb`conns)
      requires forall r :: r in arb.records && r != session ==> unchanged(r)
      requires forall c :: c in arb.conns && c != this ==> unchanged(c)
      ensures arb.Valid()
      ensures arb.Model() == S.Put(old(arb.Model()), id, Val(), session.Val(), arb.lastHuman, arb.log)
    {
      var rs, cs := arb.records, arb.conns;
      assert rs[session.id] == session && cs[id] == this;
      forall i | 0 <= i < |rs| && i != session.id
        ensures rs[i].Val() == old(rs[i].Val())
      {
        assert rs[i] in rs && rs[i].id == i;
        assert unchanged(rs[i]);
      }
      forall i | 0 <= i < |cs| && i != id
        ensures cs[i].Val() == old(cs[i].Val())
      {
        assert cs[i] in cs && cs[i].id == i;
        assert unchanged(cs[i]);
      }
      assert Records(rs) == old(Records(rs))[session.id := session.Val()];
      assert Conns(cs) == old(Conns(cs))[id := Val()];
    }

    method Unregister(now: int)
      requires arb.Valid() && this in arb.conns && session.held.None?
      modifies this, session
      ensures arb.Valid()
      ensures arb.Model() == S.UnregisterNext(old(arb.Model()), id, now)
    {
      Mine();
      if unregistered {
        return;
      }
      unregistered := true;
      if tmuxName in arb.sessions && arb.sessions[tmuxName] == session {
        Drop(now);
      }
      OnlyMine();
    }

    /** Take this connection off its session record. */
    method Drop(now: int)
      modifies session
      ensures session.Val() == S.Left(old(session.Val()), clientID, now)
    {
      var s := session;
      s.live := s.live[clientID := (if clientID in s.live then s.live[clientID] else 0) - 1];
      if s.live[clientID] <= 0 {
        s.live := s.live - {clientID};
        assert s.live == old(s.live) - {clientID};
        if s.ownerID == clientID {
          s.ownerLeftAt := now;
        }
      }
      s.refs := s.refs - 1;
    }

    /** Resize up to its call of apply. `call` says whether apply runs at all; while it
        runs, with resizeWindow as given, the session's resizeMu stays taken. */
    method Resize(newCols: nat, newRows: nat, active: bool, now: int)
      returns (call: bool, resizeWindow: bool)
      requires arb.Valid() && this in arb.conns && session.held.None?
      modifies arb`lastHuman, arb`log, this, session
      ensures arb.Valid()
      ensures arb.Model() == S.ResizeNext(old(arb.Model()), id, newCols, newRows, active, now)
      ensures call == old(!unregistered && !S.Stale(arb.Model(), id))
      ensures call ==> session.held == Some(S.Apply(id, resizeWindow, newCols, newRows))
    {
      Mine();
      if unregistered || tmuxName !in arb.sessions || arb.sessions[tmuxName] != session {
        return false, false;
      }
      resizeWindow := Decide(newCols, newRows, active, now);
      call := true;
      OnlyMine();
    }

    /** The critical section of Resize on a handle that is still good: record the dims
        and the gesture, decide who owns the window from here on and whether it is to
        be resized, and keep the resizeMu for that. */
    method Decide(newCols: nat, newRows: nat, active: bool, now: int) returns (allowed: bool)
      modifies arb`lastHuman, arb`log, this, session
      ensures
        var conn, s := old(Val()), old(session.Val());
        var claims := S.Claims(conn, s, arb.lastHuman, active, now);
        && arb.lastHuman == old(if active then arb.lastHuman[clientID := now] else arb.lastHuman)
        && allowed == S.ResizesWindow(conn, s.ownerID, claims, active)
        && Val() == conn.(cols := newCols, rows := newRows)
        && session.Val() == s.(ownerID := if claims then clientID else s.ownerID,
                               held := Some(S.Apply(id, allowed, newCols, newRows)))
        && arb.log == if claims then S.Claimed(old(arb.log), tmuxName, s.ownerID, clientID) else old(arb.log)
    {
      cols, rows := newCols, newRows;
      if active {
        arb.lastHuman := arb.lastHuman[clientID := now];
      }
      allowed := MayResize(now);
      allowed := allowed && sizePolicy == S.FollowInput;
      var prev := session.ownerID;
      var repeatActive := active && prev == clientID && sizePolicy == S.FollowInput;
      if active || allowed {
        session.ownerID := clientID;
        allowed := !repeatActive;
        if prev != clientID {
          arb.log := arb.log + [S.Owned(tmuxName, clientID)];
        }
      }
      session.held := Some(S.Apply(id, allowed, newCols, newRows));
    }

    /** ClaimInput up to its call of apply with the connection's last dims. */
    method ClaimInput(now: int) returns (call: bool)
      requires arb.Valid() && this in arb.conns && session.held.None?
      modifies arb`lastHuman, arb`log, session
      ensures arb.Valid()
      ensures arb.Model() == S.ClaimInputNext(old(arb.Model()), id, now)
      ensures call ==> session.held == Some(S.Apply(id, true, cols, rows))
      ensures call == old(S.Transfers(arb.Model(), id) && cols != 0 && rows != 0)
    {
      Mine();
      if unregistered || tmuxName !in arb.sessions || arb.sessions[tmuxName] != session {
        return false;
      }
      call := Claim(now);
      OnlyMine();
    }

    /** The critical section of ClaimInput on a handle that is still good. */
    method Claim(now: int) returns (call: bool)
      requires session.held.None?
      modifies arb`lastHuman, arb`log, session
      ensures
        var s := old(session.Val());
        var transfers := sizePolicy != S.Passive && s.ownerID != clientID;
        && arb.lastHuman == old(arb.lastHuman)[clientID := now]
        && call == (transfers && cols != 0 && rows != 0)
        && session.Val() == s.(ownerID := if transfers then clientID else s.ownerID,
                               held := if call then Some(S.Apply(id, true, cols, rows)) else None)
        && arb.log == if transfers then S.Claimed(old(arb.log), tmuxName, s.ownerID, clientID) else old(arb.log)
    {
      arb.lastHuman := arb.lastHuman[clientID := now];
      if sizePolicy == S.Passive || session.ownerID == clientID {
        return false;
      }
      session.ownerID := clientID;
      arb.log := arb.log + [S.Owned(tmuxName, clientID)];
      call := cols != 0 && rows != 0;
      if call {
        session.held := Some(S.Apply(id, true, cols, rows));
      }
    }

    /** The tmux call this connection made has returned: note whether the window was
        sized, and free the resizeMu. */
    method ApplyDone(ok: bool)
      requires arb.Valid() && this in arb.conns
      requires session.held.Some? && session.held.value.conn == id
      modifies arb`log, session
      ensures arb.Valid() && session.held.None?
      ensures arb.Model() == S.ApplyDoneNext(old(arb.Model()), session.id, ok)
    {
      Mine();
      ApplyDoneIsPut(arb.Model(), id, ok);
      Release(ok);
      OnlyMine();
    }

    /** Free the resizeMu and log a resize that worked. */
    method Release(ok: bool)
      requires session.held.Some?
      modifies arb`log, session
      ensures session.Val() == old(session.Val()).(held := None)
      ensures
        var a := old(session.held.value);
        arb.log == if a.window && ok then old(arb.log) + [S.Sized(tmuxName, clientID, a.cols, a.rows)] else old(arb.log)
    {
      var a := session.held.value;
      session.held := None;
      if a.window && ok {
        arb.log := arb.log + [S.Sized(tmuxName, clientID, a.cols, a.rows)];
      }
    }
  }

  class Arbiter {
    var sessions: map<string, ArbSession>
    var lastHuman: map<string, int>
    /** Every record and handle ever made; their places are their identities. */
    var records: seq<ArbSession>
    var conns: seq<ArbConn>
    ghost var log: seq<S.Entry>

    ghost function Model(): S.State
      reads this, records, conns
    {
      S.State(map n | n in sessions :: sessions[n].id,
              Records(records), Conns(conns),
              lastHuman, log)
    }

    /** Identities index the ghost sequences and every pointer stays inside them. */
    ghost predicate Valid()
      reads this, records, conns
    {
      && (forall i :: 0 <= i < |records| ==> records[i].id == i)
      && (forall i :: 0 <= i < |conns| ==> conns[i].id == i && conns[i].arb == this && conns[i].session in records)
      && (forall n :: n in sessions ==> sessions[n] in records)
      && S.Indexed(Model())
    }

    constructor ()
      ensures Valid() && Model() == S.INITIAL
    {
      sessions, lastHuman, records, conns, log := map[], map[], [], [], [];
    }

    method Register(tmuxName: string, clientID: string, sizePolicy: S.SizePolicy) returns (c: ArbConn)
      requires Valid()
      modifies this, records
      ensures Valid() && fresh(c) && c in conns && c.id == |old(conns)|
      ensures Model() == S.RegisterNext(old(Model()), tmuxName, clientID, sizePolicy)
    {
      var s := Open(tmuxName);
      c := Attach(s, tmuxName, clientID, sizePolicy);
    }

    /** The record of tmuxName, made if there is none. */
    method Open(tmuxName: string) returns (s: ArbSession)
      requires Valid()
      modifies this`sessions, this`records
      ensures Valid() && s in records && (fresh(s) || s in old(records))
      ensures tmuxName in sessions && sessions[tmuxName] == s
      ensures Model() == S.Opened(old(Model()), tmuxName)
    {
      if tmuxName in sessions {
        return sessions[tmuxName];
      }
      s := new ArbSession(|records|);
      sessions := sessions[tmuxName := s];
      records := records + [s];
      Added(tmuxName, s);
    }

    twostate lemma Added(tmuxName: string, new s: ArbSession)
      requires old(Valid()) && conns == old(conns) && lastHuman == old(lastHuman) && log == old(log)
      requires s.id == |old(records)| && s.Val() == S.Record(0, map[], "", 0, None)
      requires sessions == old(sessions)[tmuxName := s] && records == old(records) + [s]
      requires forall r :: r in old(records) ==> unchanged(r)
      requires forall c :: c in conns ==> unchanged(c)
      ensures Valid()
      ensures Model() == old(Model()).(
        sessions := old(Model().sessions)[tmuxName := s.id], records := old(Model().records) + [s.Val()])
    {
      SameRecords(old(records));
      SameConns(conns);
      assert Records(records) == Records(old(records)) + [s.Val()];
      assert Model().sessions == old(Model()).sessions[tmuxName := s.id];
    }

    method Attach(s: ArbSession, tmuxName: string, clientID: string, sizePolicy: S.SizePolicy)
      returns (c: ArbConn)
      requires Valid() && s in records
      modifies this`conns, s`refs, s`live
      ensures Valid() && fresh(c) && c in conns && c.id == |old(conns)|
      ensures Model() == old(Model()).(
        records := old(Model().records)[s.id := S.Joined(old(s.Val()), clientID)],
        conns := old(Model().conns) + [S.Conn(tmuxName, clientID, sizePolicy, s.id, 0, 0, false)])
    {
      s.Join(clientID);
      c := new ArbConn(|conns|, this, tmuxName, clientID, sizePolicy, s);
      conns := conns + [c];
      Attached(s, c);
    }

    twostate lemma Attached(s: ArbSession, new c: ArbConn)
      requires old(Valid()) && s in old(records) && records == old(records) && sessions == old(sessions)
      requires lastHuman == old(lastHuman) && log == old(log)
      requires conns == old(conns) + [c] && c.id == |old(conns)| && c.arb == this && c.session in records
      requires forall r :: r in records && r != s ==> unchanged(r)
      requires s.held == old(s.held)
      requires forall d :: d in old(conns) ==> unchanged(d)
      ensures Valid()
      ensures Model() == old(Model()).(
        records := old(Model().records)[s.id := s.Val()], conns := old(Model().conns) + [c.Val()])
    {
      forall i | 0 <= i < |records| && i != s.id
        ensures records[i].Val() == old(records[i].Val())
      {
        assert records[i] in records && records[i].id == i;
        assert unchanged(records[i]);
      }
      assert Records(records) == old(Records(records))[s.id := s.Val()];
      SameConns(old(conns));
      assert Conns(conns) == Conns(old(conns)) + [c.Val()];
    }

    /** Presence is read from the map alone. */
    method Present(clientID: string, now: int) returns (b: bool)
      ensures b == S.Present(lastHuman, clientID, now)
    {
      b := clientID in lastHuman && now - lastHuman[clientID] <= S.PRESENCE_WINDOW;
    }

    method Prune(alive: set<string>, now: int)
      requires Valid()
      modifies this`sessions, this`lastHuman, this`log
      ensures Valid()
      ensures Model() == S.PruneNext(old(Model()), alive, now)
    {
      ghost var gone := S.PrunedNames(Model(), alive);
      Doomed(alive);
      DropSessions(alive);
      DropPresence(now);
      log := log + [S.Forgotten(gone)];
      Pruned(gone);
    }

    ghost function DeadNames(alive: set<string>): set<string>
      reads this, sessions.Values
    {
      set n | n in sessions && sessions[n].refs <= 0 && n !in alive
    }

    lemma Doomed(alive: set<string>)
      requires Valid()
      ensures S.PrunedNames(Model(), alive) == DeadNames(alive)
    {
    }

    twostate lemma Pruned(gone: set<string>)
      requires old(Valid()) && records == old(records) && conns == old(conns)
      requires forall r :: r in records ==> unchanged(r)
      requires forall c :: c in conns ==> unchanged(c)
      requires sessions == old(sessions) - gone
      ensures Valid()
      ensures Model() == old(Model()).(
        sessions := old(Model().sessions) - gone, lastHuman := lastHuman, log := log)
    {
      SameRecords(records);
      SameConns(conns);
      assert Model().sessions == old(Model().sessions) - gone;
    }

    method DropSessions(alive: set<string>)
      modifies this`sessions
      ensures sessions == old(sessions) - old(DeadNames(alive))
    {
      var names := sessions.Keys;
      while names != {}
        invariant names <= sessions.Keys <= old(sessions).Keys
        invariant forall n :: n in sessions ==> sessions[n] == old(sessions)[n]
        invariant forall n :: n in old(sessions) ==> (n in sessions <==> n in names || n !in old(DeadNames(alive)))
        decreases names
      {
        var n :| n in names;
        names := names - {n};
        if sessions[n].refs <= 0 && n !in alive {
          sessions := sessions - {n};
        }
      }
    }

    method DropPresence(now: int)
      modifies this`lastHuman
      ensures lastHuman == S.FreshPresence(old(lastHuman), now)
    {
      var cutoff := now - S.PRESENCE_WINDOW;
      var ids := lastHuman.Keys;
      while ids != {}
        invariant ids <= lastHuman.Keys <= old(lastHuman).Keys
        invariant forall k :: k in lastHuman ==> lastHuman[k] == old(lastHuman)[k]
        invariant forall k :: k in old(lastHuman) ==> (k in lastHuman <==> k in ids || old(lastHuman)[k] >= cutoff)
        decreases ids
      {
        var k :| k in ids;
        ids := ids - {k};
        if lastHuman[k] < cutoff {
          lastHuman := lastHuman - {k};
        }
      }
    }
  }
}

/** The window-size arbiter as a state machine over its atomic steps.

    A step is one critical section under the arbiter's mu. Resize and ClaimInput
    release mu before they call tmux and keep only the session's resizeMu, so each
    is split in two: the decision, which leaves the session `held`, and ApplyDone,
    the return of the tmux call that frees it. Every other step that does not need
    that session's resizeMu may come in between. */
module ArbiterState {
  import opened Options

  /** Nanoseconds. */
  const OWNER_GRACE: int := 30_000_000_000
  const PRESENCE_WINDOW: int := 300_000_000_000

  datatype SizePolicy = FollowInput | Passive

  /** The tmux call a session's resizeMu is held for. `window` is false when only
      the connection's own attach PTY is resized. */
  datatype Apply = Apply(conn: nat, window: bool, cols: nat, rows: nat)

  /** One session record. Records are never reused: an identity is an index into
      State.records, as a Go pointer is. ownerID "" means nobody owns the window. */
  datatype Record = Record(
    refs: int, live: map<string, int>, ownerID: string, ownerLeftAt: int, held: Option<Apply>)

  datatype Conn = Conn(
    tmuxName: string, clientID: string, policy: SizePolicy, record: nat,
    cols: nat, rows: nat, unregistered: bool)

  /** What happened to the shared windows, in order. */
  datatype Entry =
    | Owned(name: string, client: string)
    | Sized(name: string, client: string, cols: nat, rows: nat)
    | Forgotten(names: set<string>)

  /** `log` is a history variable: no step reads it. */
  datatype State = State(
    sessions: map<string, nat>, records: seq<Record>, conns: seq<Conn>,
    lastHuman: map<string, int>, log: seq<Entry>)

  datatype Event =
    | Register(name: string, client: string, policy: SizePolicy, now: int)
    | Unregister(conn: nat, now: int)
    | Prune(alive: set<string>, now: int)
    | Resize(conn: nat, cols: nat, rows: nat, active: bool, now: int)
    | ClaimInput(conn: nat, now: int)
    | ApplyDone(record: nat, ok: bool, now: int)

  const INITIAL := State(map[], [], [], map[], [])

  predicate Indexed(st: State) {
    && (forall n :: n in st.sessions ==> st.sessions[n] < |st.records|)
    && (forall c :: 0 <= c < |st.conns| ==> st.conns[c].record < |st.records|)
    && (forall r :: 0 <= r < |st.records| && st.records[r].held.Some? ==>
          st.records[r].held.value.conn < |st.conns|)
  }

  /** A step that takes a session's resizeMu waits until it is free. */
  predicate Enabled(st: State, e: Event)
    requires Indexed(st)
  {
    match e
    case Register(_, _, _, _) => true
    case Prune(_, _) => true
    case Unregister(c, _) => c < |st.conns| && st.records[st.conns[c].record].held.None?
    case Resize(c, _, _, _, _) => c < |st.conns| && st.records[st.conns[c].record].held.None?
    case ClaimInput(c, _) => c < |st.conns| && st.records[st.conns[c].record].held.None?
    case ApplyDone(r, _, _) => r < |st.records| && st.records[r].held.Some?
  }

  function Count(live: map<string, int>, client: string): int {
    if client in live then live[client] else 0
  }

  /** The record that connection c holds is not the one its name maps to now. */
  predicate Stale(st: State, c: nat)
    requires c < |st.conns|
  {
    var n := st.conns[c].tmuxName;
    n !in st.sessions || st.sessions[n] != st.conns[c].record
  }

  predicate Present(lastHuman: map<string, int>, client: string, now: int) {
    client in lastHuman && now - lastHuman[client] <= PRESENCE_WINDOW
  }

  predicate MayResize(conn: Conn, s: Record, lastHuman: map<string, int>, now: int) {
    if s.ownerID == "" || s.ownerID == conn.clientID then true
    else if Count(s.live, s.ownerID) > 0 then false
    else if now - s.ownerLeftAt < OWNER_GRACE then false
    else Present(lastHuman, conn.clientID, now)
  }

  /** The state once `name` has a record, a new one if it had none. */
  function Opened(st: State, name: string): (r: State)
    requires Indexed(st)
    ensures Indexed(r) && name in r.sessions
  {
    if name in st.sessions then st
    else st.(sessions := st.sessions[name := |st.records|], records := st.records + [Record(0, map[], "", 0, None)])
  }

  /** A record after one more connection of `client` has joined it. */
  function Joined(s: Record, client: string): Record {
    s.(refs := s.refs + 1, live := s.live[client := Count(s.live, client) + 1])
  }

  function RegisterNext(st: State, name: string, client: string, policy: SizePolicy): (r: State)
    requires Indexed(st)
  {
    var open := Opened(st, name);
    var id := open.sessions[name];
    open.(records := open.records[id := Joined(open.records[id], client)],
          conns := open.conns + [Conn(name, client, policy, id, 0, 0, false)])
  }

  /** The state after connection c has written its handle and its record. */
  function Put(st: State, c: nat, conn: Conn, s: Record, lastHuman: map<string, int>, log: seq<Entry>): State
    requires Indexed(st) && c < |st.conns|
  {
    st.(conns := st.conns[c := conn], records := st.records[st.conns[c].record := s],
        lastHuman := lastHuman, log := log)
  }

  /** A record after one connection of `client` leaves it. */
  function Left(s: Record, client: string, now: int): Record {
    var n := Count(s.live, client) - 1;
    if n <= 0 then
      s.(refs := s.refs - 1, live := s.live - {client},
         ownerLeftAt := if s.ownerID == client then now else s.ownerLeftAt)
    else
      s.(refs := s.refs - 1, live := s.live[client := n])
  }

  function UnregisterNext(st: State, c: nat, now: int): (r: State)
    requires Indexed(st) && c < |st.conns|
  {
    var conn := st.conns[c];
    if conn.unregistered then st
    else
      var s := st.records[conn.record];
      Put(st, c, conn.(unregistered := true), if Stale(st, c) then s else Left(s, conn.clientID, now),
          st.lastHuman, st.log)
  }

  predicate Prunable(st: State, alive: set<string>, n: string)
    requires Indexed(st)
  {
    n in st.sessions && st.records[st.sessions[n]].refs <= 0 && n !in alive
  }

  function PrunedNames(st: State, alive: set<string>): set<string>
    requires Indexed(st)
  {
    set n | n in st.sessions && Prunable(st, alive, n)
  }

  function FreshPresence(m: map<string, int>, now: int): map<string, int> {
    map id | id in m && !(m[id] < now - PRESENCE_WINDOW) :: m[id]
  }

  function PruneNext(st: State, alive: set<string>, now: int): (r: State)
    requires Indexed(st)
  {
    st.(
      sessions := st.sessions - PrunedNames(st, alive),
      lastHuman := FreshPresence(st.lastHuman, now),
      log := st.log + [Forgotten(PrunedNames(st, alive))])
  }

  /** What one Resize call decides: whether it claims the window, and the
      resizeWindow argument it hands to apply. */
  predicate Claims(conn: Conn, s: Record, lastHuman: map<string, int>, active: bool, now: int) {
    active || (conn.policy == FollowInput && MayResize(conn, s, lastHuman, now))
  }

  predicate ResizesWindow(conn: Conn, owner: string, claims: bool, active: bool) {
    claims && !(active && owner == conn.clientID && conn.policy == FollowInput)
  }

  function Claimed(log: seq<Entry>, name: string, prev: string, client: string): seq<Entry> {
    if prev == client then log else log + [Owned(name, client)]
  }

  function ResizeNext(st: State, c: nat, cols: nat, rows: nat, active: bool, now: int): (r: State)
    requires Indexed(st) && c < |st.conns|
  {
    var conn, s := st.conns[c], st.records[st.conns[c].record];
    if conn.unregistered || Stale(st, c) then st
    else
      var human := if active then st.lastHuman[conn.clientID := now] else st.lastHuman;
      var claims := Claims(conn, s, human, active, now);
      var window := ResizesWindow(conn, s.ownerID, claims, active);
      Put(st, c, conn.(cols := cols, rows := rows),
          s.(ownerID := if claims then conn.clientID else s.ownerID, held := Some(Apply(c, window, cols, rows))),
          human, if claims then Claimed(st.log, conn.tmuxName, s.ownerID, conn.clientID) else st.log)
  }

  /** ClaimInput moves the window to this connection's client. */
  predicate Transfers(st: State, c: nat)
    requires Indexed(st) && c < |st.conns|
  {
    var conn := st.conns[c];
    && !conn.unregistered && !Stale(st, c)
    && conn.policy != Passive && st.records[conn.record].ownerID != conn.clientID
  }

  function ClaimInputNext(st: State, c: nat, now: int): (r: State)
    requires Indexed(st) && c < |st.conns|
  {
    var conn, s := st.conns[c], st.records[st.conns[c].record];
    if conn.unregistered || Stale(st, c) then st
    else
      var human := st.lastHuman[conn.clientID := now];
      if !Transfers(st, c) then Put(st, c, conn, s, human, st.log)
      else
        var held := if conn.cols == 0 || conn.rows == 0 then None else Some(Apply(c, true, conn.cols, conn.rows));
        Put(st, c, conn, s.(ownerID := conn.clientID, held := held), human,
            Claimed(st.log, conn.tmuxName, s.ownerID, conn.clientID))
  }

  function ApplyDoneNext(st: State, r: nat, ok: bool): (st': State)
    requires Indexed(st) && r < |st.records| && st.records[r].held.Some?
  {
    var a := st.records[r].held.value;
    var conn := st.conns[a.conn];
    st.(
      records := st.records[r := st.records[r].(held := None)],
      log := if a.window && ok then st.log + [Sized(conn.tmuxName, conn.clientID, a.cols, a.rows)] else st.log)
  }

  function Next(st: State, e: Event): State
    requires Indexed(st) && Enabled(st, e)
  {
    match e
    case Register(n, k, p, _) => RegisterNext(st, n, k, p)
    case Unregister(c, now) => UnregisterNext(st, c, now)
    case Prune(alive, now) => PruneNext(st, alive, now)
    case Resize(c, cols, rows, active, now) => ResizeNext(st, c, cols, rows, active, now)
    case ClaimInput(c, now) => ClaimInputNext(st, c, now)
    case ApplyDone(r, ok, _) => ApplyDoneNext(st, r, ok)
  }
}

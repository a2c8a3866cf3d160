/** The events socket of the page: reconnecting with a growing delay, at once when the
    page comes back, and replacing a socket that has gone silent. */
module Events {
  import opened Options

  /** Milliseconds. */
  const STALE_AFTER := 75_000
  const FIRST_DELAY: nat := 1000
  const LAST_DELAY: nat := 15_000

  datatype Ready = Connecting | Open | Closing | Closed

  /** A browser socket; `attached` says that its handlers are still the loop's. */
  datatype Socket = Socket(ready: Ready, attached: bool)

  datatype Status = Up | AuthExpired | Forbidden | WsBlocked | Unreachable

  /** How a probe of the API ends: with an HTTP status, or without an answer. */
  datatype Answer = Code(status: nat) | NoAnswer

  /** The closure's variables, every socket it has created, the timers pending in the
      browser and the number of probes under way. `closes` is history: the closes counted
      since the delay was last reset. */
  datatype Loop = Loop(
    sockets: seq<Socket>, ws: Option<nat>, closed: bool, backoff: nat, timer: Option<nat>, pending: set<nat>,
    timers: nat, fails: nat, lastFrameAt: int, now: int, closes: nat, probes: nat, status: Option<Status>)

  /** Before the first connect. */
  function Fresh(start: int): Loop {
    Loop([], None, false, FIRST_DELAY, None, {}, 0, 0, start, start, 0, 0, None)
  }

  function Min(a: nat, b: nat): nat {
    if a <= b then a else b
  }

  predicate Known(s: Loop) {
    s.ws.Some? ==> s.ws.value < |s.sockets|
  }

  function Connected(s: Loop): Loop {
    if s.closed then s
    else s.(lastFrameAt := s.now, sockets := s.sockets + [Socket(Connecting, true)], ws := Some(|s.sockets|))
  }

  /** WebSocket.close(). */
  function Shut(k: Socket): Socket {
    k.(ready := if k.ready == Closed then Closed else Closing)
  }

  function Cleared(s: Loop): Loop {
    if s.timer.Some? then s.(pending := s.pending - {s.timer.value}) else s
  }

  function Reconnected(s: Loop): Loop
    requires Known(s)
  {
    if s.closed then s
    else
      var s1 := Cleared(s).(timer := None, backoff := FIRST_DELAY, closes := 0);
      var s2 :=
        if s.ws.None? then s1
        else
          var i := s.ws.value;
          s1.(sockets := s.sockets[i := Shut(s.sockets[i]).(attached := false)], ws := None);
      Connected(s2)
  }

  predicate IsOpen(s: Loop)
    requires Known(s)
  {
    s.ws.Some? && s.sockets[s.ws.value].ready == Open
  }

  predicate Stale(s: Loop) {
    s.now - s.lastFrameAt > STALE_AFTER
  }

  function Opened(s: Loop, i: nat): Loop
    requires i < |s.sockets|
  {
    var s' := s.(sockets := s.sockets[i := s.sockets[i].(ready := Open)]);
    if s.sockets[i].attached
    then s'.(backoff := FIRST_DELAY, fails := 0, lastFrameAt := s.now, closes := 0, status := Some(Up))
    else s'
  }

  function Heard(s: Loop, i: nat): Loop
    requires i < |s.sockets|
  {
    if s.sockets[i].attached then s.(lastFrameAt := s.now) else s
  }

  /** From the second failure in a row on, each also starts a probe. */
  function Retried(s: Loop): Loop {
    s.(fails := s.fails + 1, probes := if s.fails + 1 >= 2 then s.probes + 1 else s.probes,
       timer := Some(s.timers), pending := s.pending + {s.timers}, timers := s.timers + 1,
       backoff := Min(s.backoff * 2, LAST_DELAY), closes := s.closes + 1)
  }

  function CloseFired(s: Loop, i: nat): Loop
    requires i < |s.sockets|
  {
    var s' := s.(sockets := s.sockets[i := s.sockets[i].(ready := Closed)]);
    if !s.sockets[i].attached || s.closed then s' else Retried(s')
  }

  function Classified(a: Answer): Status {
    match a
    case NoAnswer => Unreachable
    case Code(status) =>
      if status == 401 then AuthExpired
      else if status == 403 then Forbidden
      else if 200 <= status <= 299 then WsBlocked
      else Unreachable
  }

  /** A probe that comes back is reported, whatever the socket has done meanwhile. */
  function Answered(s: Loop, a: Answer): Loop
    requires s.probes > 0
  {
    s.(probes := s.probes - 1, status := if s.closed then s.status else Some(Classified(a)))
  }

  function TimerFired(s: Loop, t: nat): Loop {
    Connected(s.(pending := s.pending - {t}))
  }

  function LiveChecked(s: Loop): Loop
    requires Known(s)
  {
    if !s.closed && IsOpen(s) && Stale(s) then Reconnected(s) else s
  }

  function Resumed(s: Loop, hidden: bool): Loop
    requires Known(s)
  {
    if s.closed || hidden then s else if !IsOpen(s) || Stale(s) then Reconnected(s) else s
  }

  function Stopped(s: Loop): Loop
    requires Known(s)
  {
    var s' := Cleared(s).(closed := true);
    if s.ws.Some? then s'.(sockets := s.sockets[s.ws.value := Shut(s.sockets[s.ws.value])]) else s'
  }

  /** The closure, with the parts of the browser it drives. */
  class EventsLoop {
    var sockets: seq<Socket>
    var ws: Option<nat>
    var closed: bool
    var backoff: nat
    var timer: Option<nat>
    var pending: set<nat>
    var timers: nat
    var fails: nat
    var lastFrameAt: int
    var now: int
    ghost var closes: nat
    var probes: nat
    var status: Option<Status>

    ghost function Value(): Loop
      reads this
    {
      Loop(sockets, ws, closed, backoff, timer, pending, timers, fails, lastFrameAt, now, closes, probes,
           status)
    }

    constructor (start: int)
      ensures Value() == Connected(Fresh(start))
    {
      sockets, ws, closed, backoff, timer, pending, timers := [], None, false, FIRST_DELAY, None, {}, 0;
      fails, lastFrameAt, now, closes, probes, status := 0, start, start, 0, 0, None;
      new;
      Connect();
    }

    method Connect()
      modifies this
      ensures Value() == Connected(old(Value()))
      ensures old(closed) ==> Value() == old(Value())
      ensures !old(closed) ==> sockets == old(sockets) + [Socket(Connecting, true)] && ws == Some(|old(sockets)|)
      ensures !old(closed) ==> lastFrameAt == now
    {
      if closed {
        return;
      }
      lastFrameAt := now;
      ws := Some(|sockets|);
      sockets := sockets + [Socket(Connecting, true)];
    }

    method OnOpen(i: nat)
      requires i < |sockets|
      modifies this
      ensures Value() == Opened(old(Value()), i)
      ensures sockets == old(sockets)[i := Socket(Open, old(sockets[i]).attached)] && now == old(now)
      ensures old(sockets[i]).attached ==>
        lastFrameAt == now && backoff == FIRST_DELAY && fails == 0 && status == Some(Up)
      ensures !old(sockets[i]).attached ==>
        lastFrameAt == old(lastFrameAt) && backoff == old(backoff) && fails == old(fails) && status == old(status)
    {
      var handled := sockets[i].attached;
      sockets := sockets[i := sockets[i].(ready := Open)];
      if handled {
        backoff := FIRST_DELAY;
        fails := 0;
        lastFrameAt := now;
        closes := 0;
        status := Some(Up);
      }
    }

    method OnMessage(i: nat)
      requires i < |sockets|
      modifies this
      ensures Value() == Heard(old(Value()), i)
      ensures lastFrameAt == if sockets[i].attached then now else old(lastFrameAt)
      ensures sockets == old(sockets) && now == old(now)
    {
      if sockets[i].attached {
        lastFrameAt := now;
      }
    }

    /** The browser runs a timer's callback; the loop's own record of it stays. */
    method OnTimer(t: nat)
      modifies this
      ensures Value() == TimerFired(old(Value()), t)
    {
      pending := pending - {t};
      Connect();
    }

    method OnClose(i: nat)
      requires i < |sockets|
      modifies this
      ensures Value() == CloseFired(old(Value()), i)
    {
      var handled := sockets[i].attached;
      sockets := sockets[i := sockets[i].(ready := Closed)];
      if !handled || closed {
        return;
      }
      Retry();
    }

    /** Count the failure, probe from the second on, and reconnect after the delay. */
    method Retry()
      modifies this
      ensures Value() == Retried(old(Value()))
    {
      fails := fails + 1;
      if fails >= 2 {
        probes := probes + 1;
      }
      timer, pending, timers := Some(timers), pending + {timers}, timers + 1;
      backoff := Min(backoff * 2, LAST_DELAY);
      closes := closes + 1;
    }

    /** The rest of classify, once the request has ended. */
    method OnProbe(a: Answer)
      requires probes > 0
      modifies this
      ensures Value() == Answered(old(Value()), a)
    {
      probes := probes - 1;
      var s := Unreachable;
      if a.Code? {
        s := if a.status == 401 then AuthExpired
             else if a.status == 403 then Forbidden
             else if 200 <= a.status <= 299 then WsBlocked
             else Unreachable;
      }
      if !closed {
        status := Some(s);
      }
    }

    method ReconnectNow()
      requires Known(Value())
      modifies this
      ensures Value() == Reconnected(old(Value()))
      ensures old(closed) ==> Value() == old(Value())
      ensures !old(closed) ==> timer == None && backoff == FIRST_DELAY && ws == Some(|old(sockets)|)
    {
      if closed {
        return;
      }
      if timer.Some? {
        pending := pending - {timer.value};
        timer := None;
      }
      backoff := FIRST_DELAY;
      closes := 0;
      if ws.Some? {
        var i := ws.value;
        sockets := sockets[i := Socket(if sockets[i].ready == Closed then Closed else Closing, false)];
        ws := None;
      }
      Connect();
    }

    method LiveCheck()
      requires Known(Value())
      modifies this
      ensures Value() == LiveChecked(old(Value()))
    {
      if !closed && ws.Some? && sockets[ws.value].ready == Open && now - lastFrameAt > STALE_AFTER {
        ReconnectNow();
      }
    }

    method OnResume(hidden: bool)
      requires Known(Value())
      modifies this
      ensures Value() == Resumed(old(Value()), hidden)
    {
      if closed || hidden {
        return;
      }
      if !(ws.Some? && sockets[ws.value].ready == Open) || now - lastFrameAt > STALE_AFTER {
        ReconnectNow();
      }
    }

    method Stop()
      requires Known(Value())
      modifies this
      ensures Value() == Stopped(old(Value()))
      ensures closed && |sockets| == |old(sockets)| && ws == old(ws)
      ensures old(timer).Some? ==> old(timer).value !in pending
      ensures ws.Some? ==> sockets[ws.value].ready == if old(sockets[ws.value].ready) == Closed then Closed else Closing
    {
      closed := true;
      if timer.Some? {
        pending := pending - {timer.value};
      }
      if ws.Some? {
        var i := ws.value;
        sockets := sockets[i := sockets[i].(ready := if sockets[i].ready == Closed then Closed else Closing)];
      }
    }
  }

  // ----------------------------------------------------------------- any run

  datatype Event =
    | SocketOpens(socket: nat)
    | Frame(socket: nat)
    | SocketCloses(socket: nat)
    | TimerFires(id: nat)
    | ProbeEnds(answer: Answer)
    | LiveCheck
    | Resume(hidden: bool)
    | Pass(elapsed: nat)
    | Stop

  /** What a browser can do: each socket opens at most once and closes once, and each
      timer fires once unless cleared. Closing a socket by the other side shows as its
      close event alone. */
  predicate Enabled(s: Loop, e: Event) {
    match e
    case SocketOpens(i) => i < |s.sockets| && s.sockets[i].ready == Connecting
    case Frame(i) => i < |s.sockets| && s.sockets[i].ready == Open
    case SocketCloses(i) => i < |s.sockets| && s.sockets[i].ready != Closed
    case TimerFires(t) => t in s.pending
    case ProbeEnds(_) => s.probes > 0
    case Stop => !s.closed
    case _ => true
  }

  function Next(s: Loop, e: Event): Loop
    requires Known(s) && Enabled(s, e)
  {
    match e
    case SocketOpens(i) => Opened(s, i)
    case Frame(i) => Heard(s, i)
    case SocketCloses(i) => CloseFired(s, i)
    case TimerFires(t) => TimerFired(s, t)
    case ProbeEnds(a) => Answered(s, a)
    case LiveCheck => LiveChecked(s)
    case Resume(hidden) => Resumed(s, hidden)
    case Pass(elapsed) => s.(now := s.now + elapsed)
    case Stop => Stopped(s)
  }

  datatype Run = Run(states: seq<Loop>, events: seq<Event>)

  ghost predicate StepAt(run: Run, i: nat)
    requires i < |run.events| && |run.states| == |run.events| + 1
  {
    && Known(run.states[i]) && Enabled(run.states[i], run.events[i])
    && run.states[i + 1] == Next(run.states[i], run.events[i])
  }

  ghost predicate IsRun(run: Run) {
    && |run.states| == |run.events| + 1
    && (exists start: int :: run.states[0] == Connected(Fresh(start)))
    && forall i :: 0 <= i < |run.events| ==> StepAt(run, i)
  }

  /** The current socket can still bring news: its close has not fired. */
  predicate Listening(s: Loop) {
    s.ws.Some? && s.ws.value < |s.sockets| && s.sockets[s.ws.value].attached && s.sockets[s.ws.value].ready != Closed
  }

  predicate Waiting(s: Loop) {
    s.timer.Some? && s.pending == {s.timer.value}
  }

  predicate Live(k: Socket) {
    k.ready == Connecting || k.ready == Open
  }

  function Pow2(n: nat): nat {
    if n == 0 then 1 else 2 * Pow2(n - 1)
  }

  ghost predicate Inv(s: Loop) {
    && s.ws.Some? && s.ws.value == |s.sockets| - 1
    && (forall i :: 0 <= i < |s.sockets| - 1 ==>
          !Live(s.sockets[i]) && (s.sockets[i].attached ==> s.sockets[i].ready == Closed))
    && (!s.closed ==>
          s.sockets[|s.sockets| - 1].attached
          && (Listening(s) ==> s.pending == {}) && (!Listening(s) ==> Waiting(s)))
    && (s.closed ==> s.pending == {} && !Live(s.sockets[|s.sockets| - 1]))
    && s.backoff == Min(FIRST_DELAY * Pow2(s.closes), LAST_DELAY)
  }

  lemma {:induction false} Pow2Positive(n: nat)
    ensures Pow2(n) >= 1
  {
    if n > 0 { Pow2Positive(n - 1); }
  }

  lemma NextInv(s: Loop, e: Event)
    requires Inv(s) && Enabled(s, e)
    ensures Known(s) && Inv(Next(s, e))
  {
  }

  lemma {:induction false} RunInv(run: Run, i: nat)
    requires IsRun(run) && i < |run.states|
    ensures Inv(run.states[i])
  {
    if i > 0 {
      RunInv(run, i - 1);
      assert StepAt(run, i - 1);
      NextInv(run.states[i - 1], run.events[i - 1]);
    }
  }

  /** A visible page that comes back has, at once, a socket that is open and recently
      heard, or a new one connecting. */
  lemma ResumeGetsALiveSocket(s: Loop)
    requires Known(s) && !s.closed
    ensures
      var s' := Next(s, Resume(false));
      && s'.ws.Some? && s'.ws.value < |s'.sockets| && Live(s'.sockets[s'.ws.value])
      && s'.now - s'.lastFrameAt <= STALE_AFTER
      && (s'.sockets == s.sockets <==> IsOpen(s) && !Stale(s))
  {
  }

  // ------------------------------------------------------------------ main results

  /** Never stuck and never doubled: until it is stopped the loop either listens on its
      current socket or has exactly one reconnect timer pending, not both, and no other
      socket it made is connecting or open. */
  lemma NeverStuckNeverDoubled(run: Run, i: nat)
    requires IsRun(run) && i < |run.states| && !run.states[i].closed
    ensures Listening(run.states[i]) <==> run.states[i].pending == {}
    ensures !Listening(run.states[i]) <==> Waiting(run.states[i])
    ensures forall j :: 0 <= j < |run.states[i].sockets| && Live(run.states[i].sockets[j]) ==>
      run.states[i].ws == Some(j)
  {
    RunInv(run, i);
  }

  /** The delay doubles with each close, from one second to fifteen, and starts over when
      a socket opens or the page comes back. */
  lemma DelayDoubles(run: Run, i: nat)
    requires IsRun(run) && i < |run.states|
    ensures run.states[i].backoff == Min(FIRST_DELAY * Pow2(run.states[i].closes), LAST_DELAY)
    ensures FIRST_DELAY <= run.states[i].backoff <= LAST_DELAY
  {
    RunInv(run, i);
    Pow2Positive(run.states[i].closes);
  }

  /** Once stopped, no socket or timer is ever made, and none is left connecting, open or
      pending. */
  lemma {:induction false} StoppedForGood(run: Run, i: nat, j: nat)
    requires IsRun(run) && i <= j < |run.states| && run.states[i].closed
    ensures run.states[j].closed && run.states[j].pending == {}
    ensures |run.states[j].sockets| == |run.states[i].sockets| && run.states[j].timers == run.states[i].timers
    ensures forall k :: 0 <= k < |run.states[j].sockets| ==> !Live(run.states[j].sockets[k])
    decreases j
  {
    RunInv(run, j);
    if i < j {
      StoppedForGood(run, i, j - 1);
      assert StepAt(run, j - 1);
      RunInv(run, j - 1);
      var s := run.states[j - 1];
      assert !Live(s.sockets[|s.sockets| - 1]);
    }
  }

  // ------------------------------------------------------------- what the status says

  /** The step from state k opens the loop's own socket, or is a close that counts. */
  predicate Opens(s: Loop, e: Event) {
    e.SocketOpens? && e.socket < |s.sockets| && s.sockets[e.socket].attached
  }

  predicate Fails(s: Loop, e: Event) {
    e.SocketCloses? && e.socket < |s.sockets| && s.sockets[e.socket].attached && !s.closed
  }

  function Stage(r: Ready): nat {
    match r
    case Connecting => 0
    case Open => 1
    case Closing => 2
    case Closed => 3
  }

  /** No socket goes away, and none goes back. */
  lemma SocketAges(s: Loop, e: Event, w: nat)
    requires Inv(s) && Enabled(s, e) && w < |s.sockets|
    ensures |s.sockets| <= |Next(s, e).sockets|
    ensures Stage(s.sockets[w].ready) <= Stage(Next(s, e).sockets[w].ready)
  {
  }

  lemma {:induction false} SocketsAge(run: Run, i: nat, j: nat, w: nat)
    requires IsRun(run) && i <= j < |run.states| && w < |run.states[i].sockets|
    ensures w < |run.states[i].sockets| <= |run.states[j].sockets|
    ensures Stage(run.states[i].sockets[w].ready) <= Stage(run.states[j].sockets[w].ready)
    decreases j
  {
    if i < j {
      SocketsAge(run, i, j - 1, w);
      RunInv(run, j - 1);
      assert StepAt(run, j - 1);
      SocketAges(run.states[j - 1], run.events[j - 1], w);
    }
  }

  /** The status after one more step, while the socket is open after it. */
  lemma StatusStep(s: Loop, e: Event)
    requires Inv(s) && Enabled(s, e) && Next(s, e).ws == s.ws && IsOpen(Next(s, e)) && !Opens(s, e)
    ensures IsOpen(s)
    ensures Next(s, e).status == if e.ProbeEnds? && !s.closed then Some(Classified(e.answer)) else s.status
  {
  }

  lemma OpenedIsUp(s: Loop, e: Event)
    requires Inv(s) && Enabled(s, e) && Opens(s, e)
    ensures Next(s, e).status == Some(Up)
  {
  }

  /** The socket that opened at step m is open still. */
  ghost predicate OpenSince(run: Run, m: nat, i: nat)
    requires IsRun(run) && m < i < |run.states|
  {
    && Opens(run.states[m], run.events[m]) && run.states[i].ws == Some(run.events[m].socket)
    && Known(run.states[i]) && IsOpen(run.states[i])
  }

  lemma OpenBefore(run: Run, m: nat, i: nat)
    requires IsRun(run) && m + 1 < i < |run.states| && OpenSince(run, m, i) && !run.states[i].closed
    ensures OpenSince(run, m, i - 1) && !run.states[i - 1].closed && !Opens(run.states[i - 1], run.events[i - 1])
    ensures run.states[i - 1].ws == run.states[i].ws
  {
    assert StepAt(run, m) && StepAt(run, i - 1);
    RunInv(run, m + 1);
    RunInv(run, i - 1);
    RunInv(run, i);
    var w := run.events[m].socket;
    SocketsAge(run, m + 1, i - 1, w);
    SocketAges(run.states[i - 1], run.events[i - 1], w);
    assert Stage(run.states[m + 1].sockets[w].ready) == 1 == Stage(run.states[i].sockets[w].ready);
  }

  /** While the socket is open its status is shown as open exactly as long as no probe
      ends: one begun before the socket opened reports its failure all the same. */
  lemma {:induction false} OpenIsShownIff(run: Run, m: nat, i: nat)
    requires IsRun(run) && m < i < |run.states| && OpenSince(run, m, i) && !run.states[i].closed
    ensures run.states[i].status == Some(Up) <==> forall k :: m < k < i ==> !run.events[k].ProbeEnds?
    decreases i
  {
    RunInv(run, i - 1);
    assert StepAt(run, i - 1);
    if i == m + 1 {
      OpenedIsUp(run.states[m], run.events[m]);
    } else {
      OpenBefore(run, m, i);
      StatusStep(run.states[i - 1], run.events[i - 1]);
      OpenIsShownIff(run, m, i - 1);
    }
  }

  /** Two failures, at j and at k, with no opening from j on. */
  ghost predicate TwoFail(run: Run, j: nat, k: nat)
    requires IsRun(run) && j < k < |run.events|
  {
    && Fails(run.states[j], run.events[j]) && Fails(run.states[k], run.events[k])
    && forall m :: j < m < k ==> !Opens(run.states[m], run.events[m])
  }

  lemma {:induction false} OneFailure(run: Run, i: nat) returns (j: nat)
    requires IsRun(run) && i < |run.states| && run.states[i].fails >= 1
    ensures j < i && Fails(run.states[j], run.events[j])
    ensures forall m :: j < m < i ==> !Opens(run.states[m], run.events[m])
  {
    assert i > 0 && StepAt(run, i - 1);
    if Fails(run.states[i - 1], run.events[i - 1]) {
      j := i - 1;
    } else {
      j := OneFailure(run, i - 1);
    }
  }

  predicate Alarming(s: Loop) {
    s.probes > 0 || (s.status.Some? && s.status != Some(Up))
  }

  lemma AlarmStep(s: Loop, e: Event)
    requires Known(s) && Enabled(s, e) && Alarming(Next(s, e))
    ensures Alarming(s) || (Fails(s, e) && s.fails >= 1)
  {
  }

  lemma {:induction false} AlarmCause(run: Run, i: nat) returns (j: nat, k: nat)
    requires IsRun(run) && i < |run.states| && Alarming(run.states[i])
    ensures j < k < i && TwoFail(run, j, k)
  {
    assert i > 0 && StepAt(run, i - 1);
    AlarmStep(run.states[i - 1], run.events[i - 1]);
    if Alarming(run.states[i - 1]) {
      j, k := AlarmCause(run, i - 1);
    } else {
      j := OneFailure(run, i - 1);
      k := i - 1;
    }
  }

  /** One failure is never reported: for any status but open there were two in a row. */
  lemma AlarmNeedsTwoFailures(run: Run, i: nat)
    requires IsRun(run) && i < |run.states| && run.states[i].status.Some? && run.states[i].status != Some(Up)
    ensures exists j, k :: 0 <= j < k < i && TwoFail(run, j, k)
  {
    var j, k := AlarmCause(run, i);
  }

  lemma Longer(run: Run, e: Event) returns (longer: Run)
    requires IsRun(run) && Known(run.states[|run.events|]) && Enabled(run.states[|run.events|], e)
    ensures IsRun(longer) && longer.events == run.events + [e]
    ensures longer.states == run.states + [Next(run.states[|run.events|], e)]
  {
    longer := Run(run.states + [Next(run.states[|run.events|], e)], run.events + [e]);
    forall i | 0 <= i < |longer.events|
      ensures StepAt(longer, i)
    {
      assert i < |run.events| ==> StepAt(run, i);
    }
    assert longer.states[0] == run.states[0];
  }

  /** Two failures and a third attempt: it is connecting and the probe is out. */
  lemma ProbeIsOut() returns (run: Run)
    ensures IsRun(run)
    ensures
      var s := run.states[|run.events|];
      Known(s) && s.probes == 1 && !s.closed && s.ws == Some(2) && |s.sockets| == 3
      && s.sockets[2] == Socket(Connecting, true)
  {
    run := Run([Connected(Fresh(0))], []);
    assert run.states[0] == Connected(Fresh(0));
    run := Longer(run, SocketCloses(0));
    run := Longer(run, TimerFires(0));
    run := Longer(run, SocketCloses(1));
    run := Longer(run, TimerFires(1));
  }

  /** The third attempt opens, and then the probe comes back: the page says that
      WebSockets are blocked, over an open socket. */
  lemma LateProbeHidesOpen() returns (run: Run)
    ensures IsRun(run)
    ensures
      var s := run.states[|run.events|];
      Known(s) && !s.closed && IsOpen(s) && s.status == Some(WsBlocked)
  {
    run := ProbeIsOut();
    run := Longer(run, SocketOpens(2));
    run := Longer(run, ProbeEnds(Code(200)));
  }
}

/** One connection per URL, shared by everything on the page that watches it. */
module EventConnections {
  import opened Options

  /** The latest status and build, of which there may be none yet. */
  datatype News = News(status: Option<string>, build: Option<string>)

  datatype Connection = Connection(url: string, subscribers: set<nat>, stopped: bool, last: News)

  /** `connections` is the page's map, `made` every connection ever opened, `handles` which
      connection each current subscriber's unsubscribe closes over, and `heard` what each of
      them was last told. */
  datatype Page = Page(
    connections: map<string, nat>, made: seq<Connection>, handles: map<nat, nat>, heard: map<nat, News>, subs: nat)

  const NOTHING := News(None, None)
  const EMPTY := Page(map[], [], map[], map[], 0)

  predicate WellFormed(p: Page) {
    && (forall url :: url in p.connections ==> p.connections[url] < |p.made|)
    && (forall sub :: sub in p.handles ==> p.handles[sub] < |p.made|)
    && (forall c, sub :: 0 <= c < |p.made| && sub in p.made[c].subscribers ==> sub in p.heard)
  }

  /** One that joins a running connection is told what it missed. */
  function Subscribed(p: Page, url: string): Page
    requires WellFormed(p)
  {
    var sub := p.subs;
    if url in p.connections then
      var c := p.connections[url];
      p.(made := p.made[c := p.made[c].(subscribers := p.made[c].subscribers + {sub})],
         handles := p.handles[sub := c], heard := p.heard[sub := p.made[c].last], subs := sub + 1)
    else
      p.(connections := p.connections[url := |p.made|], made := p.made + [Connection(url, {sub}, false, NOTHING)],
         handles := p.handles[sub := |p.made|], heard := p.heard[sub := NOTHING], subs := sub + 1)
  }

  function Unsubscribed(p: Page, sub: nat): Page
    requires WellFormed(p) && sub in p.handles
  {
    var c := p.handles[sub];
    var left := p.made[c].subscribers - {sub};
    var p' := p.(handles := p.handles - {sub}, heard := p.heard - {sub});
    if left == {} then
      p'.(made := p.made[c := p.made[c].(subscribers := left, stopped := true)],
          connections := p.connections - {p.made[c].url})
    else p'.(made := p.made[c := p.made[c].(subscribers := left)])
  }

  /** Connection c tells its subscribers, and remembers it for those to come. */
  function Told(p: Page, c: nat, news: News): Page
    requires WellFormed(p) && c < |p.made|
  {
    p.(made := p.made[c := p.made[c].(last := Newer(p.made[c].last, news))],
       heard := Spread(p.heard, p.made[c].subscribers, news))
  }

  function Newer(past: News, news: News): News {
    News(if news.status.Some? then news.status else past.status, if news.build.Some? then news.build else past.build)
  }

  function Spread(heard: map<nat, News>, subs: set<nat>, news: News): map<nat, News> {
    map sub | sub in heard :: if sub in subs then Newer(heard[sub], news) else heard[sub]
  }

  /** The module's map and the two halves of subscribe. A subscriber is known by number. */
  class Connections {
    var connections: map<string, nat>
    var made: seq<Connection>
    var handles: map<nat, nat>
    var heard: map<nat, News>
    var subs: nat

    ghost function Value(): Page
      reads this
    {
      Page(connections, made, handles, heard, subs)
    }

    method Subscribe(url: string) returns (sub: nat)
      requires WellFormed(Value())
      modifies this
      ensures Value() == Subscribed(old(Value()), url) && sub == old(subs)
      ensures subs == sub + 1 && handles.Keys == old(handles).Keys + {sub}
    {
      sub := subs;
      subs := subs + 1;
      heard := heard[sub := NOTHING];
      var c: nat;
      if url in connections {
        c := connections[url];
        made := made[c := made[c].(subscribers := made[c].subscribers + {sub})];
        if made[c].last.status.Some? {
          heard := heard[sub := heard[sub].(status := made[c].last.status)];
        }
        if made[c].last.build.Some? {
          heard := heard[sub := heard[sub].(build := made[c].last.build)];
        }
        assert heard[sub] == made[c].last;
        assert heard == old(heard)[sub := made[c].last];
      } else {
        c := |made|;
        made := made + [Connection(url, {sub}, false, NOTHING)];
        connections := connections[url := c];
      }
      handles := handles[sub := c];
    }

    method Unsubscribe(sub: nat)
      requires WellFormed(Value()) && sub in handles
      modifies this
      ensures Value() == Unsubscribed(old(Value()), sub)
    {
      var c := handles[sub];
      handles, heard := handles - {sub}, heard - {sub};
      made := made[c := made[c].(subscribers := made[c].subscribers - {sub})];
      if made[c].subscribers == {} {
        connections := connections - {made[c].url};
        made := made[c := made[c].(stopped := true)];
      }
    }

    /** setStatus, or a hello frame: remember it and call every subscriber. */
    method Tell(c: nat, news: News)
      requires WellFormed(Value()) && c < |made|
      modifies this`made, this`heard
      ensures Value() == Told(old(Value()), c, news)
    {
      made := made[c := made[c].(last := Newer(made[c].last, news))];
      var left := made[c].subscribers;
      while left != {}
        invariant left <= old(made[c].subscribers) && heard.Keys == old(heard).Keys
        invariant heard == Spread(old(heard), old(made[c].subscribers) - left, news)
        invariant made == old(made[c := made[c].(last := Newer(made[c].last, news))])
        decreases |left|
      {
        var sub :| sub in left;
        assert sub in old(made[c].subscribers);
        heard := heard[sub := Newer(heard[sub], news)];
        left := left - {sub};
      }
    }
  }

  datatype Event = Subscribe(url: string) | Unsubscribe(sub: nat) | Tell(connection: nat, news: News)

  predicate Enabled(p: Page, e: Event) {
    && WellFormed(p)
    && (e.Unsubscribe? ==> e.sub in p.handles)
    && (e.Tell? ==> e.connection < |p.made|)
  }

  function Next(p: Page, e: Event): Page
    requires Enabled(p, e)
  {
    match e
    case Subscribe(url) => Subscribed(p, url)
    case Unsubscribe(sub) => Unsubscribed(p, sub)
    case Tell(c, news) => Told(p, c, news)
  }

  ghost predicate StepAt(states: seq<Page>, events: seq<Event>, i: nat)
    requires i < |events| && |states| == |events| + 1
  {
    Enabled(states[i], events[i]) && states[i + 1] == Next(states[i], events[i])
  }

  ghost predicate IsRun(states: seq<Page>, events: seq<Event>) {
    && |states| == |events| + 1 && states[0] == EMPTY
    && forall i :: 0 <= i < |events| ==> StepAt(states, events, i)
  }

  /** A connection knows exactly the subscribers whose unsubscribe would reach it, and is
      stopped when the last has left. */
  ghost predicate Counted(p: Page, c: nat)
    requires c < |p.made|
  {
    && (forall sub :: sub in p.made[c].subscribers <==> sub in p.handles && p.handles[sub] == c)
    && (p.made[c].stopped <==> p.made[c].subscribers == {})
    && (!p.made[c].stopped ==> p.made[c].url in p.connections && p.connections[p.made[c].url] == c)
  }

  /** Only current subscribers are told anything. */
  predicate Listed(p: Page) {
    p.heard.Keys == p.handles.Keys
  }

  /** A current subscriber was last told what its connection last had to tell. */
  predicate Informed(p: Page, sub: nat) {
    sub in p.handles && p.handles[sub] < |p.made| ==> sub in p.heard && p.heard[sub] == p.made[p.handles[sub]].last
  }

  ghost predicate Inv(p: Page) {
    && WellFormed(p)
    && (forall sub :: sub in p.handles ==> sub < p.subs)
    && (forall c :: 0 <= c < |p.made| ==> Counted(p, c))
    && (forall url :: url in p.connections ==>
          p.made[p.connections[url]].url == url && !p.made[p.connections[url]].stopped)
    && (forall sub :: Informed(p, sub))
  }

  lemma CountedAreHeard(p: Page)
    requires forall sub :: sub in p.handles ==> p.handles[sub] < |p.made|
    requires (forall c :: 0 <= c < |p.made| ==> Counted(p, c)) && (forall sub :: Informed(p, sub))
    ensures forall c, sub :: 0 <= c < |p.made| && sub in p.made[c].subscribers ==> sub in p.heard
  {
    forall c, sub | 0 <= c < |p.made| && sub in p.made[c].subscribers
      ensures sub in p.heard
    {
      assert Counted(p, c) && Informed(p, sub);
    }
  }

  lemma SubscribeCounts(p: Page, url: string, c: nat)
    requires Inv(p) && c < |Subscribed(p, url).made|
    ensures Counted(Subscribed(p, url), c)
  {
    assert c < |p.made| ==> Counted(p, c);
  }

  lemma SubscribeInv(p: Page, url: string)
    requires Inv(p)
    ensures Inv(Subscribed(p, url))
  {
    var p' := Subscribed(p, url);
    forall c | 0 <= c < |p'.made|
      ensures Counted(p', c)
    {
      SubscribeCounts(p, url, c);
    }
    forall sub
      ensures Informed(p', sub)
    {
      assert Informed(p, sub);
    }
    CountedAreHeard(p');
  }

  lemma UnsubscribeCounts(p: Page, sub: nat, c: nat)
    requires Inv(p) && sub in p.handles && c < |p.made|
    ensures Counted(Unsubscribed(p, sub), c)
  {
    assert Counted(p, p.handles[sub]) && Counted(p, c);
  }

  lemma UnsubscribeInv(p: Page, sub: nat)
    requires Inv(p) && sub in p.handles
    ensures Inv(Unsubscribed(p, sub))
  {
    var p' := Unsubscribed(p, sub);
    assert Counted(p, p.handles[sub]);
    forall c | 0 <= c < |p'.made|
      ensures Counted(p', c)
    {
      UnsubscribeCounts(p, sub, c);
    }
    forall other
      ensures Informed(p', other)
    {
      assert Informed(p, other);
    }
    CountedAreHeard(p');
  }

  lemma TellInv(p: Page, c: nat, news: News)
    requires Inv(p) && c < |p.made|
    ensures Inv(Told(p, c, news))
  {
    var p' := Told(p, c, news);
    assert Counted(p, c);
    forall d | 0 <= d < |p'.made|
      ensures Counted(p', d)
    {
      assert Counted(p, d);
    }
    forall sub
      ensures Informed(p', sub)
    {
      assert Informed(p, sub);
    }
    CountedAreHeard(p');
  }

  lemma NextInv(p: Page, e: Event)
    requires Inv(p) && Enabled(p, e)
    ensures Inv(Next(p, e))
  {
    match e
    case Subscribe(url) => SubscribeInv(p, url);
    case Unsubscribe(sub) => UnsubscribeInv(p, sub);
    case Tell(c, news) => TellInv(p, c, news);
  }

  lemma {:induction false} RunInv(states: seq<Page>, events: seq<Event>, i: nat)
    requires IsRun(states, events) && i < |states|
    ensures Inv(states[i])
  {
    if i > 0 {
      RunInv(states, events, i - 1);
      assert StepAt(states, events, i - 1);
      NextInv(states[i - 1], events[i - 1]);
    }
  }

  /** However components come and go: a URL has a running connection exactly while
      something watches it, and then one, which everything that watches it shares. */
  lemma OneConnectionPerUrl(states: seq<Page>, events: seq<Event>, i: nat, url: string)
    requires IsRun(states, events) && i < |states|
    ensures
      var p := states[i];
      && (url in p.connections <==>
            exists sub :: sub in p.handles && p.handles[sub] < |p.made| && p.made[p.handles[sub]].url == url)
      && (forall c :: 0 <= c < |p.made| && p.made[c].url == url && !p.made[c].stopped ==>
            url in p.connections && c == p.connections[url])
      && (forall sub :: sub in p.handles && p.handles[sub] < |p.made| && p.made[p.handles[sub]].url == url ==>
            url in p.connections && p.handles[sub] == p.connections[url] && !p.made[p.handles[sub]].stopped)
  {
    RunInv(states, events, i);
    var p := states[i];
    if url in p.connections {
      var c := p.connections[url];
      assert Counted(p, c);
      var sub :| sub in p.made[c].subscribers;
      assert sub in p.handles && p.handles[sub] == c;
    }
    forall c | 0 <= c < |p.made| && p.made[c].url == url && !p.made[c].stopped
      ensures url in p.connections && c == p.connections[url]
    {
      assert Counted(p, c);
    }
    forall sub | sub in p.handles && p.made[p.handles[sub]].url == url
      ensures url in p.connections && p.handles[sub] == p.connections[url] && !p.made[p.handles[sub]].stopped
    {
      assert Counted(p, p.handles[sub]);
    }
  }

  /** Nobody misses the status or the build for having come late: whoever watches a URL was
      last told exactly the latest its connection has. */
  lemma EveryoneHasTheLatest(states: seq<Page>, events: seq<Event>, i: nat, sub: nat)
    requires IsRun(states, events) && i < |states| && sub in states[i].handles
    ensures
      var p := states[i];
      && p.handles[sub] < |p.made| && sub in p.heard
      && p.heard[sub] == p.made[p.handles[sub]].last
  {
    RunInv(states, events, i);
    assert Informed(states[i], sub);
  }

  /** No connection goes away or changes its URL, and only news of it changes its latest. */
  lemma ConnectionStep(p: Page, e: Event, c: nat)
    requires Enabled(p, e) && c < |p.made|
    ensures c < |Next(p, e).made| && Next(p, e).made[c].url == p.made[c].url
    ensures
      var tells := e.Tell? && e.connection == c;
      && Next(p, e).made[c].last.status ==
           (if tells && e.news.status.Some? then e.news.status else p.made[c].last.status)
      && Next(p, e).made[c].last.build ==
           (if tells && e.news.build.Some? then e.news.build else p.made[c].last.build)
  {
  }

  lemma ListedStep(p: Page, e: Event)
    requires Enabled(p, e) && Listed(p)
    ensures Listed(Next(p, e))
  {
  }

  /** The news of event e, if it is of connection c. */
  function NewsOf(e: Event, c: nat): News {
    if e.Tell? && e.connection == c then e.news else NOTHING
  }

  lemma {:induction false} LatestStatus(states: seq<Page>, events: seq<Event>, k: nat, i: nat, c: nat)
    requires IsRun(states, events) && k < i < |states| && NewsOf(events[k], c).status.Some?
    requires forall m :: k < m < i ==> NewsOf(events[m], c).status.None?
    ensures c < |states[i].made| && states[i].made[c].last.status == NewsOf(events[k], c).status
    decreases i
  {
    assert StepAt(states, events, i - 1);
    if k < i - 1 {
      LatestStatus(states, events, k, i - 1, c);
    }
    ConnectionStep(states[i - 1], events[i - 1], c);
  }

  lemma {:induction false} LatestBuild(states: seq<Page>, events: seq<Event>, k: nat, i: nat, c: nat)
    requires IsRun(states, events) && k < i < |states| && NewsOf(events[k], c).build.Some?
    requires forall m :: k < m < i ==> NewsOf(events[m], c).build.None?
    ensures c < |states[i].made| && states[i].made[c].last.build == NewsOf(events[k], c).build
    decreases i
  {
    assert StepAt(states, events, i - 1);
    if k < i - 1 {
      LatestBuild(states, events, k, i - 1, c);
    }
    ConnectionStep(states[i - 1], events[i - 1], c);
  }

  /** Whoever watches a URL was last told the status and the build that its connection most
      recently reported, however late it came; and nobody else is told anything. */
  lemma WatchersKnowTheNews(states: seq<Page>, events: seq<Event>, k: nat, m: nat, i: nat, sub: nat)
    requires IsRun(states, events) && k < i < |states| && m < i && sub in states[i].handles
    requires
      var c := states[i].handles[sub];
      && NewsOf(events[k], c).status.Some? && NewsOf(events[m], c).build.Some?
      && (forall j :: k < j < i ==> NewsOf(events[j], c).status.None?)
      && (forall j :: m < j < i ==> NewsOf(events[j], c).build.None?)
    ensures
      var c := states[i].handles[sub];
      sub in states[i].heard && states[i].heard[sub] == News(NewsOf(events[k], c).status, NewsOf(events[m], c).build)
  {
    EveryoneHasTheLatest(states, events, i, sub);
    LatestStatus(states, events, k, i, states[i].handles[sub]);
    LatestBuild(states, events, m, i, states[i].handles[sub]);
  }

  lemma {:induction false} OnlyWatchersAreTold(states: seq<Page>, events: seq<Event>, i: nat)
    requires IsRun(states, events) && i < |states|
    ensures states[i].heard.Keys == states[i].handles.Keys
  {
    if i > 0 {
      OnlyWatchersAreTold(states, events, i - 1);
      assert StepAt(states, events, i - 1);
      ListedStep(states[i - 1], events[i - 1]);
    }
  }
}

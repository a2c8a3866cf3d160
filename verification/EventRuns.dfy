/** What a run of the events loop shows from outside: how long it has heard nothing, which
    silences cost it its socket, and what its failures and probes lead to. Each is told by
    the run's events alone. */
module EventRuns {
  import opened Options
  import opened Events

  /** At step k the current socket opens or brings a frame. */
  predicate FromCurrent(run: Run, k: nat)
    requires k < |run.events| < |run.states|
  {
    var e := run.events[k];
    (e.SocketOpens? || e.Frame?) && run.states[k].ws == Some(e.socket)
  }

  predicate MakesSocket(run: Run, k: nat)
    requires k < |run.events| < |run.states|
  {
    |run.states[k + 1].sockets| > |run.states[k].sockets|
  }

  predicate Hears(run: Run, k: nat)
    requires k < |run.events| < |run.states|
  {
    FromCurrent(run, k) || MakesSocket(run, k)
  }

  /** Time that passes from step k to state i. */
  function Elapsed(run: Run, k: nat, i: nat): nat
    requires k <= i <= |run.events|
  {
    if k == i then 0
    else Elapsed(run, k, i - 1) + if run.events[i - 1].Pass? then run.events[i - 1].elapsed else 0
  }

  /** Nothing has been heard since step k. */
  predicate SilentSince(run: Run, k: nat, i: nat)
    requires |run.states| == |run.events| + 1 && k < i <= |run.events|
  {
    Hears(run, k) && forall m :: k < m < i ==> !Hears(run, m)
  }

  lemma HearStep(run: Run, i: nat)
    requires IsRun(run) && i < |run.events|
    ensures run.states[i + 1].lastFrameAt == if Hears(run, i) then run.states[i].now else run.states[i].lastFrameAt
    ensures run.states[i + 1].now == run.states[i].now + Elapsed(run, i, i + 1)
  {
    RunInv(run, i);
    assert StepAt(run, i);
    assert Elapsed(run, i, i) == 0;
  }

  lemma {:induction false} ClockRuns(run: Run, k: nat, i: nat)
    requires IsRun(run) && k <= i <= |run.events|
    ensures run.states[i].now == run.states[k].now + Elapsed(run, k, i)
    decreases i
  {
    if k < i {
      ClockRuns(run, k, i - 1);
      HearStep(run, i - 1);
    }
  }

  /** The clock of silence runs from the last thing heard. */
  lemma {:induction false} SilenceIsElapsed(run: Run, k: nat, i: nat)
    requires IsRun(run) && k < i <= |run.events| && SilentSince(run, k, i)
    ensures run.states[i].now - run.states[i].lastFrameAt == Elapsed(run, k, i)
    decreases i
  {
    HearStep(run, i - 1);
    ClockRuns(run, k, i);
    if k < i - 1 {
      SilenceIsElapsed(run, k, i - 1);
      ClockRuns(run, k, i - 1);
    }
  }

  predicate CurrentOpen(s: Loop) {
    s.ws.Some? && s.ws.value < |s.sockets| && s.sockets[s.ws.value].ready == Open
  }

  /** The current socket is disowned and closed, and a new one is connecting. */
  predicate Replaces(s: Loop, s': Loop) {
    && s.ws.Some? && s.ws.value < |s.sockets|
    && |s'.sockets| == |s.sockets| + 1 && s'.ws == Some(|s.sockets|)
    && s'.sockets[|s.sockets|] == Socket(Connecting, true)
    && s'.sockets[s.ws.value] == Socket(if s.sockets[s.ws.value].ready == Closed then Closed else Closing, false)
    && (forall j :: 0 <= j < |s.sockets| && j != s.ws.value ==> s'.sockets[j] == s.sockets[j])
    && s'.pending == {} && s'.timer == None && s'.backoff == FIRST_DELAY
    && s'.fails == s.fails && s'.probes == s.probes && s'.status == s.status && !s'.closed
  }

  /** The regular look at the socket replaces it exactly when it is open and nothing has
      been heard for more than 75 seconds; otherwise it changes nothing. */
  lemma LiveCheckReplacesIff(run: Run, k: nat, i: nat)
    requires IsRun(run) && k < i < |run.events| && SilentSince(run, k, i) && run.events[i].LiveCheck?
    ensures
      var s, s' := run.states[i], run.states[i + 1];
      if !s.closed && CurrentOpen(s) && Elapsed(run, k, i) > STALE_AFTER then Replaces(s, s') else s' == s
  {
    RunInv(run, i);
    assert StepAt(run, i);
    SilenceIsElapsed(run, k, i);
  }

  /** A visible page that comes back replaces its socket exactly when that is not open or
      has been silent for more than 75 seconds; a hidden or stopped one does nothing. */
  lemma ResumeReplacesIff(run: Run, k: nat, i: nat)
    requires IsRun(run) && k < i < |run.events| && SilentSince(run, k, i) && run.events[i].Resume?
    ensures
      var s, s' := run.states[i], run.states[i + 1];
      if !s.closed && !run.events[i].hidden && (!CurrentOpen(s) || Elapsed(run, k, i) > STALE_AFTER)
      then Replaces(s, s') else s' == s
  {
    RunInv(run, i);
    assert StepAt(run, i);
    SilenceIsElapsed(run, k, i);
  }

  // ------------------------------------------------------------- failures and probes

  /** At step k the current socket closes, and nobody has stopped the loop. */
  predicate Drops(run: Run, k: nat)
    requires k < |run.events| < |run.states|
  {
    run.events[k].SocketCloses? && run.states[k].ws == Some(run.events[k].socket) && !run.states[k].closed
  }

  predicate OpensCurrent(run: Run, k: nat)
    requires k < |run.events| < |run.states|
  {
    run.events[k].SocketOpens? && run.states[k].ws == Some(run.events[k].socket)
  }

  /** Drops before state i since the socket last opened. */
  function DropsInARow(run: Run, i: nat): nat
    requires i <= |run.events| < |run.states|
  {
    if i == 0 || OpensCurrent(run, i - 1) then 0
    else DropsInARow(run, i - 1) + if Drops(run, i - 1) then 1 else 0
  }

  /** Drops before state i that were the second in a row or a later one. */
  function Alarms(run: Run, i: nat): nat
    requires i <= |run.events| < |run.states|
  {
    if i == 0 then 0
    else Alarms(run, i - 1) + if Drops(run, i - 1) && DropsInARow(run, i - 1) >= 1 then 1 else 0
  }

  function Answers(run: Run, i: nat): nat
    requires i <= |run.events|
  {
    if i == 0 then 0 else Answers(run, i - 1) + if run.events[i - 1].ProbeEnds? then 1 else 0
  }

  /** A close counts, and starts a timer, exactly when it is the current socket's. */
  lemma DropStep(run: Run, i: nat)
    requires IsRun(run) && i < |run.events|
    ensures
      var s, s' := run.states[i], run.states[i + 1];
      && s'.fails == (if OpensCurrent(run, i) then 0 else if Drops(run, i) then s.fails + 1 else s.fails)
      && s'.timers == (if Drops(run, i) then s.timers + 1 else s.timers)
      && s'.probes + (if run.events[i].ProbeEnds? then 1 else 0) ==
           s.probes + if Drops(run, i) && s.fails >= 1 then 1 else 0
  {
    RunInv(run, i);
    assert StepAt(run, i);
  }

  /** Failures are counted from the last opening, and a probe is out for every second or
      later failure in a row that has not been answered yet: no more, and no fewer. */
  lemma {:induction false} ProbesAreOwed(run: Run, i: nat)
    requires IsRun(run) && i <= |run.events|
    ensures run.states[i].fails == DropsInARow(run, i)
    ensures run.states[i].probes == Alarms(run, i) - Answers(run, i)
  {
    if i > 0 {
      ProbesAreOwed(run, i - 1);
      DropStep(run, i - 1);
    }
  }

  /** Step k reports a status: the current socket opens, or a probe ends before the stop. */
  predicate Reports(run: Run, k: nat)
    requires k < |run.events| < |run.states|
  {
    OpensCurrent(run, k) || (run.events[k].ProbeEnds? && !run.states[k].closed)
  }

  /** What a probe's answer means: signed out, refused, answered though the socket was
      not, or no good answer at all. */
  predicate Means(a: Answer, status: Status) {
    && (status == AuthExpired <==> a == Code(401))
    && (status == Forbidden <==> a == Code(403))
    && (status == WsBlocked <==> a.Code? && 200 <= a.status < 300)
    && status != Up
  }

  lemma ReportStep(run: Run, i: nat)
    requires IsRun(run) && i < |run.events|
    ensures !Reports(run, i) ==> run.states[i + 1].status == run.states[i].status
    ensures OpensCurrent(run, i) ==> run.states[i + 1].status == Some(Up)
    ensures Reports(run, i) && run.events[i].ProbeEnds? ==>
      run.states[i + 1].status.Some? && Means(run.events[i].answer, run.states[i + 1].status.value)
  {
    RunInv(run, i);
    assert StepAt(run, i);
  }

  /** The status is what was last reported: open for an opened socket, else what the
      probe's answer means. Nothing is reported after the stop. */
  lemma {:induction false} StatusIsLatestReport(run: Run, k: nat, i: nat)
    requires IsRun(run) && k < i <= |run.events| && Reports(run, k)
    requires forall m :: k < m < i ==> !Reports(run, m)
    ensures run.states[i].status.Some?
    ensures run.events[k].SocketOpens? ==> run.states[i].status == Some(Up)
    ensures run.events[k].ProbeEnds? ==> Means(run.events[k].answer, run.states[i].status.value)
    decreases i
  {
    ReportStep(run, i - 1);
    if k < i - 1 {
      StatusIsLatestReport(run, k, i - 1);
    }
  }
}

/** Coalescing the session-list requests of each server: a refresh asked for while one
    is out is folded into a single follow-up. */
module SessionFetch {
  /** The request in flight for one server, as the page remembers it. `first` is the
      settleInitial flag its own callback closed over. */
  datatype Flight = Flight(queued: bool, settle: bool, first: bool)

  /** Per server, what fetchSessions does when called now: fold, or send. */
  function Asked(flights: map<string, Flight>, server: string, settleInitial: bool): map<string, Flight> {
    if server in flights then
      var f := flights[server];
      flights[server := f.(queued := true, settle := f.settle || settleInitial)]
    else flights[server := Flight(false, false, settleInitial)]
  }

  /** The page's ref with the callbacks that change it. `sent` tells whether a request
      leaves now. */
  class SessionFetches {
    var flights: map<string, Flight>
    var settled: set<string>

    constructor ()
      ensures flights == map[] && settled == {}
    {
      flights, settled := map[], {};
    }

    method FetchSessions(server: string, settleInitial: bool) returns (sent: bool)
      modifies this`flights
      ensures flights == Asked(old(flights), server, settleInitial) && sent == (server !in old(flights))
    {
      if server in flights {
        var f := flights[server];
        flights := flights[server := f.(queued := true, settle := f.settle || settleInitial)];
        return false;
      }
      flights := flights[server := Flight(false, false, settleInitial)];
      sent := true;
    }

    /** The request for `server` has been answered or has failed; `listed` says whether
        the server is still in the list. */
    method Finally(server: string, listed: bool) returns (sent: bool)
      requires server in flights
      modifies this
      ensures
        var f, rest := old(flights)[server], old(flights) - {server};
        && sent == (f.queued && listed)
        && flights == (if sent then Asked(rest, server, f.settle) else rest)
        && settled == if f.first then old(settled) + {server} else old(settled)
    {
      if flights[server].first {
        settled := settled + {server};
      }
      var f := flights[server];
      flights := flights - {server};
      sent := f.queued && listed;
      if sent {
        sent := FetchSessions(server, f.settle);
      }
    }
  }

  // --------------------------------------------------- the page and the network

  /** A request on the wire: its number in issue order over all servers, and how many
      refreshes of its server had been asked for when it left. */
  datatype Request = Request(server: string, number: nat, covers: nat)

  /** `wire` holds the requests in flight; they finish in any order. The rest is
      history: `asked` counts each server's refreshes and `wanted` is the count of the
      latest that asked to settle; `covered` is the covers of the last request sent;
      `missed` is `asked` when a queued refresh was last dropped because the server was
      not listed; `installed` is the numbers of the requests whose lists were installed. */
  datatype State = State(
    flights: map<string, Flight>, settled: set<string>, listed: set<string>, wire: seq<Request>, issued: nat,
    asked: map<string, nat>, wanted: map<string, nat>, covered: map<string, nat>, missed: map<string, nat>,
    installed: map<string, seq<nat>>)

  datatype Event =
    | Refresh(server: string, settleInitial: bool)
    | Finish(request: nat, ok: bool)
    | SetServers(servers: set<string>)

  const INITIAL := State(map[], {}, {}, [], 0, map[], map[], map[], map[], map[])

  function Nat(m: map<string, nat>, server: string): nat {
    if server in m then m[server] else 0
  }

  function Numbers(m: map<string, seq<nat>>, server: string): seq<nat> {
    if server in m then m[server] else []
  }

  predicate Enabled(s: State, e: Event) {
    e.Finish? ==> e.request < |s.wire| && s.wire[e.request].server in s.flights
  }

  function Send(s: State, server: string): State {
    s.(wire := s.wire + [Request(server, s.issued, Nat(s.asked, server))], issued := s.issued + 1,
       covered := s.covered[server := Nat(s.asked, server)])
  }

  function RefreshNext(s: State, server: string, settleInitial: bool): State {
    var s' := s.(
      asked := s.asked[server := Nat(s.asked, server) + 1],
      wanted := if settleInitial then s.wanted[server := Nat(s.asked, server) + 1] else s.wanted,
      flights := Asked(s.flights, server, settleInitial));
    if server in s.flights then s' else Send(s', server)
  }

  function FinishNext(s: State, i: nat, ok: bool): State
    requires Enabled(s, Finish(i, ok))
  {
    var r := s.wire[i];
    var f, rest := s.flights[r.server], s.flights - {r.server};
    var follow := f.queued && r.server in s.listed;
    var s' := s.(
      flights := if follow then Asked(rest, r.server, f.settle) else rest,
      wire := s.wire[..i] + s.wire[i + 1..],
      installed := if ok then s.installed[r.server := Numbers(s.installed, r.server) + [r.number]] else s.installed,
      missed := if f.queued && !follow then s.missed[r.server := Nat(s.asked, r.server)] else s.missed,
      settled := if f.first then s.settled + {r.server} else s.settled);
    if follow then Send(s', r.server) else s'
  }

  function Next(s: State, e: Event): State
    requires Enabled(s, e)
  {
    match e
    case SetServers(servers) => s.(listed := servers)
    case Refresh(server, settleInitial) => RefreshNext(s, server, settleInitial)
    case Finish(i, ok) => FinishNext(s, i, ok)
  }

  datatype Run = Run(states: seq<State>, events: seq<Event>)

  ghost predicate StepAt(run: Run, i: nat)
    requires i < |run.events| && |run.states| == |run.events| + 1
  {
    Enabled(run.states[i], run.events[i]) && run.states[i + 1] == Next(run.states[i], run.events[i])
  }

  ghost predicate IsRun(run: Run) {
    && |run.states| == |run.events| + 1 && run.states[0] == INITIAL
    && forall i :: 0 <= i < |run.events| ==> StepAt(run, i)
  }

  // ---------------------------------------------------------------- invariant

  predicate Ascending(ns: seq<nat>) {
    forall i, j :: 0 <= i < j < |ns| ==> ns[i] < ns[j]
  }

  predicate Below(ns: seq<nat>, n: nat) {
    forall k :: 0 <= k < |ns| ==> ns[k] < n
  }

  lemma BelowHigher(ns: seq<nat>, m: nat, n: nat)
    requires Below(ns, m) && m <= n
    ensures Below(ns, n)
  {
  }

  lemma AscendingAppend(ns: seq<nat>, n: nat)
    requires Ascending(ns) && Below(ns, n)
    ensures Ascending(ns + [n]) && Below(ns + [n], n + 1)
  {
  }

  /** A request out belongs to its server's flight and outnumbers every installed list. */
  predicate RequestOk(s: State, r: Request) {
    && r.server in s.flights && r.number < s.issued && r.covers == Nat(s.covered, r.server)
    && Below(Numbers(s.installed, r.server), r.number)
  }

  /** Every refresh of the server was covered by the last request sent, or its follow-up
      is queued, or it was dropped with the server unlisted; a settle asked for since the
      last drop is done or carried by the flight. */
  predicate ServerOk(s: State, server: string) {
    && (if server in s.flights
        then s.flights[server].queued || Nat(s.covered, server) == Nat(s.asked, server)
        else Nat(s.covered, server) == Nat(s.asked, server) || Nat(s.missed, server) == Nat(s.asked, server))
    && (server in s.flights && s.flights[server].queued ==> Nat(s.covered, server) < Nat(s.asked, server))
    && (server in s.flights && !s.flights[server].queued ==> !s.flights[server].settle)
    && (Nat(s.wanted, server) > Nat(s.missed, server) && server !in s.settled ==>
          server in s.flights && (s.flights[server].first || s.flights[server].settle))
    && Nat(s.covered, server) <= Nat(s.asked, server) && Nat(s.wanted, server) <= Nat(s.asked, server)
    && Nat(s.missed, server) <= Nat(s.asked, server)
    && Ascending(Numbers(s.installed, server)) && Below(Numbers(s.installed, server), s.issued)
  }

  predicate OnWire(wire: seq<Request>, server: string) {
    exists k :: 0 <= k < |wire| && wire[k].server == server
  }

  /** One request for each server in flight, and none for another. */
  ghost predicate WireOk(wire: seq<Request>, flying: set<string>) {
    && (forall i, j :: 0 <= i < j < |wire| ==> wire[i].server != wire[j].server)
    && (forall i :: 0 <= i < |wire| ==> wire[i].server in flying)
    && (forall server :: server in flying ==> OnWire(wire, server))
  }

  ghost predicate Inv(s: State) {
    && WireOk(s.wire, s.flights.Keys)
    && (forall i :: 0 <= i < |s.wire| ==> RequestOk(s, s.wire[i]))
    && (forall server :: ServerOk(s, server))
  }

  /** Nothing the page and the history say about `server` differs. */
  predicate SameFor(s: State, s': State, server: string) {
    && (server in s'.flights <==> server in s.flights)
    && (server in s.flights ==> s'.flights[server] == s.flights[server])
    && Nat(s'.asked, server) == Nat(s.asked, server) && Nat(s'.covered, server) == Nat(s.covered, server)
    && Nat(s'.missed, server) == Nat(s.missed, server) && Numbers(s'.installed, server) == Numbers(s.installed, server)
    && Nat(s'.wanted, server) == Nat(s.wanted, server) && (server in s'.settled <==> server in s.settled)
    && s.issued <= s'.issued
  }

  lemma SameForOk(s: State, s': State, server: string)
    requires ServerOk(s, server) && SameFor(s, s', server)
    ensures ServerOk(s', server)
  {
    BelowHigher(Numbers(s.installed, server), s.issued, s'.issued);
  }

  lemma RefreshIsElsewhere(s: State, server: string, settleInitial: bool, other: string)
    requires server != other
    ensures SameFor(s, RefreshNext(s, server, settleInitial), other)
  {
  }

  lemma RefreshOwn(s: State, server: string, settleInitial: bool)
    requires ServerOk(s, server)
    ensures ServerOk(RefreshNext(s, server, settleInitial), server)
  {
    BelowHigher(Numbers(s.installed, server), s.issued, s.issued + 1);
  }

  lemma RefreshServer(s: State, server: string, settleInitial: bool, other: string)
    requires ServerOk(s, other)
    ensures ServerOk(RefreshNext(s, server, settleInitial), other)
  {
    if server == other {
      RefreshOwn(s, server, settleInitial);
    } else {
      RefreshIsElsewhere(s, server, settleInitial, other);
      SameForOk(s, RefreshNext(s, server, settleInitial), other);
    }
  }

  lemma RefreshRequest(s: State, server: string, settleInitial: bool, r: Request)
    requires RequestOk(s, r) && (r.server == server ==> server in s.flights)
    ensures RequestOk(RefreshNext(s, server, settleInitial), r)
  {
  }

  lemma WireGrows(wire: seq<Request>, flying: set<string>, r: Request)
    requires WireOk(wire, flying) && r.server !in flying
    ensures WireOk(wire + [r], flying + {r.server})
  {
    var more := wire + [r];
    forall server | server in flying + {r.server}
      ensures OnWire(more, server)
    {
      if server in flying {
        var k :| 0 <= k < |wire| && wire[k].server == server;
        assert more[k].server == server;
      } else {
        assert more[|wire|].server == server;
      }
    }
  }

  lemma WireShrinks(wire: seq<Request>, flying: set<string>, i: nat)
    requires WireOk(wire, flying) && i < |wire|
    ensures WireOk(wire[..i] + wire[i + 1..], flying - {wire[i].server})
  {
    var rest := wire[..i] + wire[i + 1..];
    assert forall k :: 0 <= k < |rest| ==> rest[k] == wire[if k < i then k else k + 1];
    forall server | server in flying && server != wire[i].server
      ensures OnWire(rest, server)
    {
      var k :| 0 <= k < |wire| && wire[k].server == server;
      assert rest[if k < i then k else k - 1] == wire[k];
    }
  }

  lemma RefreshWire(s: State, server: string, settleInitial: bool)
    requires WireOk(s.wire, s.flights.Keys)
    ensures
      var s' := RefreshNext(s, server, settleInitial);
      WireOk(s'.wire, s'.flights.Keys)
  {
    var s' := RefreshNext(s, server, settleInitial);
    if server in s.flights {
      assert s'.flights.Keys == s.flights.Keys;
    } else {
      assert s'.flights.Keys == s.flights.Keys + {server};
      WireGrows(s.wire, s.flights.Keys, Request(server, s.issued, Nat(s'.asked, server)));
    }
  }

  lemma RefreshRequests(s: State, server: string, settleInitial: bool)
    requires Inv(s)
    ensures
      var s' := RefreshNext(s, server, settleInitial);
      forall i :: 0 <= i < |s'.wire| ==> RequestOk(s', s'.wire[i])
  {
    var s' := RefreshNext(s, server, settleInitial);
    forall i | 0 <= i < |s.wire|
      ensures RequestOk(s', s.wire[i])
    {
      assert RequestOk(s, s.wire[i]);
      RefreshRequest(s, server, settleInitial, s.wire[i]);
    }
    assert ServerOk(s, server);
    if server !in s.flights {
      assert s'.wire == s.wire + [Request(server, s.issued, Nat(s'.asked, server))];
      assert RequestOk(s', s'.wire[|s.wire|]);
    }
  }

  lemma RefreshKeeps(s: State, server: string, settleInitial: bool)
    requires Inv(s)
    ensures Inv(RefreshNext(s, server, settleInitial))
  {
    RefreshWire(s, server, settleInitial);
    RefreshRequests(s, server, settleInitial);
    forall other
      ensures ServerOk(RefreshNext(s, server, settleInitial), other)
    {
      assert ServerOk(s, other);
      RefreshServer(s, server, settleInitial, other);
    }
  }

  lemma FinishIsElsewhere(s: State, i: nat, ok: bool, other: string)
    requires Enabled(s, Finish(i, ok)) && s.wire[i].server != other
    ensures SameFor(s, FinishNext(s, i, ok), other)
  {
  }

  lemma FinishOther(s: State, i: nat, ok: bool, other: string)
    requires Enabled(s, Finish(i, ok)) && ServerOk(s, other) && s.wire[i].server != other
    ensures ServerOk(FinishNext(s, i, ok), other)
  {
    FinishIsElsewhere(s, i, ok, other);
    SameForOk(s, FinishNext(s, i, ok), other);
  }

  lemma FinishOwn(s: State, i: nat, ok: bool)
    requires Enabled(s, Finish(i, ok)) && ServerOk(s, s.wire[i].server) && RequestOk(s, s.wire[i])
    ensures ServerOk(FinishNext(s, i, ok), s.wire[i].server)
  {
    var r, s' := s.wire[i], FinishNext(s, i, ok);
    var ns := Numbers(s.installed, r.server);
    AscendingAppend(ns, r.number);
    BelowHigher(ns, s.issued, s'.issued);
    BelowHigher(ns + [r.number], r.number + 1, s'.issued);
    assert Numbers(s'.installed, r.server) == if ok then ns + [r.number] else ns;
  }

  lemma FinishRequest(s: State, i: nat, ok: bool, r: Request)
    requires Enabled(s, Finish(i, ok)) && RequestOk(s, r) && r.server != s.wire[i].server
    ensures RequestOk(FinishNext(s, i, ok), r)
  {
  }

  lemma FinishWire(s: State, i: nat, ok: bool)
    requires Enabled(s, Finish(i, ok)) && WireOk(s.wire, s.flights.Keys)
    ensures
      var s' := FinishNext(s, i, ok);
      WireOk(s'.wire, s'.flights.Keys)
  {
    var s', server := FinishNext(s, i, ok), s.wire[i].server;
    var rest := s.wire[..i] + s.wire[i + 1..];
    WireShrinks(s.wire, s.flights.Keys, i);
    if s'.wire == rest {
      assert s'.flights.Keys == s.flights.Keys - {server};
    } else {
      WireGrows(rest, s.flights.Keys - {server}, Request(server, s.issued, Nat(s.asked, server)));
      assert s'.flights.Keys == s.flights.Keys - {server} + {server};
    }
  }

  lemma FollowUpRequest(s: State, i: nat, ok: bool)
    requires Inv(s) && Enabled(s, Finish(i, ok))
    requires s.flights[s.wire[i].server].queued && s.wire[i].server in s.listed
    ensures
      var s', server := FinishNext(s, i, ok), s.wire[i].server;
      && s'.wire == s.wire[..i] + s.wire[i + 1..] + [Request(server, s.issued, Nat(s.asked, server))]
      && RequestOk(s', s'.wire[|s.wire| - 1])
  {
    assert RequestOk(s, s.wire[i]) && ServerOk(s, s.wire[i].server);
  }

  lemma FinishRequests(s: State, i: nat, ok: bool)
    requires Inv(s) && Enabled(s, Finish(i, ok))
    ensures
      var s' := FinishNext(s, i, ok);
      forall k :: 0 <= k < |s'.wire| ==> RequestOk(s', s'.wire[k])
  {
    var s', server := FinishNext(s, i, ok), s.wire[i].server;
    var rest := s.wire[..i] + s.wire[i + 1..];
    forall k | 0 <= k < |rest|
      ensures RequestOk(s', rest[k])
    {
      var m := if k < i then k else k + 1;
      assert rest[k] == s.wire[m] && RequestOk(s, s.wire[m]);
      FinishRequest(s, i, ok, s.wire[m]);
    }
    if s.flights[server].queued && server in s.listed {
      FollowUpRequest(s, i, ok);
    }
  }

  lemma FinishKeeps(s: State, i: nat, ok: bool)
    requires Inv(s) && Enabled(s, Finish(i, ok))
    ensures Inv(FinishNext(s, i, ok))
  {
    var server := s.wire[i].server;
    assert RequestOk(s, s.wire[i]);
    forall other
      ensures ServerOk(FinishNext(s, i, ok), other)
    {
      assert ServerOk(s, other);
      if other == server { FinishOwn(s, i, ok); } else { FinishOther(s, i, ok, other); }
    }
    FinishRequests(s, i, ok);
    FinishWire(s, i, ok);
  }

  lemma SetServersKeeps(s: State, servers: set<string>)
    requires Inv(s)
    ensures Inv(s.(listed := servers))
  {
    forall i | 0 <= i < |s.wire|
      ensures RequestOk(s.(listed := servers), s.wire[i])
    {
      assert RequestOk(s, s.wire[i]);
    }
    forall server
      ensures ServerOk(s.(listed := servers), server)
    {
      assert ServerOk(s, server);
    }
  }

  lemma {:induction false} RunInv(run: Run, i: nat)
    requires IsRun(run) && i < |run.states|
    ensures Inv(run.states[i])
  {
    if i == 0 {
    } else {
      RunInv(run, i - 1);
      assert StepAt(run, i - 1);
      var s, e := run.states[i - 1], run.events[i - 1];
      match e {
        case SetServers(servers) => SetServersKeeps(s, servers);
        case Refresh(server, settleInitial) => RefreshKeeps(s, server, settleInitial);
        case Finish(r, ok) => FinishKeeps(s, r, ok);
      }
    }
  }

  // ------------------------------------------------------------ main theorems

  /** At most one request per server is out, and exactly one while the page believes
      so; an answer therefore always finds its own record. */
  lemma OneRequestPerServer(run: Run, i: nat, server: string)
    requires IsRun(run) && i < |run.states|
    ensures
      var s := run.states[i];
      && (server in s.flights <==> exists k :: 0 <= k < |s.wire| && s.wire[k].server == server)
      && (forall j, k :: 0 <= j < |s.wire| && 0 <= k < |s.wire| && s.wire[j].server == s.wire[k].server ==> j == k)
  {
    RunInv(run, i);
    var s := run.states[i];
    if exists k :: 0 <= k < |s.wire| && s.wire[k].server == server {
      var k :| 0 <= k < |s.wire| && s.wire[k].server == server;
      assert RequestOk(s, s.wire[k]);
    }
  }

  /** No refresh is lost: the last request sent for a server left after its latest
      refresh, or that refresh has a follow-up queued, or it was dropped because the
      server had been taken off the list. A settle asked for since the last such drop, the
      server listed again or not, is done or carried by the request that is out. */
  lemma EveryRefreshIsServed(run: Run, i: nat, server: string)
    requires IsRun(run) && i < |run.states|
    ensures
      var s := run.states[i];
      || Nat(s.covered, server) == Nat(s.asked, server)
      || (server in s.flights && s.flights[server].queued)
      || (server !in s.flights && Nat(s.missed, server) == Nat(s.asked, server))
    ensures
      var s := run.states[i];
      Nat(s.wanted, server) > Nat(s.missed, server) ==>
        server in s.settled || (server in s.flights && (s.flights[server].first || s.flights[server].settle))
  {
    RunInv(run, i);
    assert ServerOk(run.states[i], server);
  }

  // --------------------------------------------------- told from the calls alone

  /** A request for the server leaves in the step from s to s'. */
  predicate Leaves(s: State, s': State, server: string) {
    s'.wire != [] && s'.wire[|s'.wire| - 1].server == server && s'.wire[|s'.wire| - 1].number == s.issued
  }

  /** The step ends a request for the server, while one more has been asked for. */
  predicate EndsQueued(s: State, e: Event, server: string)
    requires Enabled(s, e)
  {
    e.Finish? && s.wire[e.request].server == server && s.flights[server].queued
  }

  predicate Numbered(wire: seq<Request>, n: nat) {
    forall k :: 0 <= k < |wire| ==> wire[k].number < n
  }

  lemma RefreshLeavesIff(s: State, of: string, settle: bool, server: string)
    requires Numbered(s.wire, s.issued)
    ensures Leaves(s, RefreshNext(s, of, settle), server) <==> of == server && server !in s.flights
  {
  }

  lemma FinishLeavesIff(s: State, i: nat, ok: bool, server: string)
    requires Numbered(s.wire, s.issued) && Enabled(s, Finish(i, ok))
    ensures Leaves(s, FinishNext(s, i, ok), server) <==> EndsQueued(s, Finish(i, ok), server) && server in s.listed
  {
    var rest := s.wire[..i] + s.wire[i + 1..];
    assert Numbered(rest, s.issued);
  }

  /** Requests leave only for a reason: a refresh while none is out, or the end of one while
      another has been asked for and the server is listed. */
  lemma SentIff(run: Run, m: nat, server: string)
    requires IsRun(run) && m < |run.events|
    ensures Enabled(run.states[m], run.events[m])
    ensures
      var s, e := run.states[m], run.events[m];
      Leaves(s, run.states[m + 1], server) <==>
        || (e.Refresh? && e.server == server && server !in s.flights)
        || (EndsQueued(s, e, server) && server in s.listed)
  {
    assert StepAt(run, m);
    RunInv(run, m);
    var s := run.states[m];
    assert forall k :: 0 <= k < |s.wire| ==> RequestOk(s, s.wire[k]);
    match run.events[m]
    case Refresh(of, settle) => RefreshLeavesIff(s, of, settle, server);
    case Finish(i, ok) => FinishLeavesIff(s, i, ok, server);
    case SetServers(_) =>
  }

  lemma RefreshQueues(s: State, of: string, settle: bool, server: string)
    requires Enabled(s, Refresh(of, settle)) && of != server
    requires server in RefreshNext(s, of, settle).flights && RefreshNext(s, of, settle).flights[server].queued
    ensures server in s.flights && s.flights[server].queued
  {
  }

  lemma FinishQueues(s: State, i: nat, ok: bool, server: string)
    requires Enabled(s, Finish(i, ok))
    requires server in FinishNext(s, i, ok).flights && FinishNext(s, i, ok).flights[server].queued
    ensures server in s.flights && s.flights[server].queued && s.wire[i].server != server
  {
    var r := s.wire[i];
    assert r.server !in s.flights - {r.server};
  }

  lemma QueueBegins(s: State, e: Event, server: string)
    requires Enabled(s, e) && server in Next(s, e).flights && Next(s, e).flights[server].queued
    requires !(e.Refresh? && e.server == server)
    ensures server in s.flights && s.flights[server].queued && !(e.Finish? && s.wire[e.request].server == server)
  {
    match e
    case Refresh(of, settle) => RefreshQueues(s, of, settle, server);
    case Finish(i, ok) => FinishQueues(s, i, ok, server);
    case SetServers(_) =>
  }

  /** A follow-up is only ever asked for by a refresh that came while the request was out. */
  lemma {:induction false} QueuedWasAsked(run: Run, i: nat, server: string) returns (k: nat)
    requires IsRun(run) && i < |run.states| && server in run.states[i].flights
    requires run.states[i].flights[server].queued
    ensures k < i && run.events[k].Refresh? && run.events[k].server == server
    ensures server in run.states[k].flights
  {
    assert i > 0 && StepAt(run, i - 1);
    var s, e := run.states[i - 1], run.events[i - 1];
    if e.Refresh? && e.server == server && server in s.flights {
      k := i - 1;
    } else {
      QueueBegins(s, e, server);
      k := QueuedWasAsked(run, i - 1, server);
    }
  }

  predicate Queued(s: State, server: string) {
    server in s.flights && s.flights[server].queued
  }

  predicate Carried(s: State, server: string) {
    server in s.flights && (s.flights[server].first || s.flights[server].settle)
  }

  lemma RefreshCarries(s: State, of: string, settle: bool, server: string)
    requires Enabled(s, Refresh(of, settle)) && (server in s.settled || Carried(s, server))
    ensures server in RefreshNext(s, of, settle).settled || Carried(RefreshNext(s, of, settle), server)
  {
  }

  lemma FinishCarries(s: State, i: nat, ok: bool, server: string)
    requires Enabled(s, Finish(i, ok)) && ServerOk(s, server) && (server in s.settled || Carried(s, server))
    requires EndsQueued(s, Finish(i, ok), server) ==> server in s.listed
    ensures server in FinishNext(s, i, ok).settled || Carried(FinishNext(s, i, ok), server)
  {
    if s.wire[i].server == server {
      assert s.flights[server].first || server in s.settled || s.flights[server].settle;
    }
  }

  lemma CarryStep(s: State, e: Event, server: string)
    requires Enabled(s, e) && ServerOk(s, server) && (server in s.settled || Carried(s, server))
    requires EndsQueued(s, e, server) ==> server in s.listed
    ensures server in Next(s, e).settled || Carried(Next(s, e), server)
  {
    match e
    case Refresh(of, settle) => RefreshCarries(s, of, settle, server);
    case Finish(i, ok) => FinishCarries(s, i, ok, server);
    case SetServers(_) =>
  }

  lemma QueueStep(s: State, e: Event, server: string)
    requires Enabled(s, e) && Queued(s, server) && !EndsQueued(s, e, server)
    ensures Queued(Next(s, e), server)
  {
  }

  /** No drop of the server's follow-up at a step in between. */
  ghost predicate Listed(run: Run, k: nat, i: nat, server: string)
    requires IsRun(run) && i < |run.states|
  {
    forall m :: k < m < i && StepAt(run, m) && EndsQueued(run.states[m], run.events[m], server) ==>
      server in run.states[m].listed
  }

  /** A settle asked for at step k, unless its server was off the list when the follow-up
      was due: it is done, or the request that is out or its follow-up will do it. */
  lemma {:induction false} SettleIsServed(run: Run, k: nat, i: nat, server: string)
    requires IsRun(run) && k < i < |run.states| && run.events[k] == Refresh(server, true)
    requires Listed(run, k, i, server)
    ensures server in run.states[i].settled || Carried(run.states[i], server)
    decreases i
  {
    assert StepAt(run, i - 1);
    if k < i - 1 {
      SettleIsServed(run, k, i - 1, server);
      RunInv(run, i - 1);
      CarryStep(run.states[i - 1], run.events[i - 1], server);
    }
  }

  ghost predicate LeftSince(run: Run, k: nat, i: nat, server: string)
    requires IsRun(run) && i < |run.states|
  {
    exists m :: k <= m < i && Leaves(run.states[m], run.states[m + 1], server)
  }

  /** A refresh made at step k, under the same condition: a request has left since, or one
      more is sure to leave when the one that is out ends. */
  lemma {:induction false} RefreshIsServed(run: Run, k: nat, i: nat, server: string, settle: bool)
    requires IsRun(run) && k < i < |run.states| && run.events[k] == Refresh(server, settle)
    requires Listed(run, k, i, server)
    ensures LeftSince(run, k, i, server) || Queued(run.states[i], server)
    decreases i
  {
    assert StepAt(run, i - 1);
    SentIff(run, i - 1, server);
    if k == i - 1 {
      assert server in run.states[k].flights || Leaves(run.states[k], run.states[k + 1], server);
    } else {
      RefreshIsServed(run, k, i - 1, server, settle);
      if !LeftSince(run, k, i - 1, server) && !EndsQueued(run.states[i - 1], run.events[i - 1], server) {
        QueueStep(run.states[i - 1], run.events[i - 1], server);
      }
    }
  }

  /** Lists are installed in the order their requests were sent. */
  lemma ListsInstallInOrder(run: Run, i: nat, server: string)
    requires IsRun(run) && i < |run.states|
    ensures Ascending(Numbers(run.states[i].installed, server))
  {
    RunInv(run, i);
    assert ServerOk(run.states[i], server);
  }

  /** The state after a burst of refreshes of one server. */
  function Burst(s: State, server: string, flags: seq<bool>): State
    decreases |flags|
  {
    if flags == [] then s else Burst(RefreshNext(s, server, flags[0]), server, flags[1..])
  }

  lemma {:induction false} BurstFolds(s: State, server: string, flags: seq<bool>)
    requires server in s.flights
    ensures
      var s', f := Burst(s, server, flags), s.flights[server];
      && s'.issued == s.issued && s'.wire == s.wire && s'.listed == s.listed
      && server in s'.flights
      && s'.flights[server] == Flight(f.queued || flags != [], f.settle || true in flags, f.first)
      && Nat(s'.asked, server) == Nat(s.asked, server) + |flags|
    decreases |flags|
  {
    if flags != [] {
      BurstFolds(RefreshNext(s, server, flags[0]), server, flags[1..]);
    }
  }

  /** However many refreshes come while a request is out, they cost exactly one more,
      sent when it finishes, which covers them all and settles the initial load if any
      of them asked to. */
  lemma BurstCostsOneRequest(run: Run, i: nat, r: nat, flags: seq<bool>, ok: bool)
    requires IsRun(run) && i < |run.states| && r < |run.states[i].wire| && flags != []
    requires run.states[i].wire[r].server in run.states[i].listed
    ensures run.states[i].wire[r].server in run.states[i].flights
    ensures
      var s, server := run.states[i], run.states[i].wire[r].server;
      var folded := Burst(s, server, flags);
      && Enabled(folded, Finish(r, ok))
      && var done := Next(folded, Finish(r, ok));
      && folded.issued == s.issued && done.issued == s.issued + 1
      && server in done.flights
      && done.flights[server] == Flight(false, false, s.flights[server].settle || true in flags)
      && Nat(done.covered, server) == Nat(s.asked, server) + |flags|
  {
    RunInv(run, i);
    assert RequestOk(run.states[i], run.states[i].wire[r]);
    BurstFolds(run.states[i], run.states[i].wire[r].server, flags);
  }

  // ---------------------------------------------------------- nothing settles unasked

  lemma RefreshSettles(s: State, of: string, settle: bool, server: string)
    requires Enabled(s, Refresh(of, settle)) && !(of == server && settle)
    ensures Carried(RefreshNext(s, of, settle), server) ==> Carried(s, server)
    ensures RefreshNext(s, of, settle).settled == s.settled
  {
  }

  lemma FinishSettles(s: State, i: nat, ok: bool, server: string)
    requires Enabled(s, Finish(i, ok))
    ensures Carried(FinishNext(s, i, ok), server) ==> Carried(s, server)
    ensures server in FinishNext(s, i, ok).settled && server !in s.settled ==>
      s.wire[i].server == server && Carried(s, server)
  {
    assert s.wire[i].server !in s.flights - {s.wire[i].server};
  }

  /** A request is to settle its server, itself or through its follow-up, only for a
      refresh that asked for it. */
  lemma {:induction false} CarriedWasAsked(run: Run, i: nat, server: string) returns (k: nat)
    requires IsRun(run) && i < |run.states| && Carried(run.states[i], server)
    ensures k < i && run.events[k] == Refresh(server, true)
  {
    assert i > 0 && StepAt(run, i - 1);
    var s, e := run.states[i - 1], run.events[i - 1];
    if e == Refresh(server, true) {
      return i - 1;
    }
    match e {
      case Refresh(of, settle) => RefreshSettles(s, of, settle, server);
      case Finish(m, ok) => FinishSettles(s, m, ok, server);
      case SetServers(_) =>
    }
    k := CarriedWasAsked(run, i - 1, server);
  }

  /** A server counts as settled only once a request of it has ended after a refresh that
      asked for it. */
  lemma {:induction false} SettledWasAsked(run: Run, i: nat, server: string) returns (k: nat, m: nat)
    requires IsRun(run) && i < |run.states| && server in run.states[i].settled
    ensures k < m < i && run.events[k] == Refresh(server, true) && run.events[m].Finish?
    ensures run.events[m].request < |run.states[m].wire| && run.states[m].wire[run.events[m].request].server == server
  {
    assert i > 0 && StepAt(run, i - 1);
    var s, e := run.states[i - 1], run.events[i - 1];
    if server in s.settled {
      k, m := SettledWasAsked(run, i - 1, server);
    } else {
      m := i - 1;
      match e {
        case Refresh(of, settle) =>
        case Finish(r, ok) => FinishSettles(s, r, ok, server);
        case SetServers(_) =>
      }
      k := CarriedWasAsked(run, i - 1, server);
    }
  }
}

/** How the browser keeps its layout and the daemon's in step: optimistic edits, one
    write in flight, and refreshes that must not undo an edit. */
module LayoutSync {
  import opened Options
  import opened GridModel

  // ------------------------------------------------------------- the browser

  datatype Browser = Browser(layout: Layout, pending: Option<Layout>, writing: bool, serial: nat)

  /** What a refresh remembers from the moment it was issued. */
  datatype Ticket = Ticket(serial: nat, writing: bool)

  predicate Busy(b: Browser) {
    b.writing || b.pending.Some?
  }

  /** The PUT that flush sends, if it may send one now. */
  function Sends(b: Browser): Option<Layout> {
    if b.writing then None else b.pending
  }

  function Flushed(b: Browser): Browser {
    if Sends(b).Some? then b.(pending := None, writing := true) else b
  }

  function Edited(b: Browser, next: Layout): Browser {
    b.(layout := next, pending := Some(next), serial := b.serial + 1)
  }

  function TicketNow(b: Browser): Ticket {
    Ticket(b.serial, Busy(b))
  }

  /** The rule for discarding an answer. */
  predicate Accepts(b: Browser, t: Ticket) {
    !t.writing && !Busy(b) && t.serial == b.serial
  }

  /** An answer that is no layout document is None. */
  function Answered(b: Browser, t: Ticket, answer: Option<Layout>): Browser {
    if Accepts(b, t) && answer.Some? then b.(layout := Renormalize(answer.value)) else b
  }

  /** The page's refs and the callbacks that change them. A returned layout is the body
      of a PUT that leaves now. */
  class LayoutRefs {
    var layoutRef: Layout
    var pendingWrite: Option<Layout>
    var writeInFlight: bool
    var layoutEditSerial: nat

    constructor ()
      ensures Value() == Browser(EmptyLayout(), None, false, 0)
    {
      layoutRef, pendingWrite, writeInFlight, layoutEditSerial := EmptyLayout(), None, false, 0;
    }

    ghost function Value(): Browser
      reads this
    {
      Browser(layoutRef, pendingWrite, writeInFlight, layoutEditSerial)
    }

    method FlushLayout() returns (put: Option<Layout>)
      modifies this
      ensures put == Sends(old(Value())) && Value() == Flushed(old(Value()))
      ensures if old(writeInFlight) || old(pendingWrite).None?
              then put.None? && writeInFlight == old(writeInFlight) && pendingWrite == old(pendingWrite)
              else put == old(pendingWrite) && writeInFlight && pendingWrite.None?
    {
      if writeInFlight || pendingWrite == None {
        return None;
      }
      put := pendingWrite;
      pendingWrite := None;
      writeInFlight := true;
    }

    /** The PUT in flight was answered or failed. */
    method PutSettled() returns (put: Option<Layout>)
      modifies this
      ensures
        var b := old(Value()).(writing := false);
        put == Sends(b) && Value() == Flushed(b)
    {
      writeInFlight := false;
      put := FlushLayout();
    }

    method Persist(update: Layout -> Layout) returns (put: Option<Layout>)
      modifies this
      ensures
        var b := Edited(old(Value()), update(old(layoutRef)));
        put == Sends(b) && Value() == Flushed(b)
      ensures layoutRef == update(old(layoutRef)) && layoutEditSerial == old(layoutEditSerial) + 1
      ensures if old(writeInFlight) then put.None? && pendingWrite == Some(layoutRef)
              else put == Some(layoutRef) && pendingWrite.None? && writeInFlight
    {
      var next := update(layoutRef);
      layoutEditSerial := layoutEditSerial + 1;
      layoutRef := next;
      pendingWrite := Some(next);
      put := FlushLayout();
    }

    method RefreshLayout() returns (t: Ticket)
      ensures t == TicketNow(Value())
    {
      t := Ticket(layoutEditSerial, writeInFlight || pendingWrite.Some?);
    }

    method LayoutAnswered(t: Ticket, answer: Option<Layout>)
      modifies this
      ensures Value() == Answered(old(Value()), t, answer)
      ensures layoutRef
        == if !t.writing && !writeInFlight && pendingWrite.None? && t.serial == layoutEditSerial && answer.Some?
           then Renormalize(answer.value) else old(layoutRef)
      ensures pendingWrite == old(pendingWrite) && writeInFlight == old(writeInFlight)
      ensures layoutEditSerial == old(layoutEditSerial)
    {
      if t.writing || writeInFlight || pendingWrite.Some? || t.serial != layoutEditSerial {
        return;
      }
      if answer.Some? {
        layoutRef := Renormalize(answer.value);
      }
    }
  }

  // ---------------------------------------- browser, network and daemon together

  /** The PUT out now: its document, the newest edit it carries, and whether the daemon
      has stored it yet. */
  datatype Put = Put(doc: Layout, carries: nat, stored: bool)

  /** A refresh out now. `settled` is how many edits had settled when the daemon read
      its answer; it and `synced`, `base` below are history variables. */
  datatype Get = Get(ticket: Ticket, open: bool, read: bool, answer: Option<Layout>, settled: nat)

  /** `strays` are PUTs the browser gave up on that may still reach the daemon;
      `settled` counts the edits whose own PUT, or one carrying a newer edit, has
      settled; `base` is the layout without the preview of a drag under way, and
      `synced` says that a first answer or edit has replaced the blank page. */
  datatype System = System(
    browser: Browser, daemon: Option<Layout>, put: Option<Put>, strays: seq<Layout>, gets: seq<Get>,
    settled: nat, base: Layout, synced: bool)

  datatype Event =
    | Edit(next: Layout)
    | Preview(next: Layout)
    | PutStored
    | PutSettles
    | StrayStored(stray: nat)
    | ForeignEdit(doc: Layout)
    | Refresh
    | GetRead(get: nat)
    | GetArrives(get: nat)
    | GetFails(get: nat)

  ghost predicate Initial(s: System) {
    s.browser == Browser(EmptyLayout(), None, false, 0)
    && s.put.None? && s.strays == [] && s.gets == [] && s.settled == 0 && s.base == EmptyLayout() && !s.synced
  }

  predicate Enabled(s: System, e: Event) {
    match e
    case PutStored => s.put.Some? && !s.put.value.stored
    case PutSettles => s.put.Some?
    case StrayStored(i) => i < |s.strays|
    case GetRead(g) => g < |s.gets| && s.gets[g].open && !s.gets[g].read
    case GetArrives(g) => g < |s.gets| && s.gets[g].open && s.gets[g].read
    case GetFails(g) => g < |s.gets| && s.gets[g].open
    case _ => true
  }

  /** Let the browser flush; a PUT that leaves carries every edit so far. */
  function Flush(s: System, b: Browser): System {
    s.(browser := Flushed(b),
       put := if Sends(b).Some? then Some(Put(Sends(b).value, b.serial, false)) else s.put)
  }

  function Next(s: System, e: Event): System
    requires Enabled(s, e)
  {
    match e
    case Edit(next) => Flush(s, Edited(s.browser, next)).(base := next, synced := true)
    case Preview(next) => s.(browser := s.browser.(layout := next))
    case PutStored => s.(daemon := Some(s.put.value.doc), put := Some(s.put.value.(stored := true)))
    case PutSettles =>
      var p := s.put.value;
      Flush(s.(put := None, settled := p.carries, strays := if p.stored then s.strays else s.strays + [p.doc]),
            s.browser.(writing := false))
    case StrayStored(i) => s.(daemon := Some(s.strays[i]), strays := s.strays[..i] + s.strays[i + 1..])
    case ForeignEdit(doc) => s.(daemon := Some(doc))
    case Refresh => s.(gets := s.gets + [Get(TicketNow(s.browser), true, false, None, 0)])
    case GetRead(g) => s.(gets := s.gets[g := s.gets[g].(read := true, answer := s.daemon, settled := s.settled)])
    case GetArrives(g) =>
      var get := s.gets[g];
      var b := Answered(s.browser, get.ticket, get.answer);
      var adopts := Accepts(s.browser, get.ticket) && get.answer.Some?;
      s.(browser := b, gets := s.gets[g := get.(open := false)],
         base := if adopts then b.layout else s.base, synced := s.synced || adopts)
    case GetFails(g) => s.(gets := s.gets[g := s.gets[g].(open := false)])
  }

  datatype Run = Run(states: seq<System>, events: seq<Event>)

  ghost predicate StepAt(run: Run, i: nat)
    requires i < |run.events| && |run.states| == |run.events| + 1
  {
    Enabled(run.states[i], run.events[i]) && run.states[i + 1] == Next(run.states[i], run.events[i])
  }

  ghost predicate IsRun(run: Run) {
    && |run.states| == |run.events| + 1 && Initial(run.states[0])
    && forall i :: 0 <= i < |run.events| ==> StepAt(run, i)
  }

  // --------------------------------------------------------------- any run

  /** One PUT at most, out exactly while the browser thinks so; it carries what was
      newest when it left, and nothing is held back when the browser is idle. */
  ghost predicate WritesInOrder(s: System) {
    && (s.browser.writing <==> s.put.Some?)
    && (s.browser.pending.Some? ==> s.put.Some? && s.put.value.carries < s.browser.serial)
    && (s.put.Some? ==> s.settled < s.put.value.carries <= s.browser.serial)
    && s.settled <= s.browser.serial
    && (!s.browser.writing ==> s.settled == s.browser.serial)
    && (s.browser.writing && s.browser.pending.None? ==> s.put.value.carries == s.browser.serial)
  }

  /** A refresh issued while nothing was being written knows that every edit up to its
      serial had settled; until the next edit the browser stays idle. */
  predicate Knows(s: System, g: Get) {
    g.open && !g.ticket.writing ==>
      && g.ticket.serial <= s.settled
      && (g.read ==> g.ticket.serial <= g.settled <= s.settled)
      && (g.ticket.serial == s.browser.serial ==> !Busy(s.browser))
  }

  ghost predicate Inv(s: System) {
    WritesInOrder(s) && forall g :: 0 <= g < |s.gets| ==> Knows(s, s.gets[g])
  }

  lemma InitialInv(s: System)
    requires Initial(s)
    ensures Inv(s)
  {
  }

  lemma NextInv(s: System, e: Event)
    requires Inv(s) && Enabled(s, e)
    ensures Inv(Next(s, e))
  {
  }

  lemma {:induction false} RunInv(run: Run, i: nat)
    requires IsRun(run) && i < |run.states|
    ensures Inv(run.states[i])
  {
    if i == 0 {
      InitialInv(run.states[0]);
    } else {
      RunInv(run, i - 1);
      assert StepAt(run, i - 1);
      NextInv(run.states[i - 1], run.events[i - 1]);
    }
  }

  predicate Adopts(s: System, e: Event)
    requires Enabled(s, e)
  {
    e.GetArrives? && Accepts(s.browser, s.gets[e.get].ticket) && s.gets[e.get].answer.Some?
  }

  ghost predicate AdoptsAt(run: Run, i: nat)
    requires i < |run.events| && |run.states| == |run.events| + 1
  {
    StepAt(run, i) && Adopts(run.states[i], run.events[i])
  }

  lemma AdoptsSettled(s: System, e: Event)
    requires Inv(s) && Enabled(s, e) && Adopts(s, e)
    ensures s.gets[e.get].settled == s.browser.serial == s.settled && s.put.None?
  {
    assert Knows(s, s.gets[e.get]);
  }

  /** Whatever other browsers write, whatever fails and in whatever order answers come:
      an answer is adopted only if the daemon read it after every local edit made so
      far had settled. */
  lemma AdoptedAnswersAreNewerThanEdits(run: Run, i: nat)
    requires IsRun(run) && i < |run.events| && AdoptsAt(run, i)
    ensures run.states[i].gets[run.events[i].get].settled == run.states[i].browser.serial
    ensures run.states[i].put.None? && run.states[i].settled == run.states[i].browser.serial
  {
    RunInv(run, i);
    AdoptsSettled(run.states[i], run.events[i]);
  }

  /** The look at the write state when the answer comes never decides: an idle browser
      at issue with no edit since is idle still. */
  lemma LateWriteCheckIsRedundant(run: Run, i: nat, g: nat)
    requires IsRun(run) && i < |run.states| && g < |run.states[i].gets| && run.states[i].gets[g].open
    ensures
      var b, t := run.states[i].browser, run.states[i].gets[g].ticket;
      Accepts(b, t) <==> !t.writing && t.serial == b.serial
  {
    RunInv(run, i);
    assert Knows(run.states[i], run.states[i].gets[g]);
  }

  /** No edit is made at a step from m to i. */
  predicate NoEdits(run: Run, m: nat, i: nat)
    requires i <= |run.events|
  {
    forall k :: m <= k < i ==> !run.events[k].Edit?
  }

  lemma {:induction false} SerialCounts(run: Run, m: nat, i: nat)
    requires IsRun(run) && m <= i < |run.states|
    ensures run.states[m].browser.serial <= run.states[i].browser.serial
    ensures run.states[m].browser.serial == run.states[i].browser.serial <==> NoEdits(run, m, i)
    decreases i
  {
    if m < i {
      SerialCounts(run, m, i - 1);
      assert StepAt(run, i - 1);
      assert NoEdits(run, m, i) <==> NoEdits(run, m, i - 1) && !run.events[i - 1].Edit?;
    }
  }

  lemma {:induction false} TicketIsKept(run: Run, m: nat, i: nat)
    requires IsRun(run) && m < i < |run.states| && run.events[m].Refresh?
    ensures |run.states[m].gets| < |run.states[i].gets|
    ensures run.states[i].gets[|run.states[m].gets|].ticket == TicketNow(run.states[m].browser)
    decreases i
  {
    assert StepAt(run, i - 1);
    if m < i - 1 {
      TicketIsKept(run, m, i - 1);
    }
  }

  /** The answer to the refresh of step m, when it comes at step i, is adopted exactly when
      it is a layout, no write was out when it was asked for and no edit has been made
      since. */
  lemma AnswerIsAdoptedIff(run: Run, m: nat, i: nat)
    requires IsRun(run) && m < i < |run.events| && run.events[m].Refresh?
    requires run.events[i] == GetArrives(|run.states[m].gets|)
    ensures |run.states[m].gets| < |run.states[i].gets|
    ensures AdoptsAt(run, i)
       <==> && run.states[i].gets[|run.states[m].gets|].answer.Some?
            && run.states[m].put.None? && NoEdits(run, m, i)
  {
    assert StepAt(run, i);
    TicketIsKept(run, m, i);
    LateWriteCheckIsRedundant(run, i, |run.states[m].gets|);
    SerialCounts(run, m, i);
    RunInv(run, m);
  }

  /** Edits made during a write coalesce: once it and at most one more have settled, with
      no edit in between, the newest edit has settled and nothing is left to send. */
  lemma TwoWritesDrain(run: Run, i: nat)
    requires IsRun(run) && i < |run.states| && Enabled(run.states[i], PutSettles)
    ensures
      var s := Next(run.states[i], PutSettles);
      && (run.states[i].browser.pending.None? <==> !Busy(s.browser))
      && (Busy(s.browser) ==> Enabled(s, PutSettles) && !Busy(Next(s, PutSettles).browser)
                              && s.put.value.doc == run.states[i].browser.pending.value
                              && Next(s, PutSettles).settled == s.browser.serial)
      && (!Busy(s.browser) ==> s.settled == s.browser.serial)
  {
    RunInv(run, i);
  }

  // -------------------------------------------------------- what is shown and sent

  /** The layout that step i puts on screen, if it does. */
  ghost function Displays(run: Run, i: nat): Option<Layout>
    requires i < |run.events| && |run.states| == |run.events| + 1
  {
    match run.events[i]
    case Edit(next) => Some(next)
    case Preview(next) => Some(next)
    case GetArrives(g) =>
      if AdoptsAt(run, i) then Some(Renormalize(run.states[i].gets[g].answer.value)) else None
    case _ => None
  }

  /** The screen always shows the latest of the edits, previews and adopted answers, and
      the blank page before any. */
  lemma {:induction false} ScreenShowsLatest(run: Run, k: nat, i: nat)
    requires IsRun(run) && k < i < |run.states| && Displays(run, k).Some?
    requires forall m :: k < m < i ==> Displays(run, m).None?
    ensures run.states[i].browser.layout == Displays(run, k).value
  {
    assert StepAt(run, i - 1);
    if k < i - 1 {
      assert Displays(run, i - 1).None?;
      ScreenShowsLatest(run, k, i - 1);
    }
  }

  lemma {:induction false} BlankAtFirst(run: Run, i: nat)
    requires IsRun(run) && i < |run.states| && forall m :: 0 <= m < i ==> Displays(run, m).None?
    ensures run.states[i].browser.layout == EmptyLayout()
  {
    if i > 0 {
      assert StepAt(run, i - 1);
      assert Displays(run, i - 1).None?;
      BlankAtFirst(run, i - 1);
    }
  }

  /** A drag's preview is on screen: step k showed it and nothing else came since. */
  ghost predicate PreviewShown(run: Run, i: nat)
    requires i < |run.states| && |run.states| == |run.events| + 1
  {
    exists k :: 0 <= k < i && run.events[k].Preview? && forall m :: k < m < i ==> Displays(run, m).None?
  }

  lemma PreviewStays(run: Run, i: nat)
    requires IsRun(run) && 0 < i < |run.states| && Displays(run, i - 1).None? && PreviewShown(run, i - 1)
    ensures PreviewShown(run, i)
  {
    var k :| 0 <= k < i - 1 && run.events[k].Preview? && forall m :: k < m < i - 1 ==> Displays(run, m).None?;
    assert forall m :: k < m < i ==> Displays(run, m).None?;
  }

  lemma PreviewBegins(run: Run, i: nat)
    requires IsRun(run) && 0 < i < |run.states| && run.events[i - 1].Preview?
    ensures PreviewShown(run, i)
  {
    var k := i - 1;
    assert run.events[k].Preview?;
  }

  /** `base` is what the screen shows whenever that is no preview. */
  lemma {:induction false} BaseIsShown(run: Run, i: nat)
    requires IsRun(run) && i < |run.states| && !PreviewShown(run, i)
    ensures run.states[i].base == run.states[i].browser.layout
  {
    if i > 0 {
      assert StepAt(run, i - 1);
      if run.events[i - 1].Preview? { PreviewBegins(run, i); }
      if Displays(run, i - 1).None? {
        if PreviewShown(run, i - 1) { PreviewStays(run, i); }
        BaseIsShown(run, i - 1);
      }
    }
  }

  /** A PUT once sent is out alone and as it is until it settles. */
  lemma WriteStaysOut(run: Run, i: nat)
    requires IsRun(run) && i < |run.events| && run.states[i].put.Some? && !run.events[i].PutSettles?
    ensures
      var p, p' := run.states[i].put.value, run.states[i + 1].put;
      p'.Some? && p'.value.doc == p.doc && p'.value.carries == p.carries
  {
    RunInv(run, i);
    assert StepAt(run, i);
  }

  /** Where an answer came from: what the daemon had stored when it read it. */
  lemma {:induction false} AnswerWasRead(run: Run, i: nat, g: nat) returns (k: nat)
    requires IsRun(run) && i < |run.states| && g < |run.states[i].gets| && run.states[i].gets[g].read
    ensures k < i && run.events[k] == GetRead(g) && run.states[i].gets[g].answer == run.states[k].daemon
  {
    assert i > 0 && StepAt(run, i - 1);
    if run.events[i - 1] == GetRead(g) {
      k := i - 1;
    } else {
      k := AnswerWasRead(run, i - 1, g);
    }
  }

  /** An adopted answer shows the layout that the daemon had when it read it, in canonical
      form. */
  lemma AdoptedLayoutWasStored(run: Run, i: nat) returns (k: nat)
    requires IsRun(run) && i < |run.events| && AdoptsAt(run, i)
    ensures k < i && run.events[k] == GetRead(run.events[i].get) && run.states[k].daemon.Some?
    ensures run.states[i + 1].browser.layout == Renormalize(run.states[k].daemon.value)
  {
    assert StepAt(run, i);
    k := AnswerWasRead(run, i, run.events[i].get);
  }

  /** Step k is the latest edit before state i. */
  ghost predicate LatestEdit(run: Run, k: nat, i: nat)
    requires i <= |run.events|
  {
    k < i && run.events[k].Edit? && forall m :: k < m < i ==> !run.events[m].Edit?
  }

  /** At any time the newest edit is waiting, or in flight, or has settled: whatever fails,
      no older one is ever sent in its place. */
  lemma {:induction false} NewestEditIsSent(run: Run, k: nat, i: nat)
    requires IsRun(run) && i < |run.states| && LatestEdit(run, k, i)
    ensures
      var s, next := run.states[i], run.events[k].next;
      if s.browser.pending.Some? then s.browser.pending == Some(next)
      else if s.put.Some? then s.put.value.doc == next
      else s.settled == s.browser.serial
  {
    RunInv(run, i);
    RunInv(run, i - 1);
    assert StepAt(run, i - 1);
    if k < i - 1 {
      assert LatestEdit(run, k, i - 1);
      NewestEditIsSent(run, k, i - 1);
    }
  }

  // ------------------------------------------- one editing browser, writes that commit

  /** Nobody else writes, a PUT settles only once stored, and edits yield canonical
      layouts, as every edit of the grid does. */
  predicate Alone(s: System, e: Event) {
    && !e.ForeignEdit? && !e.StrayStored?
    && (e.PutSettles? && s.put.Some? ==> s.put.value.stored)
    && (e.Edit? ==> Canonical(e.next))
  }

  ghost predicate AloneAt(run: Run, i: nat)
    requires i < |run.events| && |run.states| == |run.events| + 1
  {
    Alone(run.states[i], run.events[i])
  }

  ghost predicate IsLoneRun(run: Run) {
    IsRun(run) && forall i :: 0 <= i < |run.events| ==> AloneAt(run, i)
  }

  predicate Unedited(s: System, g: Get) {
    g.open && !g.ticket.writing && g.ticket.serial == s.browser.serial
  }

  /** Once synced, an idle daemon holds the browser's layout, and so does every answer
      that could still be adopted. */
  ghost predicate InStep(s: System) {
    && (s.synced && !Busy(s.browser) ==> s.daemon.Some? && Renormalize(s.daemon.value) == s.base)
    && (s.browser.serial > 0 && !Busy(s.browser) ==> s.daemon == Some(s.base) && Canonical(s.base))
    && (s.put.Some? ==> s.synced && Canonical(s.put.value.doc))
    && (s.put.Some? && s.put.value.stored ==> s.daemon == Some(s.put.value.doc))
    && (s.put.Some? && s.browser.pending.None? ==> s.put.value.doc == s.base)
    && (s.browser.pending.Some? ==> s.browser.pending.value == s.base && Canonical(s.base))
    && (forall g :: 0 <= g < |s.gets| && Unedited(s, s.gets[g]) && s.gets[g].read ==> s.gets[g].answer == s.daemon)
  }

  lemma NextInStep(s: System, e: Event)
    requires Inv(s) && InStep(s) && Enabled(s, e) && Alone(s, e)
    ensures InStep(Next(s, e))
  {
    var s' := Next(s, e);
    forall g | 0 <= g < |s'.gets| && Unedited(s', s'.gets[g]) && s'.gets[g].read
      ensures s'.gets[g].answer == s'.daemon
    {
      assert Knows(s, s.gets[g]);
    }
    if e.GetArrives? {
      assert Knows(s, s.gets[e.get]);
    }
  }

  lemma {:induction false} LoneInStep(run: Run, i: nat)
    requires IsLoneRun(run) && i < |run.states|
    ensures InStep(run.states[i])
  {
    if i > 0 {
      LoneInStep(run, i - 1);
      RunInv(run, i - 1);
      assert StepAt(run, i - 1) && AloneAt(run, i - 1);
      NextInStep(run.states[i - 1], run.events[i - 1]);
    }
  }

  lemma AdoptsBase(s: System, e: Event)
    requires Inv(s) && InStep(s) && Enabled(s, e) && Adopts(s, e) && s.synced
    ensures
      var s' := Next(s, e);
      s'.browser.layout == s.base == s'.base && (s.browser.layout == s.base ==> s'.browser == s.browser)
  {
    assert Knows(s, s.gets[e.get]);
    assert s.gets[e.get].answer == s.daemon;
  }

  /** With one editing browser whose writes commit, once the page has its first layout
      every adopted answer is the layout it already has, so a refresh is invisible
      outside a drag, and during one it only drops the preview. */
  lemma RefreshIsInvisible(run: Run, i: nat)
    requires IsLoneRun(run) && i < |run.events|
    requires run.states[i].synced && AdoptsAt(run, i)
    ensures run.states[i + 1].browser.layout == run.states[i].base == run.states[i + 1].base
    ensures !PreviewShown(run, i) ==> run.states[i + 1].browser == run.states[i].browser
  {
    RunInv(run, i);
    LoneInStep(run, i);
    AdoptsBase(run.states[i], run.events[i]);
    if !PreviewShown(run, i) {
      BaseIsShown(run, i);
    }
  }

  lemma {:induction false} BaseIsNewestEdit(run: Run, k: nat, i: nat)
    requires IsLoneRun(run) && i < |run.states| && LatestEdit(run, k, i)
    ensures run.states[i].base == run.events[k].next && run.states[i].browser.serial > 0 && run.states[i].synced
  {
    assert StepAt(run, i - 1);
    if k < i - 1 {
      assert LatestEdit(run, k, i - 1);
      BaseIsNewestEdit(run, k, i - 1);
      LoneInStep(run, i - 1);
      RunInv(run, i - 1);
      if AdoptsAt(run, i - 1) {
        AdoptsBase(run.states[i - 1], run.events[i - 1]);
      }
    }
  }

  /** ... and whenever it is idle after an edit the daemon stores exactly the newest one,
      which the screen shows but for a preview. */
  lemma NewestEditIsStored(run: Run, k: nat, i: nat)
    requires IsLoneRun(run) && i < |run.states| && LatestEdit(run, k, i) && !Busy(run.states[i].browser)
    ensures run.states[i].daemon == Some(run.events[k].next)
    ensures !PreviewShown(run, i) ==> run.states[i].browser.layout == run.events[k].next
  {
    LoneInStep(run, i);
    BaseIsNewestEdit(run, k, i);
    if !PreviewShown(run, i) {
      BaseIsShown(run, i);
    }
  }
}

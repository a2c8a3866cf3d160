/** The daemon's certificates over time: checks, failed checks and the days between. */
module PkiRuns {
  import opened Pki

  datatype State = State(disk: Disk, now: int, next: nat)

  /** A check that succeeds, one that stops half way and what it leaves, time passing. */
  datatype Event = Check(names: seq<string>) | Stop(names: seq<string>, left: Disk) | Wait(elapsed: nat)

  datatype Run = Run(states: seq<State>, events: seq<Event>)

  predicate Enabled(s: State, e: Event) {
    match e
    case Check(names) => !Refuses(s.disk, names, s.now, s.next)
    case Stop(names, left) => Stopped(s.disk, names, s.now, s.next, left)
    case Wait(_) => true
  }

  /** Two new keys at most go into a check. */
  function Next(s: State, e: Event): State
    requires Enabled(s, e)
  {
    match e
    case Check(names) => s.(disk := Ensured(s.disk, names, s.now, s.next), next := s.next + 2)
    case Stop(_, left) => s.(disk := left, next := s.next + 2)
    case Wait(elapsed) => s.(now := s.now + elapsed)
  }

  ghost predicate StepAt(run: Run, i: nat)
    requires i < |run.events| && |run.states| == |run.events| + 1
  {
    Enabled(run.states[i], run.events[i]) && run.states[i + 1] == Next(run.states[i], run.events[i])
  }

  /** A run starts in an empty directory. */
  ghost predicate IsRun(run: Run) {
    && |run.states| == |run.events| + 1
    && run.states[0].disk == Disk(Missing, Missing, Missing, Missing)
    && forall i :: 0 <= i < |run.events| ==> StepAt(run, i)
  }

  ghost predicate Inv(s: State) {
    Issued(s.disk, s.now) && Unused(s.disk, s.next)
  }

  lemma NextInv(s: State, e: Event)
    requires Inv(s) && Enabled(s, e)
    ensures Inv(Next(s, e))
  {
  }

  lemma {:induction false} RunInv(run: Run, i: nat)
    requires IsRun(run) && i < |run.states|
    ensures Inv(run.states[i])
  {
    if i > 0 {
      RunInv(run, i - 1);
      assert StepAt(run, i - 1);
      NextInv(run.states[i - 1], run.events[i - 1]);
    }
  }

  lemma RunStep(run: Run, i: nat)
    requires IsRun(run) && i < |run.events|
    ensures
      var s, e := run.states[i], run.events[i];
      Inv(s) && Enabled(s, e) && run.states[i + 1] == Next(s, e)
  {
    RunInv(run, i);
    assert StepAt(run, i);
  }

  // ------------------------------------------------------- never expired in between

  predicate LastsTo(d: Disk, t: int) {
    d.caCert.Holds? && d.leafCert.Holds? && d.caCert.value.notAfter >= t && d.leafCert.value.notAfter >= t
  }

  lemma NextLasts(s: State, e: Event, t: int)
    requires Inv(s) && Enabled(s, e) && LastsTo(s.disk, t) && t <= s.now + LEAF_ROTATE_UNDER
    ensures LastsTo(Next(s, e).disk, t)
  {
  }

  lemma CheckLasts(s: State, names: seq<string>)
    requires Inv(s) && Enabled(s, Check(names))
    ensures
      var s' := Next(s, Check(names));
      LastsTo(s'.disk, s.now + LEAF_ROTATE_UNDER) && PairLoads(s'.disk)
      && Chains(s'.disk, s'.disk.leafCert.value, s.now)
  {
    EnsureHeals(s.disk, names, s.now, s.next);
  }

  lemma {:induction false} LastsFrom(run: Run, i: nat, j: nat)
    requires IsRun(run) && i < j < |run.states| && run.events[i].Check?
    ensures LastsTo(run.states[j].disk, run.states[i].now + LEAF_ROTATE_UNDER) && run.states[i].now <= run.states[j].now
    decreases j
  {
    RunStep(run, j - 1);
    if j == i + 1 {
      CheckLasts(run.states[i], run.events[i].names);
    } else {
      LastsFrom(run, i, j - 1);
      NextLasts(run.states[j - 1], run.events[j - 1], run.states[i].now + LEAF_ROTATE_UNDER);
    }
  }

  /** For 30 days after a check that succeeded, whatever later checks do or fail to do,
      neither certificate on disk has expired. */
  lemma NeverExpiredBetweenChecks(run: Run, i: nat, j: nat)
    requires IsRun(run) && i < j < |run.states| && run.events[i].Check?
    requires run.states[j].now - run.states[i].now < LEAF_ROTATE_UNDER
    ensures
      var d := run.states[j].disk;
      && d.caCert.Holds? && run.states[j].now < d.caCert.value.notAfter
      && d.leafCert.Holds? && run.states[j].now < d.leafCert.value.notAfter
  {
    LastsFrom(run, i, j);
  }

  /** While no check fails, for 30 days after the last one the pair on disk is whole and
      chains to the CA. */
  lemma {:induction false} ServesBetweenChecks(run: Run, i: nat, j: nat)
    requires IsRun(run) && i < j < |run.states| && run.events[i].Check?
    requires forall k :: i < k < j ==> run.events[k].Wait?
    requires run.states[j].now - run.states[i].now < LEAF_ROTATE_UNDER
    ensures PairLoads(run.states[j].disk)
    ensures Chains(run.states[j].disk, run.states[j].disk.leafCert.value, run.states[j].now)
    decreases j
  {
    RunStep(run, j - 1);
    LastsFrom(run, i, j);
    if j > i + 1 {
      LastsFrom(run, i, j - 1);
      ServesBetweenChecks(run, i, j - 1);
    } else {
      CheckLasts(run.states[i], run.events[i].names);
    }
  }

  // ---------------------------------------------------------------- never too long

  predicate Lives(d: Disk, now: int) {
    d.leafCert.Holds? ==> d.leafCert.value.notAfter - now <= LEAF_VALIDITY
  }

  lemma NextLives(s: State, e: Event)
    requires Inv(s) && Enabled(s, e) && Lives(s.disk, s.now)
    ensures Lives(Next(s, e).disk, Next(s, e).now)
  {
    match e
    case Wait(_) =>
    case Check(names) => NewCertificatesAreDated(s.disk, names, s.now, s.next);
    case Stop(names, left) =>
      if left.leafCert != s.disk.leafCert {
        NewCertificatesAreDated(s.disk, names, s.now, s.next);
      }
  }

  /** Over all runs no leaf on disk ever has more than 90 days left. */
  lemma {:induction false} LeavesAreShortLived(run: Run, i: nat)
    requires IsRun(run) && i < |run.states|
    ensures Lives(run.states[i].disk, run.states[i].now)
  {
    if i > 0 {
      LeavesAreShortLived(run, i - 1);
      RunStep(run, i - 1);
      NextLives(run.states[i - 1], run.events[i - 1]);
    }
  }

  /** A leaf in its last 30 days is replaced by the first check that succeeds, by one that
      lasts 90 days less a second or as long as its CA. */
  lemma AgedLeafIsReplaced(run: Run, i: nat)
    requires IsRun(run) && i < |run.events| && run.events[i].Check?
    requires
      var d := run.states[i].disk;
      d.leafCert.Holds? && d.leafCert.value.notAfter - run.states[i].now < LEAF_ROTATE_UNDER
    ensures
      var d, d', now := run.states[i].disk, run.states[i + 1].disk, run.states[i].now;
      && d'.leafCert.Holds? && d'.caCert.Holds? && d'.leafCert != d.leafCert
      && (d'.leafCert.value.notAfter > now + LEAF_VALIDITY - SECOND
          || d'.leafCert.value.notAfter == d'.caCert.value.notAfter)
  {
    RunStep(run, i);
    var s := run.states[i];
    EnsureHeals(s.disk, run.events[i].names, s.now, s.next);
    NewCertificatesAreDated(s.disk, run.events[i].names, s.now, s.next);
  }

  // ------------------------------------------------------------ a half-written CA

  /** Every check from event i to event j is for these hostnames. */
  ghost predicate ChecksFor(run: Run, i: nat, j: nat, names: seq<string>)
    requires j <= |run.events|
  {
    forall k :: i <= k < j ==> run.events[k].Wait? || run.events[k].names == names
  }

  lemma MismatchStep(s: State, e: Event)
    requires Inv(s) && Enabled(s, e) && Mismatched(s.disk) && !Expires(s.disk.caCert.value, s.now)
    requires e.Wait? || e.names == s.disk.caCert.value.names
    ensures Next(s, e).disk == s.disk && !e.Check?
  {
    if !e.Wait? {
      RefusesIff(s.disk, e.names, s.now, s.next);
    }
  }

  /** Nothing mends a CA certificate beside another one's key while the hostnames stay and
      the certificate is not due: over all runs no check succeeds or writes anything until
      then. */
  lemma {:induction false} MismatchedCAStops(run: Run, i: nat, j: nat)
    requires IsRun(run) && i <= j < |run.states| && Mismatched(run.states[i].disk)
    requires ChecksFor(run, i, j, run.states[i].disk.caCert.value.names)
    requires !Expires(run.states[i].disk.caCert.value, run.states[j].now)
    ensures run.states[j].disk == run.states[i].disk
    ensures forall k :: i <= k < j ==> !run.events[k].Check?
    decreases j
  {
    if i < j {
      RunStep(run, j - 1);
      MismatchedCAStops(run, i, j - 1);
      MismatchStep(run.states[j - 1], run.events[j - 1]);
    }
  }

  // --------------------------------------------------------------- no rewriting loop

  predicate WritesLeaf(run: Run, i: nat)
    requires i + 1 < |run.states|
  {
    run.states[i + 1].disk.leafCert != run.states[i].disk.leafCert
  }

  /** From event i to event j checks succeed, for the same hostnames and under one CA. */
  ghost predicate Steady(run: Run, i: nat, j: nat, names: seq<string>) {
    && IsRun(run) && i <= j <= |run.events|
    && forall k :: i <= k < j ==> SteadyAt(run, i, k, names)
  }

  ghost predicate SteadyAt(run: Run, i: nat, k: nat, names: seq<string>)
    requires i <= k < |run.events| && |run.states| == |run.events| + 1
  {
    && (run.events[k].Wait? || run.events[k] == Check(names))
    && run.states[k + 1].disk.caCert == run.states[i + 1].disk.caCert
  }

  /** Nothing but age can make the leaf due. */
  predicate Settled(d: Disk, names: seq<string>, bound: int) {
    && d.caCert.Holds? && d.leafCert.Holds? && PairLoads(d) && Load(d).Found?
    && d.leafCert.value.names == names == d.caCert.value.names && d.leafCert.value.issuer == d.caCert.value.key
    && d.leafCert.value.notAfter >= Min(bound, d.caCert.value.notAfter)
  }

  lemma WriteSettles(s: State, names: seq<string>)
    requires Inv(s) && Enabled(s, Check(names)) && Next(s, Check(names)).disk.leafCert != s.disk.leafCert
    ensures Settled(Next(s, Check(names)).disk, names, Encoded(s.now + LEAF_VALIDITY))
  {
  }

  /** The next check rewrites such a leaf for its age alone. */
  lemma RewrittenForAge(s: State, names: seq<string>, bound: int)
    requires Inv(s) && Enabled(s, Check(names)) && Settled(s.disk, names, bound)
    requires Next(s, Check(names)).disk.caCert == s.disk.caCert
    requires Next(s, Check(names)).disk.leafCert != s.disk.leafCert
    ensures bound - s.now < LEAF_ROTATE_UNDER
  {
  }

  lemma StepSettled(s: State, e: Event, names: seq<string>, start: int)
    requires Inv(s) && Enabled(s, e) && Settled(s.disk, names, Encoded(start + LEAF_VALIDITY))
    requires e.Wait? || e == Check(names)
    requires Next(s, e).disk.caCert == s.disk.caCert && start <= s.now
    ensures Settled(Next(s, e).disk, names, Encoded(start + LEAF_VALIDITY)) && start <= Next(s, e).now
  {
  }

  lemma FirstSettled(run: Run, i: nat, names: seq<string>)
    requires Steady(run, i, i + 1, names) && run.events[i].Check? && WritesLeaf(run, i)
    ensures Settled(run.states[i + 1].disk, names, Encoded(run.states[i].now + LEAF_VALIDITY))
    ensures run.states[i].now <= run.states[i + 1].now
  {
    RunStep(run, i);
    assert SteadyAt(run, i, i, names);
    WriteSettles(run.states[i], names);
  }

  lemma SteadyStep(run: Run, i: nat, j: nat, names: seq<string>)
    requires i < j && Steady(run, i, j, names)
    ensures Steady(run, i, j - 1, names) && SteadyAt(run, i, j - 1, names)
    ensures
      var s, e := run.states[j - 1], run.events[j - 1];
      Inv(s) && Enabled(s, e) && run.states[j] == Next(s, e)
  {
    RunStep(run, j - 1);
  }

  lemma {:induction false} SteadySettled(run: Run, i: nat, j: nat, names: seq<string>)
    requires i < j && Steady(run, i, j, names) && run.events[i].Check? && WritesLeaf(run, i)
    ensures Settled(run.states[j].disk, names, Encoded(run.states[i].now + LEAF_VALIDITY))
    ensures run.states[i].now <= run.states[j].now && run.states[j].disk.caCert == run.states[i + 1].disk.caCert
    decreases j
  {
    SteadyStep(run, i, j, names);
    if j == i + 1 {
      FirstSettled(run, i, names);
    } else {
      SteadySettled(run, i, j - 1, names);
      StepSettled(run.states[j - 1], run.events[j - 1], names, run.states[i].now);
    }
  }

  /** Under one CA and one set of hostnames, two writes of the leaf are 60 days apart, up
      to the fraction of a second that encoding drops: no daily rewriting, not even of a
      leaf clamped to the CA's end. */
  lemma RewritesAreRare(run: Run, i: nat, j: nat, names: seq<string>)
    requires i < j < |run.events| && Steady(run, i, j + 1, names)
    requires run.events[i].Check? && WritesLeaf(run, i) && WritesLeaf(run, j)
    ensures run.states[j].now - run.states[i].now > LEAF_VALIDITY - LEAF_ROTATE_UNDER - SECOND
  {
    SteadySettled(run, i, j, names);
    RunStep(run, j);
    EncodedBounds(run.states[i].now + LEAF_VALIDITY);
    assert SteadyAt(run, i, j, names);
    RewrittenForAge(run.states[j], names, Encoded(run.states[i].now + LEAF_VALIDITY));
  }
}

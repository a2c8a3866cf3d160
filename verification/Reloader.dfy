/** The listener's certificate cache beside the two renames that replace the leaf. A
    certificate or key is known by the generation it was written in. */
module Reloader {
  import opened Options

  datatype Pair = Pair(cert: nat, key: nat)

  datatype Cache = Cache(pair: Option<Pair>, modTime: int)

  /** Whether get goes on to load the pair, `stat` being the file's time if it exists. */
  predicate Reloads(c: Cache, stat: Option<int>) {
    stat.Some? && (c.pair.None? || stat.value != c.modTime)
  }

  /** tls.LoadX509KeyPair on what the two reads found. */
  function Loaded(cert: Option<nat>, key: Option<nat>): Option<Pair> {
    if cert.Some? && key.Some? && cert.value == key.value then Some(Pair(cert.value, key.value)) else None
  }

  function After(c: Cache, stat: Option<int>, cert: Option<nat>, key: Option<nat>): Cache {
    if Reloads(c, stat) && Loaded(cert, key).Some? then Cache(Loaded(cert, key), stat.value) else c
  }

  /** The cache; get's three looks at the disk are its parameters. */
  class CertReloader {
    var cert: Option<Pair>
    var modTime: int

    ghost function Value(): Cache
      reads this
    {
      Cache(cert, modTime)
    }

    /** The pair to serve, or None for an error. */
    method Get(stat: Option<int>, certRead: Option<nat>, keyRead: Option<nat>) returns (served: Option<Pair>)
      modifies this
      ensures Value() == After(old(Value()), stat, certRead, keyRead) && served == cert
    {
      if stat.Some? && (cert.None? || stat.value != modTime) {
        if certRead.Some? && keyRead.Some? && certRead.value == keyRead.value {
          cert, modTime := Some(Pair(certRead.value, keyRead.value)), stat.value;
        }
      }
      served := cert;
    }
  }

  // ------------------------------------------------------ get beside the writer

  datatype CertFile = CertFile(generation: nat, modTime: int)

  /** Where the get under the mutex is. */
  datatype Reading = Idle | Loading(stat: int) | HaveCert(stat: int, cert: Option<nat>)

  /** `newest` counts the generations written so far; `half` tells that the newest has
      its key still to be renamed; `times` is the generation written at each file time
      and `served` what each get returned. */
  datatype State = State(
    cert: Option<CertFile>, key: Option<nat>, newest: nat, half: bool, cache: Cache, reading: Reading,
    times: map<int, nat>, served: seq<Option<Pair>>)

  datatype Event =
    | CertRenamed(modTime: int)
    | KeyRenamed
    | WriterCrashes
    | CertLost
    | KeyLost
    | Stat
    | ReadCert
    | ReadKey

  predicate Initial(s: State) {
    s.cert.None? && s.newest == 0 && !s.half && s.key.None? && s.cache.pair.None?
    && s.reading.Idle? && s.times == map[] && s.served == []
  }

  /** Two generations never have the same file time. */
  predicate Enabled(s: State, e: Event) {
    match e
    case CertRenamed(modTime) => modTime !in s.times
    case KeyRenamed => s.half
    case Stat => s.reading.Idle?
    case ReadCert => s.reading.Loading?
    case ReadKey => s.reading.HaveCert?
    case _ => true
  }

  function StatOf(s: State): Option<int> {
    if s.cert.Some? then Some(s.cert.value.modTime) else None
  }

  /** A get ends with the cache as it then is. */
  function Serve(s: State, cache: Cache): State {
    s.(cache := cache, reading := Idle, served := s.served + [cache.pair])
  }

  function Next(s: State, e: Event): State
    requires Enabled(s, e)
  {
    match e
    case CertRenamed(modTime) =>
      s.(cert := Some(CertFile(s.newest + 1, modTime)), newest := s.newest + 1, half := true,
         times := s.times[modTime := s.newest + 1])
    case KeyRenamed => s.(key := Some(s.newest), half := false)
    case WriterCrashes => s.(half := false)
    case CertLost => s.(cert := None)
    case KeyLost => s.(key := None)
    case Stat =>
      if Reloads(s.cache, StatOf(s)) then s.(reading := Loading(s.cert.value.modTime)) else Serve(s, s.cache)
    case ReadCert =>
      s.(reading := HaveCert(s.reading.stat, if s.cert.Some? then Some(s.cert.value.generation) else None))
    case ReadKey => Serve(s, After(s.cache, Some(s.reading.stat), s.reading.cert, s.key))
  }

  datatype Run = Run(states: seq<State>, events: seq<Event>)

  ghost predicate StepAt(run: Run, i: nat)
    requires i < |run.events| && |run.states| == |run.events| + 1
  {
    Enabled(run.states[i], run.events[i]) && run.states[i + 1] == Next(run.states[i], run.events[i])
  }

  ghost predicate IsRun(run: Run) {
    && |run.states| == |run.events| + 1 && Initial(run.states[0])
    && forall i :: 0 <= i < |run.events| ==> StepAt(run, i)
  }

  ghost predicate CacheOk(s: State) {
    s.cache.pair.Some? ==>
      && s.cache.pair.value.cert == s.cache.pair.value.key
      && s.cache.modTime in s.times
      && s.times[s.cache.modTime] <= s.cache.pair.value.cert <= s.newest
  }

  ghost predicate ReadingOk(s: State) {
    match s.reading
    case Idle => true
    case Loading(stat) => stat in s.times && Reloads(s.cache, Some(stat))
    case HaveCert(stat, cert) =>
      && stat in s.times && Reloads(s.cache, Some(stat))
      && (cert.Some? ==> s.times[stat] <= cert.value <= s.newest)
      && (cert.Some? && s.cache.pair.Some? ==> s.cache.pair.value.cert <= cert.value)
  }

  /** What has been served so far: pairs that match, none once there was one, and none
      older than the one before. */
  ghost predicate ServedOk(s: State) {
    && (forall i :: 0 <= i < |s.served| && s.served[i].Some? ==>
          s.served[i].value.cert == s.served[i].value.key
          && s.cache.pair.Some? && s.served[i].value.cert <= s.cache.pair.value.cert)
    && (forall i, j :: 0 <= i < j < |s.served| && s.served[i].Some? ==>
          s.served[j].Some? && s.served[i].value.cert <= s.served[j].value.cert)
  }

  ghost predicate TimesOk(s: State) {
    && (s.cert.Some? ==>
          s.cert.value.generation == s.newest
          && s.cert.value.modTime in s.times && s.times[s.cert.value.modTime] == s.newest)
    && (forall t :: t in s.times ==> s.times[t] <= s.newest)
  }

  ghost predicate Inv(s: State) {
    TimesOk(s) && CacheOk(s) && ReadingOk(s) && ServedOk(s)
  }

  lemma NextTimes(s: State, e: Event)
    requires TimesOk(s) && Enabled(s, e)
    ensures TimesOk(Next(s, e))
  {
  }

  lemma NextReading(s: State, e: Event)
    requires Inv(s) && Enabled(s, e)
    ensures CacheOk(Next(s, e)) && ReadingOk(Next(s, e))
  {
  }

  /** A get serves nothing older than what was served before. */
  lemma ServeOk(s: State, cache: Cache)
    requires ServedOk(s) && (cache.pair.Some? ==> cache.pair.value.cert == cache.pair.value.key)
    requires s.cache.pair.Some? ==> cache.pair.Some? && s.cache.pair.value.cert <= cache.pair.value.cert
    ensures ServedOk(Serve(s, cache))
  {
  }

  lemma NextServed(s: State, e: Event)
    requires Inv(s) && Enabled(s, e)
    ensures ServedOk(Next(s, e))
  {
    match e
    case Stat => if !Reloads(s.cache, StatOf(s)) { ServeOk(s, s.cache); }
    case ReadKey => ServeOk(s, After(s.cache, Some(s.reading.stat), s.reading.cert, s.key));
    case _ =>
  }

  lemma NextInv(s: State, e: Event)
    requires Inv(s) && Enabled(s, e)
    ensures Inv(Next(s, e))
  {
    NextTimes(s, e);
    NextReading(s, e);
    NextServed(s, e);
  }

  lemma {:induction false} RunInv(run: Run, i: nat)
    requires IsRun(run) && i < |run.states|
    ensures Inv(run.states[i])
  {
    if i > 0 {
      RunInv(run, i - 1);
      assert StepAt(run, i - 1);
      NextInv(run.states[i - 1], run.events[i - 1]);
    }
  }

  // ----------------------------------------------------------------- main results

  /** However gets and rotations interleave, whatever fails half way: after the first
      success every get serves a certificate with its own key, never an older one than
      before. */
  lemma ServedPairsMatch(run: Run, n: nat, i: nat, j: nat)
    requires IsRun(run) && n < |run.states| && i <= j < |run.states[n].served| && run.states[n].served[i].Some?
    ensures
      var before, now := run.states[n].served[i], run.states[n].served[j];
      now.Some? && now.value.cert == now.value.key && before.value.cert <= now.value.cert
  {
    RunInv(run, n);
    assert ServedOk(run.states[n]);
  }

  predicate TouchesDisk(e: Event) {
    e.CertRenamed? || e.KeyRenamed? || e.CertLost? || e.KeyLost?
  }

  predicate Complete(s: State, g: nat) {
    s.cert.Some? && s.cert.value.generation == g && s.key == Some(g)
  }

  /** The get that began at event i is at its second or third look, the disk unchanged. */
  ghost predicate Undisturbed(run: Run, i: nat, j: nat) {
    && IsRun(run) && i < j < |run.states| && run.events[i].Stat?
    && (forall k :: i < k < j ==> !TouchesDisk(run.events[k]))
    && (forall k :: i < k <= j ==> |run.states[k].served| == |run.states[i].served|)
  }

  lemma {:induction false} StillComplete(run: Run, i: nat, j: nat, g: nat)
    requires Undisturbed(run, i, j) && Complete(run.states[i], g)
    ensures
      var s := run.states[j];
      && Complete(s, g) && s.cache == run.states[i].cache && s.cert == run.states[i].cert
      && ((s.reading.Loading? && s.reading.stat == s.cert.value.modTime)
          || s.reading == HaveCert(s.cert.value.modTime, Some(g)))
    decreases j
  {
    assert StepAt(run, j - 1);
    if j > i + 1 {
      assert Undisturbed(run, i, j - 1);
      StillComplete(run, i, j - 1, g);
      assert |run.states[j].served| == |run.states[j - 1].served|;
    } else {
      assert |run.states[j].served| == |run.states[i].served|;
    }
  }

  /** A get begun once a generation is complete on disk, and not disturbed by another
      write, serves that generation: at once from the cache, or after loading it. */
  lemma NewestPairIsServed(run: Run, i: nat, j: nat, g: nat)
    requires IsRun(run) && i <= j < |run.events| && run.events[i].Stat? && Complete(run.states[i], g)
    requires forall k :: i < k <= j ==> !TouchesDisk(run.events[k])
    requires forall k :: i < k <= j ==> |run.states[k].served| == |run.states[i].served|
    requires |run.states[j + 1].served| > |run.states[j].served|
    ensures run.states[j + 1].served == run.states[j].served + [Some(Pair(g, g))]
  {
    RunInv(run, i);
    assert StepAt(run, j);
    if i < j {
      StillComplete(run, i, j, g);
    }
  }
}

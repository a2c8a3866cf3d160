/** The daemon's certificates on disk: a CA named for its hostnames and a short-lived
    leaf under it, checked and reissued by Ensure at start and once a day. */
module Pki {
  import opened Options

  /** Times are nanoseconds. */
  const SECOND: nat := 1_000_000_000
  const HOUR: nat := 3600 * SECOND
  const DAY: nat := 24 * HOUR
  const CA_VALIDITY: nat := 3650 * DAY
  const LEAF_VALIDITY: nat := 90 * DAY
  const LEAF_ROTATE_UNDER: nat := 30 * DAY
  const CA_RENEW_UNDER: nat := 30 * DAY

  /** A certificate is known by the key pair it was issued for; `issuer` is the key that
      signed it. */
  datatype Cert = Cert(key: nat, issuer: nat, names: seq<string>, notBefore: int, notAfter: int)

  /** What reading a file finds. */
  datatype File<T> = Missing | Denied | Corrupt | Holds(value: T)

  datatype Disk = Disk(caCert: File<Cert>, caKey: File<nat>, leafCert: File<Cert>, leafKey: File<nat>)

  datatype Regen = Kept | Hostnames | Expiring

  /** loadCA's three outcomes: the error that means there is no CA yet, any other, a CA. */
  datatype Loaded = Absent | Unreadable | Found(cert: Cert, key: nat)

  /** X.509 times are whole seconds; encoding drops the fraction. */
  function Encoded(t: int): int {
    t / SECOND * SECOND
  }

  /** Both files are read before either is parsed. */
  function Load(d: Disk): Loaded {
    if d.caCert.Missing? then Absent
    else if d.caCert.Denied? then Unreadable
    else if d.caKey.Missing? then Absent
    else if d.caCert.Holds? && d.caKey.Holds? then Found(d.caCert.value, d.caKey.value)
    else Unreadable
  }

  predicate Expires(ca: Cert, now: int) {
    now >= ca.notAfter - CA_RENEW_UNDER
  }

  function Reason(ca: Cert, names: seq<string>, now: int): Regen {
    if ca.names != names then Hostnames else if Expires(ca, now) then Expiring else Kept
  }

  function NewCA(key: nat, names: seq<string>, now: int): Cert {
    Cert(key, key, names, Encoded(now - HOUR), Encoded(now + CA_VALIDITY))
  }

  function NewLeaf(key: nat, ca: Cert, names: seq<string>, now: int): Cert {
    Cert(key, ca.key, names, Encoded(now - HOUR), Encoded(Min(now + LEAF_VALIDITY, ca.notAfter)))
  }

  function Min(a: int, b: int): int {
    if b < a then b else a
  }

  /** tls.LoadX509KeyPair. */
  predicate PairLoads(d: Disk) {
    d.leafCert.Holds? && d.leafKey.Holds? && d.leafCert.value.key == d.leafKey.value
  }

  /** A name constraint admits its name and every name under it. */
  predicate Admits(constraint: string, name: string) {
    || name == constraint
    || (|name| > |constraint| && name[|name| - |constraint|..] == constraint
        && name[|name| - |constraint| - 1] == '.')
  }

  predicate Permits(ca: Cert, leaf: Cert) {
    forall n | n in leaf.names :: exists c | c in ca.names :: Admits(c, n)
  }

  predicate Valid(c: Cert, now: int) {
    c.notBefore <= now <= c.notAfter
  }

  /** cert.Verify against the CA file alone. */
  predicate Chains(d: Disk, leaf: Cert, now: int) {
    && d.caCert.Holds? && leaf.issuer == d.caCert.value.key
    && Valid(leaf, now) && Valid(d.caCert.value, now) && Permits(d.caCert.value, leaf)
  }

  predicate Ages(leaf: Cert, now: int) {
    leaf.notAfter - now < LEAF_ROTATE_UNDER
  }

  predicate NeedsLeaf(d: Disk, names: seq<string>, now: int) {
    || !d.leafCert.Holds? || Ages(d.leafCert.value, now) || d.leafCert.value.names != names
    || !PairLoads(d) || !Chains(d, d.leafCert.value, now)
  }

  // ----------------------------------------------------------------- one whole check

  /** The CA in force after a check, `next` being the next new key. */
  function CAAfter(d: Disk, names: seq<string>, now: int, next: nat): (Cert, nat, Regen)
    requires !Load(d).Unreadable?
  {
    var loaded := Load(d);
    if loaded.Absent? then (NewCA(next, names, now), next, Kept)
    else if Reason(loaded.cert, names, now) != Kept then
      (NewCA(next, names, now), next, Reason(loaded.cert, names, now))
    else (loaded.cert, loaded.key, Kept)
  }

  predicate MakesCA(d: Disk, names: seq<string>, now: int) {
    Load(d).Absent? || (Load(d).Found? && Reason(Load(d).cert, names, now) != Kept)
  }

  function WithCA(d: Disk, names: seq<string>, now: int, next: nat): Disk
    requires !Load(d).Unreadable?
  {
    var (ca, key, _) := CAAfter(d, names, now, next);
    d.(caCert := Holds(ca), caKey := Holds(key))
  }

  /** A check that meets no error of its own can still fail on what it finds. */
  predicate Refuses(d: Disk, names: seq<string>, now: int, next: nat) {
    || names == [] || Load(d).Unreadable?
    || (NeedsLeaf(WithCA(d, names, now, next), names, now)
        && CAAfter(d, names, now, next).0.key != CAAfter(d, names, now, next).1)
  }

  /** The disk after a check that succeeds. */
  function Ensured(d: Disk, names: seq<string>, now: int, next: nat): Disk
    requires !Refuses(d, names, now, next)
  {
    var ca := CAAfter(d, names, now, next).0;
    var w := WithCA(d, names, now, next);
    var leafKey := if MakesCA(d, names, now) then next + 1 else next;
    if NeedsLeaf(w, names, now) then
      w.(leafCert := Holds(NewLeaf(leafKey, ca, names, now)), leafKey := Holds(leafKey))
    else w
  }

  /** A crash between the CA's two renames: the certificate is in place, its key is not. */
  function HalfCA(d: Disk, names: seq<string>, now: int, next: nat): Disk {
    d.(caCert := Holds(NewCA(next, names, now)))
  }

  /** What a check that stops half way can leave: nothing changed, half of a new CA, the CA
      renewed, or also the leaf's certificate in place but not its key. */
  predicate Stopped(d: Disk, names: seq<string>, now: int, next: nat, d': Disk) {
    || d' == d
    || (MakesCA(d, names, now) && d' == HalfCA(d, names, now, next))
    || (!Load(d).Unreadable? && d' == WithCA(d, names, now, next))
    || (!Refuses(d, names, now, next) && d' == Ensured(d, names, now, next).(leafKey := d.leafKey))
  }

  /** The directory of certificates. `nextKey` stands for the randomness of new keys:
      no two are equal. Where a file operation may fail the outcome is arbitrary, and
      `faults` counts the failures. */
  class Store {
    var caCert: File<Cert>
    var caKey: File<nat>
    var leafCert: File<Cert>
    var leafKey: File<nat>
    var nextKey: nat
    ghost var faults: nat

    ghost function Files(): Disk
      reads this
    {
      Disk(caCert, caKey, leafCert, leafKey)
    }

    method LoadCA() returns (r: Loaded)
      ensures r == Load(Files())
    {
      if caCert.Missing? {
        return Absent;
      }
      if caCert.Denied? {
        return Unreadable;
      }
      if caKey.Missing? {
        return Absent;
      }
      if !caKey.Holds? || !caCert.Holds? {
        return Unreadable;
      }
      r := Found(caCert.value, caKey.value);
    }

    /** Two renames, certificate first. */
    method CreateCA(names: seq<string>, now: int) returns (ca: Option<(Cert, nat)>)
      modifies this
      ensures leafCert == old(leafCert) && leafKey == old(leafKey)
      ensures faults == old(faults) + if ca.None? then 1 else 0
      ensures ca.None? ==> Files() == old(Files()) || Files() == HalfCA(old(Files()), names, now, old(nextKey))
      ensures ca.Some? ==>
        && ca.value == (NewCA(old(nextKey), names, now), old(nextKey)) && nextKey == old(nextKey) + 1
        && caCert == Holds(ca.value.0) && caKey == Holds(ca.value.1)
    {
      if * {
        faults := faults + 1;
        return None;
      }
      var cert := Cert(nextKey, nextKey, names, Encoded(now - HOUR), Encoded(now + CA_VALIDITY));
      var newKey := nextKey;
      nextKey := nextKey + 1;
      caCert := Holds(cert);
      if * {
        faults := faults + 1;
        return None;
      }
      caKey := Holds(newKey);
      ca := Some((cert, newKey));
    }

    method LeafNeedsRotation(names: seq<string>, now: int) returns (due: bool)
      ensures due == NeedsLeaf(Files(), names, now)
    {
      if !leafCert.Holds? {
        return true;
      }
      var cert := leafCert.value;
      if cert.notAfter - now < LEAF_ROTATE_UNDER {
        return true;
      }
      if cert.names != names {
        return true;
      }
      if !leafKey.Holds? || leafKey.value != cert.key {
        return true;
      }
      if !caCert.Holds? {
        return true;
      }
      due := !(cert.issuer == caCert.value.key && Valid(cert, now) && Valid(caCert.value, now)
               && Permits(caCert.value, cert));
    }

    /** Two renames, certificate first. */
    method CreateLeaf(ca: Cert, key: nat, names: seq<string>, now: int) returns (ok: bool)
      modifies this
      ensures caCert == old(caCert) && caKey == old(caKey)
      ensures ok ==> key == ca.key && faults == old(faults)
      ensures !ok ==> key != ca.key || faults > old(faults)
      ensures ok ==> leafCert == Holds(NewLeaf(old(nextKey), ca, names, now)) && leafKey == Holds(old(nextKey))
      ensures !ok ==> leafKey == old(leafKey)
      ensures !ok && leafCert != old(leafCert) ==>
        key == ca.key && leafCert == Holds(NewLeaf(old(nextKey), ca, names, now))
    {
      var notAfter := now + LEAF_VALIDITY;
      if notAfter > ca.notAfter {
        notAfter := ca.notAfter;
      }
      // Signing checks that the key is the CA's own.
      if key != ca.key {
        return false;
      }
      ok := *;
      if !ok {
        faults := faults + 1;
        return;
      }
      var cert := Cert(nextKey, ca.key, names, Encoded(now - HOUR), Encoded(notAfter));
      var newKey := nextKey;
      nextKey := nextKey + 1;
      leafCert := Holds(cert);
      ok := *;
      if ok {
        leafKey := Holds(newKey);
      } else {
        faults := faults + 1;
      }
    }

    method Ensure(names: seq<string>, now: int) returns (regenerated: Regen, ok: bool)
      modifies this
      ensures ok <==> !Refuses(old(Files()), names, now, old(nextKey)) && faults == old(faults)
      ensures ok ==>
        && Files() == Ensured(old(Files()), names, now, old(nextKey))
        && regenerated == CAAfter(old(Files()), names, now, old(nextKey)).2
      ensures !ok ==> Stopped(old(Files()), names, now, old(nextKey), Files())
    {
      regenerated := Kept;
      if |names| == 0 {
        return Kept, false;
      }
      if * {
        // The directory could not be made.
        faults := faults + 1;
        return Kept, false;
      }
      var loaded := LoadCA();
      var ca, key;
      match loaded {
        case Unreadable => return Kept, false;
        case Absent =>
        case Found(cert, k) =>
          ca, key := cert, k;
          if cert.names != names {
            regenerated := Hostnames;
          } else if !(now < cert.notAfter - CA_RENEW_UNDER) {
            regenerated := Expiring;
          }
      }
      if loaded.Absent? || regenerated != Kept {
        var created := CreateCA(names, now);
        if created.None? {
          return regenerated, false;
        }
        ca, key := created.value.0, created.value.1;
      }
      assert Files() == WithCA(old(Files()), names, now, old(nextKey));
      var due := LeafNeedsRotation(names, now);
      ok := true;
      if due {
        ok := CreateLeaf(ca, key, names, now);
      }
    }
  }

  // ----------------------------------------------------------------- what a check gives

  /** All a check looks for, at the margins it keeps. */
  predicate Healthy(d: Disk, names: seq<string>, now: int) {
    && d.caCert.Holds? && d.caKey == Holds(d.caCert.value.key) && PairLoads(d)
    && d.caCert.value.names == names == d.leafCert.value.names
    && d.caCert.value.notAfter - now > CA_RENEW_UNDER
    && d.leafCert.value.notAfter - now >= LEAF_ROTATE_UNDER
    && Chains(d, d.leafCert.value, now)
  }

  /** The CA's files are a certificate and another one's key. */
  predicate Mismatched(d: Disk) {
    Load(d).Found? && Load(d).cert.key != Load(d).key
  }

  /** The disk as this daemon leaves it while time moves forward: certificates were issued
      in the past, a CA whose key was never written has signed nothing, and a leaf of the
      CA is clamped to it. */
  predicate Issued(d: Disk, now: int) {
    && (d.caCert.Holds? ==> d.caCert.value.notBefore <= now && d.caCert.value.notAfter % SECOND == 0)
    && (d.leafCert.Holds? ==> d.leafCert.value.notBefore <= now)
    && (Mismatched(d) && d.leafCert.Holds? ==> d.leafCert.value.issuer != d.caCert.value.key)
    && (d.caCert.Holds? && d.leafCert.Holds? && d.leafCert.value.issuer == d.caCert.value.key ==>
          d.leafCert.value.notAfter <= d.caCert.value.notAfter)
  }

  /** Keys yet to be made are on no certificate. */
  predicate Unused(d: Disk, next: nat) {
    && (d.caCert.Holds? ==> d.caCert.value.key < next) && (d.caKey.Holds? ==> d.caKey.value < next)
    && (d.leafCert.Holds? ==> d.leafCert.value.issuer < next && d.leafCert.value.key < next)
    && (d.leafKey.Holds? ==> d.leafKey.value < next)
  }

  lemma EncodedBounds(t: int)
    ensures t - SECOND < Encoded(t) <= t && Encoded(t) % SECOND == 0
    ensures t % SECOND == 0 ==> Encoded(t) == t
  {
  }

  /** A check that succeeds leaves everything healthy, the leaf within the CA's life,
      whatever state the leaf's files were in. */
  lemma EnsureHeals(d: Disk, names: seq<string>, now: int, next: nat)
    requires Issued(d, now) && Unused(d, next) && !Refuses(d, names, now, next)
    ensures
      var d' := Ensured(d, names, now, next);
      Healthy(d', names, now) && Issued(d', now) && d'.leafCert.value.notAfter <= d'.caCert.value.notAfter
  {
  }

  /** Which CA a check starts from, by its two files: both readable, it is found; the
      certificate missing, or its key while the certificate may be read, there is none
      yet; otherwise nothing is touched. */
  lemma FilesDecide(d: Disk, names: seq<string>, now: int, next: nat)
    requires names != []
    ensures d.caCert.Holds? && d.caKey.Holds? ==>
      Load(d).Found? && Load(d).cert == d.caCert.value && Load(d).key == d.caKey.value
    ensures d.caCert.Missing? || (!d.caCert.Denied? && d.caKey.Missing?) ==>
      && !Refuses(d, names, now, next) && CAAfter(d, names, now, next).2 == Kept
      && var d' := Ensured(d, names, now, next);
      && d'.caCert.Holds? && d'.caCert.value.key == next && d'.caKey == Holds(next)
    ensures d.caCert.Denied? || (!d.caCert.Missing? && !d.caKey.Missing? && (!d.caCert.Holds? || !d.caKey.Holds?)) ==>
      Refuses(d, names, now, next)
  {
  }

  /** How a name constraint admits a name: by being it, or its end after a dot. */
  lemma AdmitsIff(constraint: string, name: string)
    ensures Admits(constraint, name) <==> name == constraint || exists sub :: name == sub + "." + constraint
  {
    if Admits(constraint, name) && name != constraint {
      var sub := name[..|name| - |constraint| - 1];
      assert name == sub + "." + constraint;
    }
    forall sub | name == sub + "." + constraint
      ensures Admits(constraint, name)
    {
      assert name[|sub| + 1..] == constraint;
    }
  }

  /** What a check asks of a leaf, whatever the clock has done: it is kept exactly when its
      pair matches, it is for these hostnames, has 30 days left, was signed by the CA in
      force, and both certificates are in their time. */
  lemma LeafIsKeptIff(d: Disk, names: seq<string>, now: int, next: nat)
    requires Unused(d, next) && !Refuses(d, names, now, next)
    ensures
      var ca := CAAfter(d, names, now, next).0;
      Ensured(d, names, now, next).leafCert == d.leafCert
      <==>
      && d.leafCert.Holds? && d.leafKey.Holds? && d.leafKey.value == d.leafCert.value.key
      && d.leafCert.value.names == names && d.leafCert.value.notAfter - now >= LEAF_ROTATE_UNDER
      && d.leafCert.value.issuer == ca.key
      && d.leafCert.value.notBefore <= now && ca.notBefore <= now <= ca.notAfter
  {
    var ca := CAAfter(d, names, now, next).0;
    assert ca.names == names;
    if d.leafCert.Holds? && d.leafCert.value.names == names {
      OwnNamesPermitted(ca, d.leafCert.value);
    }
  }

  lemma OwnNamesPermitted(ca: Cert, leaf: Cert)
    requires leaf.names == ca.names
    ensures Permits(ca, leaf)
  {
    forall n | n in leaf.names
      ensures exists c | c in ca.names :: Admits(c, n)
    {
      assert Admits(n, n);
    }
  }

  /** How long what a check writes is good for: a leaf from an hour ago for 90 days, or to
      its CA's end if that comes first, and a CA for ten years, each up to the second that
      encoding drops. */
  lemma NewCertificatesAreDated(d: Disk, names: seq<string>, now: int, next: nat)
    requires Issued(d, now) && Unused(d, next) && !Refuses(d, names, now, next)
    ensures
      var d' := Ensured(d, names, now, next);
      && d'.caCert.Holds? && d'.leafCert.Holds?
      && var ca, leaf := d'.caCert.value, d'.leafCert.value;
      && (d'.leafCert != d.leafCert ==>
            && now - HOUR - SECOND < leaf.notBefore <= now - HOUR
            && leaf.notAfter <= now + LEAF_VALIDITY
            && (leaf.notAfter > now + LEAF_VALIDITY - SECOND || leaf.notAfter == ca.notAfter))
      && (d'.caCert != d.caCert ==>
            && now - HOUR - SECOND < ca.notBefore <= now - HOUR
            && now + CA_VALIDITY - SECOND < ca.notAfter <= now + CA_VALIDITY)
  {
    EncodedBounds(now - HOUR);
    EncodedBounds(now + CA_VALIDITY);
    EncodedBounds(now + LEAF_VALIDITY);
    var ca := CAAfter(d, names, now, next).0;
    EncodedBounds(ca.notAfter);
  }

  /** A new leaf has a key of its own and is signed by the CA on disk, and so is a new CA
      by itself. */
  lemma NewKeysAreNew(d: Disk, names: seq<string>, now: int, next: nat)
    requires Unused(d, next) && !Refuses(d, names, now, next)
    ensures
      var d' := Ensured(d, names, now, next);
      && d'.caCert.Holds? && d'.leafCert.Holds?
      && (d'.leafCert != d.leafCert ==>
            && d'.leafCert.value.key >= next && d'.leafKey == Holds(d'.leafCert.value.key)
            && d'.leafCert.value.issuer == d'.caCert.value.key != d'.leafCert.value.key
            && d'.leafCert.value.names == names)
      && (d'.caCert != d.caCert ==>
            && d'.caCert.value.key >= next && d'.caKey == Holds(d'.caCert.value.key)
            && d'.caCert.value.issuer == d'.caCert.value.key && d'.caCert.value.names == names)
  {
  }

  /** A check writes nothing exactly when all is healthy. */
  lemma WritesNothingIff(d: Disk, names: seq<string>, now: int, next: nat)
    requires Issued(d, now) && Unused(d, next) && !Refuses(d, names, now, next)
    ensures Ensured(d, names, now, next) == d <==> Healthy(d, names, now)
  {
  }

  /** So checking twice is checking once. */
  lemma EnsureTwice(d: Disk, names: seq<string>, now: int, next: nat, later: nat)
    requires Issued(d, now) && Unused(d, next) && !Refuses(d, names, now, next)
    ensures
      var d' := Ensured(d, names, now, next);
      !Refuses(d', names, now, later) && Ensured(d', names, now, later) == d'
  {
  }

  /** Without a fault of its own a check fails exactly for no hostnames, a CA that cannot be
      read, and a CA that is not due but has another one's key. */
  lemma RefusesIff(d: Disk, names: seq<string>, now: int, next: nat)
    requires Issued(d, now)
    ensures Refuses(d, names, now, next)
       <==> names == [] || Load(d).Unreadable? || (Mismatched(d) && !MakesCA(d, names, now))
  {
  }

  /** What a crash between the CA's two renames costs: where a key lay before, every later
      check for the same hostnames fails until the new CA is due; where there was none, the
      next check makes another CA. */
  lemma HalfWrittenCAIff(d: Disk, names: seq<string>, now: int, next: nat, later: int, next': nat)
    requires names != [] && now <= later && Issued(d, now) && Unused(d, next) && MakesCA(d, names, now)
    ensures
      var d' := HalfCA(d, names, now, next);
      && Issued(d', later)
      && (Refuses(d', names, later, next') <==>
            !d.caKey.Missing? && (d.caKey.Holds? ==> !Expires(NewCA(next, names, now), later)))
  {
    var d' := HalfCA(d, names, now, next);
    EncodedBounds(now - HOUR);
    EncodedBounds(now + CA_VALIDITY);
    assert d.caKey.Holds? ==> Mismatched(d');
    RefusesIff(d', names, later, next');
  }

  /** A renamed host whose check dies between the two renames of its new CA: the next day's
      check, and any other for years, fails. */
  lemma RenamedHostIsStuck(was: seq<string>, names: seq<string>, now: int, days: nat)
    returns (d: Disk, left: Disk)
    requires was != names && names != [] && days < 3619
    ensures !Refuses(d, names, now, 1) && Load(d) == Found(NewCA(0, was, now), 0)
    ensures Stopped(d, names, now, 1, left) && Refuses(left, names, now + days * DAY, 2)
  {
    d := Disk(Holds(NewCA(0, was, now)), Holds(0), Missing, Missing);
    left := HalfCA(d, names, now, 1);
    EncodedBounds(now - HOUR);
    EncodedBounds(now + CA_VALIDITY);
    HalfWrittenCAIff(d, names, now, 1, now + days * DAY, 2);
  }

  /** The user is told to trust again exactly when a CA that could be read was replaced,
      and the reason is the hostnames when they differ. A CA with a file missing is
      replaced without a word, as on a first run. */
  lemma RegenerationIsReported(d: Disk, names: seq<string>, now: int, next: nat)
    requires Unused(d, next) && !Refuses(d, names, now, next)
    ensures
      var reason, d' := CAAfter(d, names, now, next).2, Ensured(d, names, now, next);
      && (reason != Kept <==> Load(d).Found? && d'.caCert != d.caCert)
      && (reason == Hostnames <==> Load(d).Found? && Load(d).cert.names != names)
      && (Load(d).Absent? ==> reason == Kept && d'.caCert != d.caCert)
  {
  }

  /** Exactly when a CA certificate on disk is replaced without a report: its key is
      missing, so that nothing is loaded. */
  lemma SilentlyReplacedIff(d: Disk, names: seq<string>, now: int, next: nat)
    requires Unused(d, next) && !Refuses(d, names, now, next)
    ensures
      var d', reason := Ensured(d, names, now, next), CAAfter(d, names, now, next).2;
      (d.caCert.Holds? && d'.caCert != d.caCert && reason == Kept) <==> d.caCert.Holds? && Load(d).Absent?
    ensures d.caCert.Holds? && Load(d).Absent? <==> d.caCert.Holds? && d.caKey.Missing?
  {
    RegenerationIsReported(d, names, now, next);
  }

  /** A healthy CA whose key file was lost is such a one. */
  lemma LostKeyReplacesSilently(names: seq<string>, now: int) returns (d: Disk, d': Disk)
    requires names != []
    ensures d.caCert == Holds(NewCA(0, names, now)) && d.caKey.Missing? && !Expires(d.caCert.value, now)
    ensures !Refuses(d, names, now, 1) && d' == Ensured(d, names, now, 1)
    ensures d'.caCert == Holds(NewCA(1, names, now)) && CAAfter(d, names, now, 1).2 == Kept
  {
    d := Disk(Holds(NewCA(0, names, now)), Missing, Missing, Missing);
    d' := Ensured(d, names, now, 1);
    EncodedBounds(now + CA_VALIDITY);
  }

  /** A leaf clamped to its CA's end is never due for age before the CA is: no reissuing
      loop in the CA's last month. */
  lemma ClampedLeafWaitsForCA(d: Disk, names: seq<string>, now: int, next: nat)
    requires Issued(d, now) && Unused(d, next) && !Refuses(d, names, now, next)
    requires Load(d).Found? && d.leafCert.Holds? && d.leafCert.value.notAfter == Load(d).cert.notAfter
    requires Ages(d.leafCert.value, now)
    ensures MakesCA(d, names, now)
  {
  }

  /** A crash between the leaf's two renames is seen by the next check, which replaces
      both files. */
  lemma HalfWrittenLeafIsReplaced(d: Disk, names: seq<string>, now: int, next: nat)
    requires Issued(d, now) && Unused(d, next) && !Refuses(d, names, now, next)
    requires d.leafCert.Holds? && d.leafKey.Holds? && d.leafKey.value != d.leafCert.value.key
    ensures
      var d' := Ensured(d, names, now, next);
      Healthy(d', names, now) && d'.leafCert.value.key >= next && d'.leafKey != d.leafKey
  {
  }
}

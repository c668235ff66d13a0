/**
 * Moving a certificate authority into the canonical state: a marker names the source before the first file is
 * copied and goes away after the last check, so a migration stopped anywhere is resumed from the same source.
 */
module CaMigration {
  import opened Wrappers
  import Sequences
  import Sorting
  import Text

  type Namespace = string
  type Content = string

  datatype Installation = Installation(
    namespace: Namespace,
    installedAt: string,
    key: Option<Content>,
    certificate: Option<Content>)

  /** The canonical state directory: the migration marker and the two files of the authority. */
  datatype Disk = Disk(marker: Option<Namespace>, key: Option<Content>, certificate: Option<Content>)

  /**
   * How checks answer in one run: which sources could be read, which are trusted, and which keys and certificates
   * make a valid authority together. The same check is made of a source and of the canonical pair.
   */
  datatype Checks = Checks(
    readable: set<Namespace>,
    trust: Option<set<Namespace>>,
    pairs: set<(Content, Content)>)

  predicate Paired(key: Option<Content>, certificate: Option<Content>, o: Checks) {
    key.Some? && certificate.Some? && (key.value, certificate.value) in o.pairs
  }

  predicate Complete(i: Installation) {
    i.key.Some? && i.certificate.Some?
  }

  predicate Usable(i: Installation, o: Checks) {
    Complete(i) && i.namespace in o.readable && Paired(i.key, i.certificate, o)
  }

  /** A usable source is taken at once when it is named by the marker, trusted, or trust is not asked for. */
  predicate Preferred(i: Installation, marker: Option<Namespace>, o: Checks) {
    Usable(i, o) && (marker.Some? || o.trust.None? || i.namespace in o.trust.value)
  }

  predicate Newer(a: Installation, b: Installation) {
    Text.Compare(b.installedAt, a.installedAt) < 0
  }

  function Candidates(sources: seq<Installation>): seq<Installation> {
    Sorting.Sort(sources, Newer)
  }

  /** No two installations share a namespace. */
  predicate Distinct(sources: seq<Installation>) {
    forall i, j :: 0 <= i < j < |sources| ==> sources[i].namespace != sources[j].namespace
  }

  // ----- Which source is chosen -----

  predicate Named(i: Installation, marker: Option<Namespace>) {
    marker.Some? ==> i.namespace == marker.value
  }

  /** The index of the first element with the property, if there is one. */
  function First(xs: seq<Installation>, p: Installation -> bool): (r: Option<nat>)
    ensures r.Some? ==> r.value < |xs| && p(xs[r.value]) && forall i :: 0 <= i < r.value ==> !p(xs[i])
    ensures r.None? ==> forall i :: 0 <= i < |xs| ==> !p(xs[i])
  {
    if xs == [] then None
    else if p(xs[0]) then Some(0)
    else match First(xs[1..], p) case None => None case Some(i) => Some(i + 1)
  }

  /** The first preferred candidate; without a marker, failing that, the first usable one. */
  function Selected(candidates: seq<Installation>, marker: Option<Namespace>, o: Checks): Result<Option<Installation>, string> {
    var best := First(candidates, i => Named(i, marker) && Preferred(i, marker, o));
    var usable := First(candidates, i => Named(i, marker) && Usable(i, o));
    if best.Some? then Ok(Some(candidates[best.value]))
    else if marker.Some? then Err("the marked source is unavailable")
    else if usable.Some? then Ok(Some(candidates[usable.value]))
    else Ok(None)
  }

  method SelectAuthoritySource(candidates: seq<Installation>, marker: Option<Namespace>, o: Checks)
    returns (r: Result<Option<Installation>, string>)
    ensures r == Selected(candidates, marker, o)
  {
    var firstValidated: Option<Installation> := None;
    var i := 0;
    while i < |candidates|
      invariant 0 <= i <= |candidates|
      invariant forall j :: 0 <= j < i ==> !(Named(candidates[j], marker) && Preferred(candidates[j], marker, o))
      invariant firstValidated.None? ==> forall j :: 0 <= j < i ==> !(Named(candidates[j], marker) && Usable(candidates[j], o))
      invariant firstValidated.Some? ==>
                  exists j :: 0 <= j < i && firstValidated == Some(candidates[j])
                              && Named(candidates[j], marker) && Usable(candidates[j], o)
                              && forall k :: 0 <= k < j ==> !(Named(candidates[k], marker) && Usable(candidates[k], o))
    {
      var installation := candidates[i];
      if (marker.Some? && installation.namespace != marker.value)
         || !Complete(installation)
         || installation.namespace !in o.readable || !Paired(installation.key, installation.certificate, o)
      {
        i := i + 1;
        continue;
      }
      if firstValidated.None? {
        firstValidated := Some(installation);
      }
      if marker.Some? || o.trust.None? || installation.namespace in o.trust.value {
        return Ok(Some(installation));
      }
      i := i + 1;
    }
    if marker.Some? {
      return Err("the marked source is unavailable");
    }
    return Ok(firstValidated);
  }

  lemma NewerIsPreorder(sources: seq<Installation>)
    ensures Sorting.Preorder(Newer, sources)
  {
    forall x, y | Newer(x, y) ensures !Newer(y, x) {
      Text.CompareIsOrder(y.installedAt, x.installedAt, x.installedAt);
    }
    forall x, y, z | Newer(x, z) ensures Newer(x, y) || Newer(y, z) {
      Text.CompareIsOrder(x.installedAt, y.installedAt, z.installedAt);
      Text.CompareIsOrder(z.installedAt, x.installedAt, x.installedAt);
      Text.CompareIsOrder(y.installedAt, x.installedAt, x.installedAt);
      Text.CompareIsOrder(z.installedAt, y.installedAt, y.installedAt);
    }
  }

  /** The place of the chosen candidate: nothing better stands before it. */
  lemma ChosenPlace(cs: seq<Installation>, marker: Option<Namespace>, o: Checks, chosen: Installation) returns (at: nat)
    requires Selected(cs, marker, o) == Ok(Some(chosen))
    ensures at < |cs| && cs[at] == chosen && Named(chosen, marker) && Usable(chosen, o)
    ensures forall j :: 0 <= j < |cs| && Named(cs[j], marker) && Preferred(cs[j], marker, o) ==>
              at <= j && Preferred(chosen, marker, o)
    ensures !Preferred(chosen, marker, o) ==> forall j :: 0 <= j < |cs| && Named(cs[j], marker) && Usable(cs[j], o) ==> at <= j
  {
    var best := First(cs, i => Named(i, marker) && Preferred(i, marker, o));
    var usable := First(cs, i => Named(i, marker) && Usable(i, o));
    at := if best.Some? then best.value else usable.value;
  }

  /** Both files are there, they could be read, and they make a valid authority. */
  ghost predicate Validates(i: Installation, o: Checks) {
    && i.key.Some? && i.certificate.Some? && i.namespace in o.readable
    && (i.key.value, i.certificate.value) in o.pairs
  }

  /** Trust is asked for only without a marker, and only if there is somebody to ask. */
  ghost predicate Trusted(i: Installation, marker: Option<Namespace>, o: Checks) {
    marker.Some? || o.trust.None? || i.namespace in o.trust.value
  }

  lemma NewerMeans(a: Installation, b: Installation)
    ensures Newer(a, b) <==> Text.ComesAfter(a.installedAt, b.installedAt)
  {
    Text.CompareIsOrder(a.installedAt, b.installedAt, a.installedAt);
    Text.CompareMeans(a.installedAt, b.installedAt);
  }

  /**
   * What selection means: a source that validates; the marked one if a marker is there; otherwise no trusted source
   * was installed later, and if it is not trusted itself then none is trusted and none that validates is later.
   */
  lemma SelectedIsNewest(
      sources: seq<Installation>, marker: Option<Namespace>, o: Checks, chosen: Installation, other: Installation)
    requires Selected(Candidates(sources), marker, o) == Ok(Some(chosen))
    requires other in sources && (marker.Some? ==> other.namespace == marker.value) && Validates(other, o)
    ensures chosen in sources && (marker.Some? ==> chosen.namespace == marker.value) && Validates(chosen, o)
    ensures Trusted(other, marker, o) ==>
              Trusted(chosen, marker, o) && !Text.ComesAfter(other.installedAt, chosen.installedAt)
    ensures !Trusted(chosen, marker, o) ==> !Text.ComesAfter(other.installedAt, chosen.installedAt)
  {
    NewerIsPreorder(sources);
    Sorting.SortOrders(sources, Newer);
    var cs := Candidates(sources);
    var at := ChosenPlace(cs, marker, o, chosen);
    assert cs[at] in cs && other in cs;
    var j :| 0 <= j < |cs| && cs[j] == other;
    NewerMeans(other, chosen);
    hide Selected, Newer;
    assert at < j ==> !Newer(cs[j], cs[at]);
    assert at == j ==> other == chosen;
    assert !Newer(chosen, chosen);
  }

  /** Nothing is selected without an error exactly when no source validates and no marker asks for one. */
  lemma NothingSelected(sources: seq<Installation>, marker: Option<Namespace>, o: Checks)
    ensures Selected(Candidates(sources), marker, o) == Ok(None) <==>
            marker.None? && forall i :: i in sources ==> !Validates(i, o)
    ensures Selected(Candidates(sources), marker, o).Err? <==>
            marker.Some? && forall i :: i in sources && i.namespace == marker.value ==> !Validates(i, o)
  {
    Sorting.SortOrders(sources, Newer);
    var cs := Candidates(sources);
    var best := First(cs, i => Named(i, marker) && Preferred(i, marker, o));
    var usable := First(cs, i => Named(i, marker) && Usable(i, o));
    if usable.Some? {
      assert cs[usable.value] in cs;
    }
    if best.Some? {
      assert cs[best.value] in cs;
    }
    forall i | i in sources ensures exists j :: 0 <= j < |cs| && cs[j] == i {
      assert i in cs;
    }
  }

  // ----- One run, which may stop after any of its writes -----

  function MissingKey(d: Disk, source: Installation): seq<Disk> {
    if d.key.None? then [d.(key := source.key)] else []
  }

  function MissingCertificate(d: Disk, source: Installation): seq<Disk> {
    if d.certificate.None? then [d.(certificate := source.certificate)] else []
  }

  /** Both files: what was there is kept, what was missing is the source's. */
  function Filled(d: Disk, source: Installation): Disk {
    d.(key := if d.key.Some? then d.key else source.key,
       certificate := if d.certificate.Some? then d.certificate else source.certificate)
  }

  /** The marker goes away once the canonical pair passed the check. */
  function Unmarking(d: Disk, o: Checks): seq<Disk> {
    if Paired(d.key, d.certificate, o) then [d.(marker := None)] else []
  }

  /** The disk after each write, given that the marker is there. */
  function Copies(d: Disk, source: Installation, o: Checks): seq<Disk> {
    MissingKey(d, source)
    + MissingCertificate(Left(d, MissingKey(d, source), 1), source)
    + Unmarking(Filled(d, source), o)
  }

  /** First the marker unless it is there, then the copies. */
  function Writes(d: Disk, source: Installation, o: Checks): seq<Disk> {
    if d.marker.Some? then
      Copies(d, source, o)
    else
      var marked := d.(marker := Some(source.namespace));
      [marked] + Copies(marked, source, o)
  }

  /** The disk after each write of a run that nothing stops. */
  function Plan(d: Disk, sources: seq<Installation>, o: Checks): seq<Disk> {
    if d.marker.None? && d.key.Some? && d.certificate.Some? then
      []
    else
      match Selected(Candidates(sources), d.marker, o)
      case Err(_) => []
      case Ok(None) => []
      case Ok(Some(source)) => Writes(d, source, o)
  }

  /** A run that stops after `writes` writes leaves this. */
  function Left(d: Disk, plan: seq<Disk>, writes: nat): Disk {
    if writes == 0 || plan == [] then d
    else if writes <= |plan| then plan[writes - 1]
    else plan[|plan| - 1]
  }

  /** Of the planned writes as many were made as the process had left: the disk, the past and what is left now. */
  ghost predicate Made(
      before: Disk, pastBefore: seq<Disk>, writesBefore: nat, plan: seq<Disk>, after: Disk, past: seq<Disk>, writesLeft: nat)
  {
    var n := if writesBefore < |plan| then writesBefore else |plan|;
    after == Left(before, plan, n) && past == pastBefore + plan[..n] && writesLeft == writesBefore - n
  }

  lemma MadeAll(d: Disk, p: seq<Disk>, w: nat, plan: seq<Disk>, d1: Disk, p1: seq<Disk>, w1: nat)
    requires Made(d, p, w, plan, d1, p1, w1) && w >= |plan|
    ensures d1 == Left(d, plan, |plan|) && w1 == w - |plan|
  {
  }

  lemma MadeBoth(
      d: Disk, p: seq<Disk>, w: nat, first: seq<Disk>, d1: Disk, p1: seq<Disk>, w1: nat,
      second: seq<Disk>, d2: Disk, p2: seq<Disk>, w2: nat)
    requires Made(d, p, w, first, d1, p1, w1) && w >= |first| && Made(d1, p1, w1, second, d2, p2, w2)
    ensures Made(d, p, w, first + second, d2, p2, w2)
  {
    var n := if w1 < |second| then w1 else |second|;
    assert (first + second)[..|first| + n] == first + second[..n];
    assert first[..|first|] == first;
    assert p + first + second[..n] == p + (first + second[..n]);
  }

  lemma MadeCut(
      d: Disk, p: seq<Disk>, w: nat, first: seq<Disk>, second: seq<Disk>, d1: Disk, p1: seq<Disk>, w1: nat)
    requires Made(d, p, w, first, d1, p1, w1) && w < |first|
    ensures Made(d, p, w, first + second, d1, p1, w1)
  {
    assert (first + second)[..w] == first[..w];
  }

  /** What a run that is not stopped returns; the canonical authority is checked after both files are there. */
  function Returned(d: Disk, sources: seq<Installation>, o: Checks): Result<Option<Namespace>, string> {
    if d.marker.None? && d.key.Some? && d.certificate.Some? then
      Ok(None)
    else
      match Selected(Candidates(sources), d.marker, o)
      case Err(e) => Err(e)
      case Ok(None) => if d.key.Some? != d.certificate.Some? then Err("incomplete authority") else Ok(None)
      case Ok(Some(source)) =>
        var pair := Filled(d, source);
        if Paired(pair.key, pair.certificate, o) then Ok(Some(source.namespace)) else Err("invalid authority")
  }

  datatype Attempt = Attempt(sources: seq<Installation>, checks: Checks, writes: nat)

  function After(d: Disk, attempts: seq<Attempt>): Disk {
    if attempts == [] then
      d
    else
      var before, a := After(d, attempts[..|attempts| - 1]), attempts[|attempts| - 1];
      Left(before, Plan(before, a.sources, a.checks), a.writes)
  }

  const EMPTY: Disk := Disk(None, None, None)

  /** Files that are there equal those of the source. */
  predicate Matches(d: Disk, source: Installation) {
    Complete(source) && (d.key.Some? ==> d.key == source.key) && (d.certificate.Some? ==> d.certificate == source.certificate)
  }

  /** The files equal those of the marked source; without a marker they are both absent or both of one source. */
  ghost predicate Consistent(d: Disk, sources: seq<Installation>) {
    if d.marker.Some? then
      exists i :: 0 <= i < |sources| && sources[i].namespace == d.marker.value && Matches(d, sources[i])
    else
      (d.key.None? && d.certificate.None?)
      || (d.key.Some? && d.certificate.Some? && exists i :: 0 <= i < |sources| && Matches(d, sources[i]))
  }

  lemma SelectedIsASource(sources: seq<Installation>, marker: Option<Namespace>, o: Checks)
    requires Selected(Candidates(sources), marker, o).Ok? && Selected(Candidates(sources), marker, o).value.Some?
    ensures var source := Selected(Candidates(sources), marker, o).value.value;
            source in sources && Usable(source, o) && Named(source, marker)
  {
    Sorting.SortOrders(sources, Newer);
    var cs := Candidates(sources);
    var best := First(cs, i => Named(i, marker) && Preferred(i, marker, o));
    var usable := First(cs, i => Named(i, marker) && Usable(i, o));
    assert cs[if best.Some? then best.value else usable.value] in cs;
  }

  lemma MarkedIsConsistent(d: Disk, sources: seq<Installation>, source: Installation)
    requires source in sources && Matches(d, source)
    requires d.marker == Some(source.namespace) || (d.marker.None? && d.key.Some? && d.certificate.Some?)
    ensures Consistent(d, sources)
  {
    var i :| 0 <= i < |sources| && sources[i] == source;
  }

  /** Before the first write the disk agrees with the source that is chosen. */
  lemma ChosenMatches(d: Disk, sources: seq<Installation>, source: Installation)
    requires Distinct(sources) && Consistent(d, sources) && source in sources && Complete(source)
    requires !(d.marker.None? && d.key.Some? && d.certificate.Some?)
    requires d.marker.Some? ==> source.namespace == d.marker.value
    ensures Matches(d, source)
  {
    if d.marker.Some? {
      var i :| 0 <= i < |sources| && sources[i].namespace == d.marker.value && Matches(d, sources[i]);
      var j :| 0 <= j < |sources| && sources[j] == source;
      assert i == j;
    }
  }

  lemma CopiesKeepMatching(d: Disk, sources: seq<Installation>, source: Installation, o: Checks, k: nat)
    requires source in sources && Matches(d, source) && d.marker == Some(source.namespace) && k < |Copies(d, source, o)|
    ensures Consistent(Copies(d, source, o)[k], sources)
  {
    MarkedIsConsistent(Copies(d, source, o)[k], sources, source);
  }

  /** Wherever a run is stopped, the disk is consistent. */
  lemma RunKeepsConsistent(d: Disk, sources: seq<Installation>, o: Checks, writes: nat)
    requires Distinct(sources) && Consistent(d, sources)
    ensures Consistent(Left(d, Plan(d, sources, o), writes), sources)
  {
    var plan := Plan(d, sources, o);
    if plan != [] && writes > 0 {
      SelectedIsASource(sources, d.marker, o);
      var source := Selected(Candidates(sources), d.marker, o).value.value;
      ChosenMatches(d, sources, source);
      var at := if writes <= |plan| then writes - 1 else |plan| - 1;
      var marked := d.(marker := Some(source.namespace));
      if d.marker.Some? {
        CopiesKeepMatching(d, sources, source, o, at);
      } else if at == 0 {
        MarkedIsConsistent(marked, sources, source);
      } else {
        CopiesKeepMatching(marked, sources, source, o, at - 1);
      }
    }
  }

  predicate SameSources(attempts: seq<Attempt>, sources: seq<Installation>) {
    forall i :: 0 <= i < |attempts| ==> attempts[i].sources == sources
  }

  /**
   * Starting from nothing, after any number of runs each stopped anywhere, the files that are there are those
   * of the marked source, and without a marker both are absent or both are those of one source.
   */
  lemma {:induction false} CrashesAreResumable(sources: seq<Installation>, attempts: seq<Attempt>)
    requires Distinct(sources) && SameSources(attempts, sources)
    ensures Consistent(After(EMPTY, attempts), sources)
    decreases |attempts|
  {
    if attempts != [] {
      var before := attempts[..|attempts| - 1];
      CrashesAreResumable(sources, before);
      var a := attempts[|attempts| - 1];
      RunKeepsConsistent(After(EMPTY, before), sources, a.checks, a.writes);
    }
  }

  /** A run that finishes leaves exactly the pair of the source it names, which is the marked one if any. */
  lemma FinishedRunLeavesOnePair(d: Disk, sources: seq<Installation>, o: Checks, writes: nat)
    requires Distinct(sources) && Consistent(d, sources)
    requires Returned(d, sources, o).Ok? && Returned(d, sources, o).value.Some? && writes >= |Plan(d, sources, o)|
    ensures var n := Returned(d, sources, o).value.value;
            var after := Left(d, Plan(d, sources, o), writes);
            && (d.marker.Some? ==> n == d.marker.value)
            && exists i :: 0 <= i < |sources| && sources[i].namespace == n && Validates(sources[i], o)
                           && after == Disk(None, sources[i].key, sources[i].certificate)
  {
    SelectedIsASource(sources, d.marker, o);
    var source := Selected(Candidates(sources), d.marker, o).value.value;
    ChosenMatches(d, sources, source);
    var i :| 0 <= i < |sources| && sources[i] == source;
    assert Left(d, Plan(d, sources, o), writes) == Disk(None, source.key, source.certificate);
  }

  /**
   * A run that starts on a consistent disk and finds a source runs to the end: the source's own pair passed the
   * check, so the canonical copy passes it as well.
   */
  lemma ConsistentRunSucceeds(d: Disk, sources: seq<Installation>, o: Checks, source: Installation)
    requires Distinct(sources) && Consistent(d, sources)
    requires d.marker.Some? || d.key.None? || d.certificate.None?
    requires Selected(Candidates(sources), d.marker, o) == Ok(Some(source))
    ensures Returned(d, sources, o) == Ok(Some(source.namespace))
  {
    SelectedIsASource(sources, d.marker, o);
    ChosenMatches(d, sources, source);
  }

  /**
   * From an incomplete disk of any origin, say one with a key of nobody's: a finished run has kept what was there and
   * copied the rest. If the two make a pair, it succeeds without a marker; if not, it fails and the marker stays.
   */
  lemma MixedPairIsJudged(d: Disk, sources: seq<Installation>, o: Checks, source: Installation)
    requires d.marker.None? && (d.key.None? || d.certificate.None?)
    requires Selected(Candidates(sources), None, o) == Ok(Some(source))
    ensures var plan := Plan(d, sources, o);
            var end := Left(d, plan, |plan|);
            && end.key.Some? && end.key == (if d.key.Some? then d.key else source.key)
            && end.certificate.Some? && end.certificate == (if d.certificate.Some? then d.certificate else source.certificate)
            && (if (end.key.value, end.certificate.value) in o.pairs then
                  end.marker.None? && Returned(d, sources, o) == Ok(Some(source.namespace))
                else
                  end.marker == Some(source.namespace) && Returned(d, sources, o).Err?)
  {
    SelectedIsASource(sources, d.marker, o);
  }

  /** Such a rejected pair is never repaired: every later run that judges it the same way fails and writes nothing. */
  lemma {:induction false} RejectedPairStays(d: Disk, attempts: seq<Attempt>)
    requires d.marker.Some? && d.key.Some? && d.certificate.Some?
    requires forall i :: 0 <= i < |attempts| ==> (d.key.value, d.certificate.value) !in attempts[i].checks.pairs
    ensures After(d, attempts) == d
    ensures forall i :: 0 <= i < |attempts| ==> Returned(d, attempts[i].sources, attempts[i].checks).Err?
    decreases |attempts|
  {
    hide Selected, Candidates;
    forall i | 0 <= i < |attempts| ensures Returned(d, attempts[i].sources, attempts[i].checks).Err? {
      SelectedWithMarker(attempts[i].sources, d.marker, attempts[i].checks);
    }
    if attempts != [] {
      RejectedPairStays(d, attempts[..|attempts| - 1]);
      var a := attempts[|attempts| - 1];
      assert Plan(d, a.sources, a.checks) == [];
    }
  }

  lemma SelectedWithMarker(sources: seq<Installation>, marker: Option<Namespace>, o: Checks)
    requires marker.Some?
    ensures Selected(Candidates(sources), marker, o) != Ok(None)
  {
  }

  // ----- The migration as it is written -----

  class CanonicalAuthority {
    var marker: Option<Namespace>
    var key: Option<Content>
    var certificate: Option<Content>
    /** How many more writes happen before the process is stopped. */
    var writesLeft: nat
    /** The disk after each write so far. */
    ghost var past: seq<Disk>

    ghost function State(): Disk
      reads this
    {
      Disk(marker, key, certificate)
    }

    constructor (d: Disk, writes: nat)
      ensures State() == d && writesLeft == writes && past == []
    {
      marker, key, certificate, writesLeft, past := d.marker, d.key, d.certificate, writes, [];
    }

    /** One atomic change of the disk, unless the process is stopped first. */
    method Write(d: Disk) returns (done: bool)
      modifies this
      ensures done == (old(writesLeft) > 0)
      ensures done ==> State() == d && past == old(past) + [d] && writesLeft == old(writesLeft) - 1
      ensures !done ==> State() == old(State()) && past == old(past) && writesLeft == 0
    {
      if writesLeft == 0 {
        return false;
      }
      marker, key, certificate := d.marker, d.key, d.certificate;
      past := past + [d];
      writesLeft := writesLeft - 1;
      return true;
    }

    method CopyMissingKey(source: Installation) returns (done: bool)
      modifies this
      ensures Made(old(State()), old(past), old(writesLeft), MissingKey(old(State()), source), State(), past, writesLeft)
      ensures done <==> old(writesLeft) >= |MissingKey(old(State()), source)|
    {
      done := true;
      if key.None? {
        done := Write(Disk(marker, source.key, certificate));
      }
    }

    method CopyMissingCertificate(source: Installation) returns (done: bool)
      modifies this
      ensures Made(old(State()), old(past), old(writesLeft), MissingCertificate(old(State()), source),
                   State(), past, writesLeft)
      ensures done <==> old(writesLeft) >= |MissingCertificate(old(State()), source)|
    {
      done := true;
      if certificate.None? {
        done := Write(Disk(marker, key, source.certificate));
      }
    }

    /** The canonical pair passes the same check as a source; then the marker goes away. */
    method CheckAndUnmark(o: Checks) returns (done: bool)
      modifies this
      ensures Made(old(State()), old(past), old(writesLeft), Unmarking(old(State()), o), State(), past, writesLeft)
      ensures done <==> Paired(old(key), old(certificate), o) && old(writesLeft) >= |Unmarking(old(State()), o)|
    {
      done := Paired(key, certificate, o);
      if done {
        done := Write(Disk(None, key, certificate));
      }
    }

    method CopyAuthority(source: Installation, o: Checks) returns (finished: bool)
      modifies this
      ensures Made(old(State()), old(past), old(writesLeft), Copies(old(State()), source, o), State(), past, writesLeft)
      ensures var pair := Filled(old(State()), source);
              finished <==> Paired(pair.key, pair.certificate, o)
                            && old(writesLeft) >= |Copies(old(State()), source, o)|
    {
      hide Made, Unmarking;
      ghost var d0, p0, w0, d1 := State(), past, writesLeft, Left(State(), MissingKey(State(), source), 1);
      ghost var keys, certificates := MissingKey(d0, source), MissingCertificate(d1, source);
      ghost var unmark := Unmarking(Filled(d0, source), o);
      finished := CopyMissingKey(source);
      if finished {
        MadeAll(d0, p0, w0, keys, State(), past, writesLeft);
        ghost var s1, p1, w1 := State(), past, writesLeft;
        finished := CopyMissingCertificate(source);
        MadeBoth(d0, p0, w0, keys, s1, p1, w1, certificates, State(), past, writesLeft);
        if finished {
          MadeAll(s1, p1, w1, certificates, State(), past, writesLeft);
          ghost var s2, p2, w2 := State(), past, writesLeft;
          finished := CheckAndUnmark(o);
          MadeBoth(d0, p0, w0, keys + certificates, s2, p2, w2, unmark, State(), past, writesLeft);
        } else {
          MadeCut(d0, p0, w0, keys + certificates, unmark, State(), past, writesLeft);
        }
      } else {
        MadeCut(d0, p0, w0, keys, certificates, State(), past, writesLeft);
        MadeCut(d0, p0, w0, keys + certificates, unmark, State(), past, writesLeft);
      }
    }

    method MarkAndCopy(source: Installation, o: Checks) returns (finished: bool)
      modifies this
      ensures Made(old(State()), old(past), old(writesLeft), Writes(old(State()), source, o), State(), past, writesLeft)
      ensures var pair := Filled(old(State()), source);
              finished <==> Paired(pair.key, pair.certificate, o)
                            && old(writesLeft) >= |Writes(old(State()), source, o)|
    {
      hide Copies;
      if marker.None? {
        ghost var d0, p0, w0 := State(), past, writesLeft;
        var marked := Disk(Some(source.namespace), key, certificate);
        var done := Write(marked);
        if !done {
          assert Made(d0, p0, w0, [marked], State(), past, writesLeft);
          MadeCut(d0, p0, w0, [marked], Copies(marked, source, o), State(), past, writesLeft);
          return false;
        }
        assert Made(d0, p0, w0, [marked], State(), past, writesLeft);
        ghost var p1, w1 := past, writesLeft;
        hide Made;
        finished := CopyAuthority(source, o);
        MadeBoth(d0, p0, w0, [marked], marked, p1, w1, Copies(marked, source, o), State(), past, writesLeft);
      } else {
        hide Made;
        finished := CopyAuthority(source, o);
      }
    }

    method MigrateAuthority(sources: seq<Installation>, o: Checks) returns (r: Result<Option<Namespace>, string>)
      requires past == []
      modifies this
      ensures var all := Plan(old(State()), sources, o);
              var n := if old(writesLeft) < |all| then old(writesLeft) else |all|;
              && past == all[..n]
              && State() == Left(old(State()), all, old(writesLeft))
              && (if n < |all| then r.Err? else r == Returned(old(State()), sources, o))
    {
      if key.Some? && certificate.Some? && marker.None? {
        return Ok(None);
      }
      var selected := SelectAuthoritySource(Candidates(sources), marker, o);
      if selected.Err? {
        return Err(selected.error);
      }
      if selected.value.None? {
        return if certificate.Some? != key.Some? then Err("incomplete authority") else Ok(None);
      }
      var source := selected.value.value;
      hide Selected, Candidates, Writes;
      var finished := MarkAndCopy(source, o);
      if !finished {
        return Err(if !Paired(key, certificate, o) then "invalid authority" else "stopped");
      }
      return Ok(Some(source.namespace));
    }
  }
}

/**
 * The plugin's startup lifecycle: adopt the one service that has routes, or else converge on the canonical
 * service, from the newest compatible runtime found when the change is about to be made.
 */
module Lifecycle {
  import opened Wrappers
  import ServiceVersion
  import Sorting
  import Text

  /** Version 2 records name the package and protocol they run, and whether their installation finished. */
  datatype Recorded = Version1 | Version2(packageVersion: string, protocolVersion: int, installed: bool)

  datatype Installation = Installation(
    namespace: string,
    installedAt: string,
    controlSocket: Option<string>,
    recorded: Recorded)

  datatype Status = Status(running: bool, activeRoutes: nat, protocolVersion: Option<int>, compatible: bool)

  datatype Inspected = Inspected(installation: Installation, status: Status)

  /** One look at the machine: the canonical installation, the legacy ones, and the invalid records. */
  datatype Observation = Observation(canonical: Option<Inspected>, legacy: seq<Inspected>, invalid: nat)

  /** The version of this package and the control protocol it speaks. */
  datatype Package = Package(version: string, protocol: int)

  datatype Decision =
    | Refused(code: string)
    | Adopt(installation: Installation, adoptedLegacy: bool)
    | EnsureCanonical(updateRequired: bool)

  datatype Change =
    | NotChanged(code: string)
    | AlreadyActive
    | Converge(legacy: seq<Installation>, source: Option<Installation>)

  /** A canonical installation with a socket of its own is migrated like a legacy one. */
  function Candidates(o: Observation): seq<Inspected> {
    (if o.canonical.Some? && o.canonical.value.installation.controlSocket.Some? then [o.canonical.value] else []) + o.legacy
  }

  function Settled(o: Observation): seq<Inspected> {
    if o.canonical.Some? && o.canonical.value.installation.controlSocket.None? then [o.canonical.value] else []
  }

  predicate Active(i: Inspected) {
    i.status.running && i.status.activeRoutes > 0
  }

  function Filter(xs: seq<Inspected>, p: Inspected -> bool): seq<Inspected> {
    if xs == [] then [] else (if p(xs[0]) then [xs[0]] else []) + Filter(xs[1..], p)
  }

  function ActiveOnes(o: Observation): seq<Inspected> {
    Filter(Candidates(o) + Settled(o), i => Active(i))
  }

  function OneCompatibleActive(active: seq<Inspected>): Result<Option<Inspected>, string> {
    if |active| > 1 then Err("MULTIPLE_ACTIVE_SERVICES")
    else if active == [] then Ok(None)
    else if !active[0].status.compatible then Err("INCOMPATIBLE_LEGACY_ROUTES")
    else Ok(Some(active[0]))
  }

  predicate Newer(i: Inspected, own: Package) {
    && i.installation.recorded.Version2? && i.installation.recorded.installed
    && ServiceVersion.Compare(i.installation.recorded.packageVersion, own.version) == Some(1)
  }

  function NewerOnes(xs: seq<Inspected>, own: Package): seq<Inspected> {
    Filter(xs, i => Newer(i, own))
  }

  /** The first complaint about a newer installation, in the order in which they were found. */
  function Complaint(newer: seq<Inspected>, own: Package): Option<string> {
    if newer == [] then
      None
    else if newer[0].installation.recorded.Version1? then
      Complaint(newer[1..], own)
    else
      var protocol := newer[0].installation.recorded.protocolVersion;
      if newer[0].status.running && newer[0].status.protocolVersion != Some(protocol) then
        Some("NEWER_SERVICE_STATE_MISMATCH")
      else if protocol != own.protocol then
        Some("NEWER_SERVICE_INCOMPATIBLE")
      else
        Complaint(newer[1..], own)
  }

  function VersionOf(i: Inspected, own: Package): string {
    match i.installation.recorded
    case Version1 => own.version
    case Version2(version, _, _) => version
  }

  /** Negative when the left one comes first: higher precedence, then later installed, then larger namespace. */
  function Rank(left: Inspected, right: Inspected, own: Package): int {
    var comparison := ServiceVersion.Compare(VersionOf(right, own), VersionOf(left, own));
    if comparison.Some? && comparison.value != 0 then
      comparison.value
    else
      var age := Text.Compare(right.installation.installedAt, left.installation.installedAt);
      if age != 0 then age else Text.Compare(right.installation.namespace, left.installation.namespace)
  }

  function Ahead(own: Package): (Inspected, Inspected) -> bool {
    (left, right) => Rank(left, right, own) < 0
  }

  function SelectNewest(xs: seq<Inspected>, own: Package): Result<Option<Installation>, string> {
    var newer := NewerOnes(xs, own);
    var complaint := Complaint(newer, own);
    if complaint.Some? then
      Err(complaint.value)
    else
      var sorted := Sorting.Sort(newer, Ahead(own));
      Ok(if sorted == [] then None else Some(sorted[0].installation))
  }

  /** The first look: adopt the one compatible service with routes, or go for the canonical service. */
  function Decide(o: Observation, own: Package): Decision {
    match OneCompatibleActive(ActiveOnes(o))
    case Err(code) => Refused(code)
    case Ok(Some(winner)) =>
      Adopt(winner.installation, !(o.canonical == Some(winner) && winner.installation.controlSocket.None?))
    case Ok(None) =>
      match SelectNewest(Candidates(o), own)
      case Err(code) => Refused(code)
      case Ok(_) => EnsureCanonical(Candidates(o) != [])
  }

  function InstallationsOf(xs: seq<Inspected>): seq<Installation> {
    seq(|xs|, i requires 0 <= i < |xs| => xs[i].installation)
  }

  /** The second look, just before anything persistent is changed. */
  function InstallService(o: Observation, own: Package): Change {
    if o.invalid > 0 then
      NotChanged("UNSAFE_STARTUP_SERVICE_INSTALLATIONS")
    else
      match OneCompatibleActive(ActiveOnes(o))
      case Err(code) => NotChanged(code)
      case Ok(Some(winner)) =>
        if o.canonical == Some(winner) && winner.installation.controlSocket.None? then AlreadyActive
        else NotChanged("LEGACY_ROUTES_ACTIVE")
      case Ok(None) =>
        match SelectNewest(Candidates(o), own)
        case Err(code) => NotChanged(code)
        case Ok(source) => Converge(InstallationsOf(o.legacy), source)
  }

  // ----- What the decisions mean -----

  lemma {:induction false} FilterIs(xs: seq<Inspected>, p: Inspected -> bool)
    ensures forall x :: x in Filter(xs, p) <==> x in xs && p(x)
  {
    if xs != [] {
      FilterIs(xs[1..], p);
      assert forall x :: x in xs <==> x == xs[0] || x in xs[1..];
    }
  }

  /** The canonical installation or one of the legacy ones. */
  predicate Found(o: Observation, i: Inspected) {
    o.canonical == Some(i) || i in o.legacy
  }

  lemma ActiveOnesAre(o: Observation)
    ensures forall i :: i in ActiveOnes(o) <==> Found(o, i) && Active(i)
  {
    FilterIs(Candidates(o) + Settled(o), i => Active(i));
    assert forall i :: i in Candidates(o) + Settled(o) <==> Found(o, i);
  }

  /** A newer installation the package can take over: running what it recorded, in this package's protocol. */
  predicate Agreeable(i: Inspected, own: Package) {
    i.installation.recorded.Version2? ==>
      && i.installation.recorded.protocolVersion == own.protocol
      && (i.status.running ==> i.status.protocolVersion == Some(own.protocol))
  }

  lemma {:induction false} NoComplaint(newer: seq<Inspected>, own: Package)
    ensures Complaint(newer, own).None? <==> forall i :: i in newer ==> Agreeable(i, own)
  {
    if newer != [] {
      NoComplaint(newer[1..], own);
      assert forall x :: x in newer <==> x == newer[0] || x in newer[1..];
      assert Complaint(newer, own).None? <==> Agreeable(newer[0], own) && Complaint(newer[1..], own).None?;
    }
  }

  /**
   * Services are changed exactly when the second look finds no invalid record, no installation with routes, and
   * only newer installations that agree with their records and with this package's protocol.
   */
  lemma ConvergesExactly(o: Observation, own: Package)
    ensures InstallService(o, own).Converge? <==>
            && o.invalid == 0
            && (forall i :: Found(o, i) ==> !Active(i))
            && (forall i :: i in Candidates(o) && Newer(i, own) ==> Agreeable(i, own))
  {
    ActiveOnesAre(o);
    if ActiveOnes(o) != [] {
      assert ActiveOnes(o)[0] in ActiveOnes(o);
    }
    var newer := NewerOnes(Candidates(o), own);
    FilterIs(Candidates(o), i => Newer(i, own));
    NoComplaint(newer, own);
  }

  lemma RankIsOrder(x: Inspected, y: Inspected, z: Inspected, own: Package)
    requires Newer(x, own) && Newer(y, own) && Newer(z, own)
    ensures Rank(x, y, own) == -Rank(y, x, own)
    ensures Text.Transitive(Rank(x, y, own), Rank(y, z, own), Rank(x, z, own))
  {
    var a, b, c := VersionOf(x, own), VersionOf(y, own), VersionOf(z, own);
    ServiceVersion.CompareIsTotalPreorder(c, b, a);
    ServiceVersion.CompareIsTotalPreorder(b, a, a);
    hide ServiceVersion.Compare, ServiceVersion.Parse;
    Text.CompareIsOrder(z.installation.installedAt, y.installation.installedAt, x.installation.installedAt);
    Text.CompareIsOrder(y.installation.installedAt, x.installation.installedAt, x.installation.installedAt);
    Text.CompareIsOrder(z.installation.namespace, y.installation.namespace, x.installation.namespace);
    Text.CompareIsOrder(y.installation.namespace, x.installation.namespace, x.installation.namespace);
  }

  lemma AheadIsPreorder(newer: seq<Inspected>, own: Package)
    requires forall i :: i in newer ==> Newer(i, own)
    ensures Sorting.Preorder(Ahead(own), newer)
  {
    forall x, y | x in newer && y in newer && Ahead(own)(x, y) ensures !Ahead(own)(y, x) {
      RankIsOrder(x, y, y, own);
    }
    forall x, y, z | x in newer && y in newer && z in newer && Ahead(own)(x, z) ensures Ahead(own)(x, y) || Ahead(own)(y, z) {
      RankIsOrder(x, y, z, own);
      RankIsOrder(z, y, x, own);
      RankIsOrder(z, x, y, own);
    }
  }

  /** The first of the sorted newer installations: nothing among them comes before it. */
  lemma FirstIsAhead(o: Observation, own: Package) returns (newer: seq<Inspected>, first: Option<Inspected>)
    requires SelectNewest(Candidates(o), own).Ok?
    ensures newer == NewerOnes(Candidates(o), own)
    ensures SelectNewest(Candidates(o), own).value == (if first.None? then None else Some(first.value.installation))
    ensures first.None? <==> newer == []
    ensures first.Some? ==> first.value in newer && forall j :: j in newer ==> Rank(j, first.value, own) >= 0
  {
    newer := NewerOnes(Candidates(o), own);
    FilterIs(Candidates(o), i => Newer(i, own));
    AheadIsPreorder(newer, own);
    Sorting.SortOrders(newer, Ahead(own));
    var sorted := Sorting.Sort(newer, Ahead(own));
    hide Sorting.Sort, Filter, Newer, Rank;
    assert newer != [] ==> newer[0] in newer;
    if sorted == [] {
      first := None;
    } else {
      first := Some(sorted[0]);
      assert sorted[0] in sorted;
      RanksItself(sorted[0], own);
      forall j | j in newer ensures Rank(j, sorted[0], own) >= 0 {
        assert j in sorted;
        var k :| 0 <= k < |sorted| && sorted[k] == j;
        assert k > 0 ==> !Ahead(own)(sorted[k], sorted[0]);
      }
    }
  }

  lemma RanksItself(i: Inspected, own: Package)
    ensures Rank(i, i, own) >= 0
  {
    Text.CompareIsOrder(i.installation.installedAt, i.installation.installedAt, i.installation.installedAt);
    Text.CompareIsOrder(i.installation.namespace, i.installation.namespace, i.installation.namespace);
    if ServiceVersion.Parse(VersionOf(i, own)).Some? {
      ServiceVersion.CompareIsTotalPreorder(VersionOf(i, own), VersionOf(i, own), VersionOf(i, own));
    }
  }

  // ----- The decisions, stated on what was observed -----

  /** Place -1 is the canonical installation, the others are the legacy ones. */
  ghost predicate Place(o: Observation, k: int) {
    (k == -1 && o.canonical.Some?) || 0 <= k < |o.legacy|
  }

  ghost function AtPlace(o: Observation, k: int): Inspected
    requires Place(o, k)
  {
    if k == -1 then o.canonical.value else o.legacy[k]
  }

  /** A service is there that runs and has routes. */
  ghost predicate Busy(o: Observation, k: int) {
    Place(o, k) && AtPlace(o, k).status.running && AtPlace(o, k).status.activeRoutes > 0
  }

  ghost predicate OnlyBusy(o: Observation, k: int) {
    Busy(o, k) && forall j :: Busy(o, j) ==> j == k
  }

  /** The canonical installation under its own socket, as the canonical one should be. */
  ghost predicate Canonical(o: Observation, k: int) {
    k == -1 && o.canonical.Some? && o.canonical.value.installation.controlSocket.None?
  }

  /** Anything that would be migrated: a legacy installation, or a canonical one with a socket of its own. */
  ghost predicate Migrates(o: Observation, k: int) {
    Place(o, k) && !Canonical(o, k)
  }

  /** A finished version 2 installation of a version above this package's. */
  ghost predicate InstalledAbove(i: Installation, own: Package) {
    i.recorded.Version2? && i.recorded.installed && ServiceVersion.VersionAbove(i.recorded.packageVersion, own.version)
  }

  lemma NewerMeans(i: Inspected, own: Package)
    ensures Newer(i, own) <==> InstalledAbove(i.installation, own)
  {
    if i.installation.recorded.Version2? {
      ServiceVersion.CompareMeansAbove(i.installation.recorded.packageVersion, own.version);
    }
  }

  // Where the candidates and the services with routes stand in the lists.

  lemma {:induction false} FilterCounts(xs: seq<Inspected>, p: Inspected -> bool)
    ensures Filter(xs, p) == [] <==> forall i :: 0 <= i < |xs| ==> !p(xs[i])
    ensures |Filter(xs, p)| > 1 <==> exists i, j :: 0 <= i < j < |xs| && p(xs[i]) && p(xs[j])
    ensures forall i :: 0 <= i < |xs| && p(xs[i]) && |Filter(xs, p)| == 1 ==> Filter(xs, p) == [xs[i]]
  {
    if xs != [] {
      var rest := xs[1..];
      FilterCounts(rest, p);
      assert forall i :: 0 <= i < |rest| ==> rest[i] == xs[i + 1];
      if i, j :| 0 <= i < j < |rest| && p(rest[i]) && p(rest[j]) {
        assert p(xs[i + 1]) && p(xs[j + 1]);
      }
      if p(xs[0]) && Filter(rest, p) != [] {
        var i :| 0 <= i < |rest| && p(rest[i]);
        assert p(xs[0]) && p(xs[i + 1]);
      }
      if i, j :| 0 <= i < j < |xs| && p(xs[i]) && p(xs[j]) {
        assert p(rest[j - 1]);
        if i > 0 {
          assert p(rest[i - 1]);
        }
      }
      forall i | 0 <= i < |xs| && p(xs[i]) && |Filter(xs, p)| == 1 ensures Filter(xs, p) == [xs[i]] {
        if i > 0 {
          assert p(rest[i - 1]);
        }
      }
    }
  }

  /** The list that is searched for services with routes, and the place of each entry. */
  function Inspections(o: Observation): seq<Inspected> {
    Candidates(o) + Settled(o)
  }

  ghost predicate Socketed(o: Observation) {
    o.canonical.Some? && o.canonical.value.installation.controlSocket.Some?
  }

  ghost function IndexOf(o: Observation, k: int): int {
    if Socketed(o) then k + 1 else if k == -1 then |o.legacy| else k
  }

  ghost function PlaceOf(o: Observation, i: int): int {
    if Socketed(o) then i - 1 else if i == |o.legacy| then -1 else i
  }

  lemma InspectionsAre(o: Observation)
    ensures var l := Inspections(o);
            && (forall k :: Place(o, k) ==> 0 <= IndexOf(o, k) < |l| && l[IndexOf(o, k)] == AtPlace(o, k)
                                            && PlaceOf(o, IndexOf(o, k)) == k)
            && (forall i :: 0 <= i < |l| ==> Place(o, PlaceOf(o, i)) && IndexOf(o, PlaceOf(o, i)) == i)
  {
  }

  /** How many services have routes: none, more than one, or one, and then which. */
  lemma BusyAre(o: Observation)
    ensures ActiveOnes(o) == [] <==> forall k :: !Busy(o, k)
    ensures |ActiveOnes(o)| > 1 <==> exists j, k :: j != k && Busy(o, j) && Busy(o, k)
    ensures forall k :: OnlyBusy(o, k) ==> ActiveOnes(o) == [AtPlace(o, k)]
  {
    var l := Inspections(o);
    var p := (i: Inspected) => Active(i);
    InspectionsAre(o);
    FilterCounts(l, p);
    assert ActiveOnes(o) == Filter(l, p) by {
      FilterSame(l, p, i => Active(i));
    }
    forall k | Busy(o, k) ensures p(l[IndexOf(o, k)]) {
    }
    forall i | 0 <= i < |l| && p(l[i]) ensures Busy(o, PlaceOf(o, i)) {
    }
    if i, j :| 0 <= i < j < |l| && p(l[i]) && p(l[j]) {
      assert Busy(o, PlaceOf(o, i)) && Busy(o, PlaceOf(o, j));
    }
    if j, k :| j != k && Busy(o, j) && Busy(o, k) {
      var a, b := IndexOf(o, j), IndexOf(o, k);
      assert p(l[a]) && p(l[b]) && a != b;
      assert if a < b then 0 <= a < b < |l| else 0 <= b < a < |l|;
    }
  }

  lemma {:induction false} FilterSame(xs: seq<Inspected>, p: Inspected -> bool, q: Inspected -> bool)
    requires forall x :: p(x) == q(x)
    ensures Filter(xs, p) == Filter(xs, q)
  {
    if xs != [] {
      FilterSame(xs[1..], p, q);
    }
  }

  /** A newer installation that runs another protocol than its record says, or a record of another protocol than ours. */
  ghost predicate Disagrees(i: Inspected, own: Package) {
    && InstalledAbove(i.installation, own)
    && (Mismatched(i) || i.installation.recorded.protocolVersion != own.protocol)
  }

  ghost predicate Mismatched(i: Inspected) {
    && i.installation.recorded.Version2? && i.status.running
    && i.status.protocolVersion != Some(i.installation.recorded.protocolVersion)
  }

  ghost function Disagreement(i: Inspected): string {
    if Mismatched(i) then "NEWER_SERVICE_STATE_MISMATCH" else "NEWER_SERVICE_INCOMPATIBLE"
  }

  ghost predicate FirstOf(xs: seq<Inspected>, own: Package, i: int) {
    0 <= i < |xs| && Disagrees(xs[i], own) && forall j :: 0 <= j < i ==> !Disagrees(xs[j], own)
  }

  lemma ComplaintFirst(x: Inspected, xs: seq<Inspected>, own: Package)
    requires Newer(x, own)
    ensures Complaint([x] + xs, own) == if Disagrees(x, own) then Some(Disagreement(x)) else Complaint(xs, own)
  {
    NewerMeans(x, own);
    assert ([x] + xs)[1..] == xs;
  }

  lemma NewerFirst(xs: seq<Inspected>, own: Package)
    requires xs != []
    ensures NewerOnes(xs, own) == (if Newer(xs[0], own) then [xs[0]] else []) + NewerOnes(xs[1..], own)
  {
  }

  lemma {:induction false} ComplaintIs(xs: seq<Inspected>, own: Package)
    ensures var complaint := Complaint(NewerOnes(xs, own), own);
            && (complaint.None? <==> forall i :: 0 <= i < |xs| ==> !Disagrees(xs[i], own))
            && (forall i :: FirstOf(xs, own, i) ==> complaint == Some(Disagreement(xs[i])))
  {
    if xs != [] {
      var rest := xs[1..];
      ComplaintIs(rest, own);
      NewerMeans(xs[0], own);
      NewerFirst(xs, own);
      if Newer(xs[0], own) {
        ComplaintFirst(xs[0], NewerOnes(rest, own), own);
      }
      hide InstalledAbove, Newer, NewerOnes, Complaint, Disagreement;
      assert [] + NewerOnes(rest, own) == NewerOnes(rest, own);
      assert forall i :: 0 <= i < |rest| ==> rest[i] == xs[i + 1];
      forall i | FirstOf(xs, own, i)
        ensures Complaint(NewerOnes(xs, own), own) == Some(Disagreement(xs[i]))
      {
        assert i > 0 ==> FirstOf(rest, own, i - 1);
      }
    }
  }

  /** Of everything that would be migrated, the first newer installation that disagrees. */
  ghost predicate FirstToDisagree(o: Observation, own: Package, k: int) {
    && Migrates(o, k) && Disagrees(AtPlace(o, k), own)
    && forall j :: Migrates(o, j) && j < k ==> !Disagrees(AtPlace(o, j), own)
  }

  lemma CandidatesAre(o: Observation)
    ensures var l, shift := Candidates(o), if Socketed(o) then 1 else 0;
            && (forall k :: Migrates(o, k) <==> 0 <= k + shift < |l|)
            && (forall k :: Migrates(o, k) ==> l[k + shift] == AtPlace(o, k))
  {
  }

  lemma ComplaintOf(o: Observation, own: Package)
    ensures var complaint := Complaint(NewerOnes(Candidates(o), own), own);
            && (complaint.None? <==> forall k :: !FirstToDisagree(o, own, k))
            && (forall k :: FirstToDisagree(o, own, k) ==> complaint == Some(Disagreement(AtPlace(o, k))))
  {
    hide Complaint, NewerOnes, Disagrees;
    var l, shift := Candidates(o), if Socketed(o) then 1 else 0;
    CandidatesAre(o);
    ComplaintIs(l, own);
    forall k | FirstToDisagree(o, own, k) ensures FirstOf(l, own, k + shift) {
      forall j | 0 <= j < k + shift ensures !Disagrees(l[j], own) {
        assert Migrates(o, j - shift) && AtPlace(o, j - shift) == l[j];
      }
    }
    if i :| 0 <= i < |l| && Disagrees(l[i], own) {
      var first := FirstDisagreement(l, own, i);
      var k := first - shift;
      assert Migrates(o, k);
      forall j | Migrates(o, j) && j < k ensures !Disagrees(AtPlace(o, j), own) {
        assert l[j + shift] == AtPlace(o, j);
      }
      assert FirstToDisagree(o, own, k);
    }
  }

  lemma {:induction false} FirstDisagreement(xs: seq<Inspected>, own: Package, i: nat) returns (first: int)
    requires i < |xs| && Disagrees(xs[i], own)
    ensures FirstOf(xs, own, first)
    decreases i
  {
    if j :| 0 <= j < i && Disagrees(xs[j], own) {
      first := FirstDisagreement(xs, own, j);
    } else {
      first := i;
    }
  }

  /**
   * The first look, for all observations: with two services that have routes nothing is done; the only one with routes
   * is adopted if it is compatible; with none, a newer installation that disagrees stops everything, and otherwise
   * the canonical service is to be ensured, with an update exactly when there is something to migrate.
   */
  lemma {:induction false} DecidesExactly(o: Observation, own: Package)
    ensures (exists j, k :: j != k && Busy(o, j) && Busy(o, k)) ==> Decide(o, own) == Refused("MULTIPLE_ACTIVE_SERVICES")
    ensures forall k :: OnlyBusy(o, k) ==>
              Decide(o, own) ==
              if AtPlace(o, k).status.compatible then Adopt(AtPlace(o, k).installation, !Canonical(o, k))
              else Refused("INCOMPATIBLE_LEGACY_ROUTES")
    ensures (forall k :: !Busy(o, k)) ==>
              && (forall k :: FirstToDisagree(o, own, k) ==> Decide(o, own) == Refused(Disagreement(AtPlace(o, k))))
              && ((forall k :: !FirstToDisagree(o, own, k)) ==> Decide(o, own) == EnsureCanonical(exists k :: Migrates(o, k)))
  {
    hide ActiveOnes, Complaint, NewerOnes, FirstToDisagree, Disagreement, Sorting.Sort;
    BusyAre(o);
    ComplaintOf(o, own);
    CandidatesAre(o);
    if Candidates(o) != [] {
      assert Migrates(o, if Socketed(o) then -1 else 0);
    }
    forall k | OnlyBusy(o, k)
      ensures Decide(o, own) ==
              if AtPlace(o, k).status.compatible then Adopt(AtPlace(o, k).installation, !Canonical(o, k))
              else Refused("INCOMPATIBLE_LEGACY_ROUTES")
    {
      assert k >= 0 && o.canonical == Some(AtPlace(o, k)) ==> Busy(o, -1);
    }
  }

  /**
   * The second look, for all observations: services change only without invalid records, without routes and without
   * a newer installation that disagrees; every other case is reported, and changes nothing.
   */
  lemma {:induction false} ChangesExactly(o: Observation, own: Package)
    ensures o.invalid > 0 ==> InstallService(o, own) == NotChanged("UNSAFE_STARTUP_SERVICE_INSTALLATIONS")
    ensures o.invalid == 0 && (exists j, k :: j != k && Busy(o, j) && Busy(o, k)) ==>
              InstallService(o, own) == NotChanged("MULTIPLE_ACTIVE_SERVICES")
    ensures o.invalid == 0 ==> forall k :: OnlyBusy(o, k) ==>
              InstallService(o, own) ==
              if !AtPlace(o, k).status.compatible then NotChanged("INCOMPATIBLE_LEGACY_ROUTES")
              else if Canonical(o, k) then AlreadyActive
              else NotChanged("LEGACY_ROUTES_ACTIVE")
    ensures o.invalid == 0 && (forall k :: !Busy(o, k)) ==>
              && (forall k :: FirstToDisagree(o, own, k) ==>
                    InstallService(o, own) == NotChanged(Disagreement(AtPlace(o, k))))
              && ((forall k :: !FirstToDisagree(o, own, k)) ==> InstallService(o, own).Converge?)
  {
    hide ActiveOnes, Complaint, NewerOnes, FirstToDisagree, Disagreement, Sorting.Sort;
    BusyAre(o);
    ComplaintOf(o, own);
    if o.invalid == 0 {
      forall k | OnlyBusy(o, k)
        ensures InstallService(o, own) ==
                if !AtPlace(o, k).status.compatible then NotChanged("INCOMPATIBLE_LEGACY_ROUTES")
                else if Canonical(o, k) then AlreadyActive
                else NotChanged("LEGACY_ROUTES_ACTIVE")
      {
        assert k >= 0 && o.canonical == Some(AtPlace(o, k)) ==> Busy(o, -1);
      }
    }
  }

  /** The other one is no better: not of a higher version, nor later among equals, nor of a larger name among those. */
  ghost predicate NotBetter(best: Installation, other: Installation) {
    && best.recorded.Version2? && other.recorded.Version2?
    && !ServiceVersion.VersionAbove(other.recorded.packageVersion, best.recorded.packageVersion)
    && (!ServiceVersion.VersionAbove(best.recorded.packageVersion, other.recorded.packageVersion) ==>
          && !Text.ComesAfter(other.installedAt, best.installedAt)
          && (other.installedAt == best.installedAt ==> !Text.ComesAfter(other.namespace, best.namespace)))
  }

  lemma RankMeans(best: Inspected, other: Inspected, own: Package)
    requires Newer(best, own) && Newer(other, own) && Rank(other, best, own) >= 0
    ensures NotBetter(best.installation, other.installation)
  {
    hide ServiceVersion.Precedence, ServiceVersion.Parse, ServiceVersion.VersionAbove;
    var a, b := best.installation, other.installation;
    ServiceVersion.CompareMeansAbove(VersionOf(best, own), VersionOf(other, own));
    ServiceVersion.CompareMeansAbove(VersionOf(other, own), VersionOf(best, own));
    NewerParses(best, own);
    NewerParses(other, own);
    ServiceVersion.CompareIsTotalPreorder(VersionOf(best, own), VersionOf(other, own), VersionOf(best, own));
    ServiceVersion.AtLeastOrNewer(VersionOf(best, own), VersionOf(other, own));
    Text.CompareIsOrder(a.installedAt, b.installedAt, a.installedAt);
    Text.CompareIsOrder(a.namespace, b.namespace, a.namespace);
    Text.CompareMeans(b.installedAt, a.installedAt);
    Text.CompareMeans(b.namespace, a.namespace);
  }

  lemma NewerParses(i: Inspected, own: Package)
    requires Newer(i, own)
    ensures ServiceVersion.Parse(VersionOf(i, own)).Some?
  {
  }

  /**
   * What a convergence works with: all legacy installations in their order, and as the source the best newer
   * installation, in this package's protocol, of everything that is migrated; none exactly when there is none.
   */
  lemma {:induction false} SourceIsForemost(o: Observation, own: Package)
    requires InstallService(o, own).Converge?
    ensures var c := InstallService(o, own);
            && |c.legacy| == |o.legacy| && (forall i :: 0 <= i < |o.legacy| ==> c.legacy[i] == o.legacy[i].installation)
            && (c.source.None? <==> forall k :: Migrates(o, k) ==> !InstalledAbove(AtPlace(o, k).installation, own))
            && (c.source.Some? ==> exists k :: ForemostAt(o, own, c.source.value, k))
  {
    ConvergeShape(o, own);
    var newer, first := FirstIsAhead(o, own);
    FilterIs(Candidates(o), i => Newer(i, own));
    CandidatesAre(o);
    hide InstallService, SelectNewest, Rank, Filter, Sorting.Sort, NewerOnes, ForemostAt, Migrates, InstalledAbove;
    if first.Some? {
      BestIsForemost(o, own, newer, first.value);
    } else {
      forall k | Migrates(o, k) ensures !InstalledAbove(AtPlace(o, k).installation, own) {
        NewerMeans(AtPlace(o, k), own);
        assert AtPlace(o, k) in Candidates(o) && AtPlace(o, k) !in newer;
      }
    }
  }

  lemma ConvergeShape(o: Observation, own: Package)
    requires InstallService(o, own).Converge?
    ensures var c := InstallService(o, own);
            && |c.legacy| == |o.legacy| && (forall i :: 0 <= i < |o.legacy| ==> c.legacy[i] == o.legacy[i].installation)
            && SelectNewest(Candidates(o), own) == Ok(c.source)
            && forall i :: i in Candidates(o) && Newer(i, own) ==> Agreeable(i, own)
  {
    hide SelectNewest, ActiveOnes;
    ConvergesExactly(o, own);
  }

  ghost predicate ForemostAt(o: Observation, own: Package, source: Installation, k: int) {
    && Migrates(o, k) && AtPlace(o, k).installation == source
    && InstalledAbove(source, own) && source.recorded.Version2? && source.recorded.protocolVersion == own.protocol
    && forall j :: Migrates(o, j) && InstalledAbove(AtPlace(o, j).installation, own) ==>
         NotBetter(source, AtPlace(o, j).installation)
  }

  /** The one that is ahead of all newer ones has its place, agrees, and nothing is better. */
  lemma BestIsForemost(o: Observation, own: Package, newer: seq<Inspected>, best: Inspected)
    requires best in newer && best in Candidates(o) && Newer(best, own) && Agreeable(best, own)
    requires forall i :: i in newer <==> i in Candidates(o) && Newer(i, own)
    requires forall j :: j in newer ==> Rank(j, best, own) >= 0
    ensures exists k :: ForemostAt(o, own, best.installation, k)
    ensures !(forall k :: Migrates(o, k) ==> !InstalledAbove(AtPlace(o, k).installation, own))
  {
    hide Rank, Newer, InstalledAbove, NotBetter;
    var l, shift := Candidates(o), if Socketed(o) then 1 else 0;
    CandidatesAre(o);
    var at :| 0 <= at < |l| && l[at] == best;
    NewerMeans(best, own);
    assert Migrates(o, at - shift) && AtPlace(o, at - shift) == best;
    NewerIsFinished(best, own);
    forall j | Migrates(o, j) && InstalledAbove(AtPlace(o, j).installation, own)
      ensures NotBetter(best.installation, AtPlace(o, j).installation)
    {
      NewerMeans(AtPlace(o, j), own);
      assert AtPlace(o, j) in l;
      RankMeans(best, AtPlace(o, j), own);
    }
    assert ForemostAt(o, own, best.installation, at - shift);
  }

  lemma NewerIsFinished(i: Inspected, own: Package)
    ensures InstalledAbove(i.installation, own) ==> i.installation.recorded.Version2?
  {
  }
}

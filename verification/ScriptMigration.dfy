/** The migration of processed scripts into package artifacts, and its reversal. */
module ScriptMigration {
  import opened Outcome
  import opened ScriptEvidence

  datatype Script = Script(id: string, session: string, version: nat, snapshot: seq<Segment>, sections: seq<Section>, markdown: string)

  /** A package built here has an identifier derived from its session and snapshot alone. */
  datatype PackageId = Legacy(session: string, snapshot: seq<Segment>) | Random(uuid: string)

  datatype PackageStatus = Frozen | Superseded | Draft

  /** `items` is the effective source document, if it can be found. */
  datatype Package = Package(id: PackageId, session: string, version: nat, status: PackageStatus, items: Option<seq<Item>>)

  datatype Workflow = LegacyScript | Current(name: string)

  datatype Artifact = Artifact(id: string, package: PackageId, packageVersion: nat, kind: string, language: Option<string>,
                               version: nat, workflow: Workflow, sections: seq<Section>, evidence: seq<Evidence>)

  datatype Tables = Tables(packages: seq<Package>, artifacts: seq<Artifact>)

  datatype Error = EmptySnapshot | MissingSource | EmptySection | DuplicateVersion

  function LegacyId(s: Script): PackageId { Legacy(s.session, s.snapshot) }

  // ----- choosing a package

  predicate Candidate(p: Package, s: Script) {
    && p.session == s.session && (p.status.Frozen? || p.status.Superseded?)
    && p.items.Some? && Compatible(p.items.value, s.snapshot, s.sections)
  }

  /** A higher score first, then the lower version. */
  predicate Preferred(p: Package, q: Package, s: Script)
    requires p.items.Some? && q.items.Some?
  {
    var a, b := Score(p.items.value, s.snapshot), Score(q.items.value, s.snapshot);
    a > b || (a == b && p.version < q.version)
  }

  function Pick(ps: seq<Package>, s: Script): (r: Option<Package>)
    ensures r.Some? ==> Candidate(r.value, s)
  {
    if ps == [] then None
    else
      var best, last := Pick(ps[..|ps| - 1], s), ps[|ps| - 1];
      if !Candidate(last, s) then best
      else if best.None? || Preferred(last, best.value, s) then Some(last)
      else best
  }

  /** The choice is a candidate of the highest score, and of those the lowest version; none is made only when there is none. */
  lemma {:induction false} PickIsBest(ps: seq<Package>, s: Script)
    ensures Pick(ps, s).None? ==> forall q | q in ps :: !Candidate(q, s)
    ensures Pick(ps, s).Some? ==>
              && Pick(ps, s).value in ps
              && forall q | q in ps && Candidate(q, s) :: !Preferred(q, Pick(ps, s).value, s)
  {
    if ps != [] {
      PickIsBest(ps[..|ps| - 1], s);
      assert ps == ps[..|ps| - 1] + [ps[|ps| - 1]];
    }
  }

  /** A package of the script's session that has been frozen, has its items, and fits the script. */
  ghost predicate Usable(p: Package, s: Script) {
    && p.session == s.session && p.status in {Frozen, Superseded} && p.items.Some?
    && s.snapshot != [] && (forall x :: Mentioned(p.items.value, x) <==> Recorded(s.snapshot, x))
    && s.sections != [] && (forall i | 0 <= i < |s.sections| :: s.sections[i].segments != [])
    && forall i | 0 <= i < |p.items.value| :: Housed(p.items.value[i], s.sections)
  }

  lemma {:induction false} CandidateExactly(p: Package, s: Script)
    ensures Candidate(p, s) <==> Usable(p, s)
  {
    if p.items.Some? {
      CompatibleExactly(p.items.value, s.snapshot, s.sections);
    }
  }

  /** Twice the items with the right text and once those with the right times. */
  ghost function Merit(p: Package, s: Script): nat
    requires p.items.Some?
  {
    2 * |TextMatches(p.items.value, s.snapshot)| + |TimeMatches(p.items.value, s.snapshot)|
  }

  /** The choice said of the packages alone: usable, of the highest merit, and of those of the lowest version. */
  lemma {:induction false} PickExactly(ps: seq<Package>, s: Script)
    ensures match Pick(ps, s)
            case None => forall q | q in ps :: !Usable(q, s)
            case Some(p) =>
              && p in ps && Usable(p, s)
              && forall q | q in ps && Usable(q, s) :: Merit(q, s) < Merit(p, s) || (Merit(q, s) == Merit(p, s) && p.version <= q.version)
  {
    PickIsBest(ps, s);
    forall q | q in ps
      ensures Candidate(q, s) <==> Usable(q, s)
      ensures q.items.Some? ==> Merit(q, s) == Score(q.items.value, s.snapshot)
    {
      CandidateExactly(q, s);
      if q.items.Some? {
        ScoreExactly(q.items.value, s.snapshot);
      }
    }
  }

  function ById(ps: seq<Package>, id: PackageId): Option<Package> {
    if ps == [] then None else if ps[0].id == id then Some(ps[0]) else ById(ps[1..], id)
  }

  function LatestVersion(ps: seq<Package>, session: string): nat {
    if ps == [] then 0
    else
      var rest := LatestVersion(ps[1..], session);
      if ps[0].session == session && ps[0].version > rest then ps[0].version else rest
  }

  predicate HasPackage(ps: seq<Package>, session: string) {
    exists i | 0 <= i < |ps| :: ps[i].session == session
  }

  /** `_build_legacy_package` for a snapshot that has no package yet. */
  function NewPackage(ps: seq<Package>, s: Script): Package {
    Package(LegacyId(s), s.session, LatestVersion(ps, s.session) + 1,
            if HasPackage(ps, s.session) then Superseded else Frozen, Some(Built(s.session, s.snapshot)))
  }

  /** `_find_or_create_package`: the packages afterwards, and the one to use. */
  function FindOrCreate(ps: seq<Package>, s: Script): Result<(seq<Package>, Package), Error> {
    match Pick(ps, s)
    case Some(p) => Success((ps, p))
    case None =>
      match ById(ps, LegacyId(s))
      case Some(p) => if p.items.Some? then Success((ps, p)) else Failure(MissingSource)
      case None => if s.snapshot == [] then Failure(EmptySnapshot) else Success((ps + [NewPackage(ps, s)], NewPackage(ps, s)))
  }

  const CleanScript := "clean_script"

  /** The unique index on package, kind and version of artifacts without a language already has this clean script. */
  predicate Taken(artifacts: seq<Artifact>, package: PackageId, version: nat) {
    exists i | 0 <= i < |artifacts| ::
      && artifacts[i].package == package && artifacts[i].kind == CleanScript && artifacts[i].language.None?
      && artifacts[i].version == version
  }

  function ArtifactOf(s: Script, p: Package, evidence: seq<Evidence>): Artifact {
    Artifact(s.id, p.id, p.version, CleanScript, None, s.version, LegacyScript, s.sections, evidence)
  }

  predicate Migrated(artifacts: seq<Artifact>, id: string) {
    exists i | 0 <= i < |artifacts| :: artifacts[i].id == id
  }

  function MigrateOne(t: Tables, s: Script): Result<Tables, Error> {
    if Migrated(t.artifacts, s.id) then Success(t)
    else
      match FindOrCreate(t.packages, s)
      case Failure(e) => Failure(e)
      case Success((ps, p)) =>
        var evidence := if p.items.Some? then AllEvidence(s.sections, p.items.value) else None;
        if evidence.None? then Failure(EmptySection)
        else if Taken(t.artifacts, p.id, s.version) then Failure(DuplicateVersion)
        else Success(Tables(ps, t.artifacts + [ArtifactOf(s, p, evidence.value)]))
  }

  function MigrateAll(t: Tables, scripts: seq<Script>): Result<Tables, Error>
    decreases |scripts|
  {
    if scripts == [] then Success(t)
    else
      match MigrateOne(t, scripts[0])
      case Failure(e) => Failure(e)
      case Success(next) => MigrateAll(next, scripts[1..])
  }

  // ----- downgrade

  predicate IsLegacy(id: PackageId, scripts: seq<Script>) {
    exists i | 0 <= i < |scripts| :: LegacyId(scripts[i]) == id
  }

  /** What a deletion leaves. */
  function Left<T>(xs: seq<T>, drop: T -> bool): seq<T> {
    if xs == [] then []
    else
      var front, last := Left(xs[..|xs| - 1], drop), xs[|xs| - 1];
      if drop(last) then front else front + [last]
  }

  function DropPackage(scripts: seq<Script>): Package -> bool { (p: Package) => IsLegacy(p.id, scripts) }

  function DropArtifact(): Artifact -> bool { (x: Artifact) => x.workflow.LegacyScript? }

  function Reverted(t: Tables, scripts: seq<Script>): Tables {
    Tables(Left(t.packages, DropPackage(scripts)), Left(t.artifacts, DropArtifact()))
  }

  // ----- the same, in place

  class Database {
    var packages: seq<Package>
    var artifacts: seq<Artifact>

    function Now(): Tables
      reads this
    {
      Tables(packages, artifacts)
    }

    /** The candidate loop of `_find_or_create_package`. */
    method FindCandidate(s: Script) returns (best: Option<Package>)
      ensures best == Pick(packages, s)
    {
      best := None;
      var bestScore: nat := 0;
      var k := 0;
      while k < |packages|
        invariant k <= |packages| && best == Pick(packages[..k], s)
        invariant best.Some? ==> bestScore == Score(best.value.items.value, s.snapshot)
      {
        var p := packages[k];
        assert packages[..k + 1][..k] == packages[..k];
        if p.session == s.session && (p.status.Frozen? || p.status.Superseded?) && p.items.Some? {
          var ok := CheckCompatible(p.items.value, s.snapshot, s.sections);
          if ok {
            var score := MatchScore(p.items.value, s.snapshot);
            if best.None? || score > bestScore || (score == bestScore && p.version < best.value.version) {
              best, bestScore := Some(p), score;
            }
          }
        }
        k := k + 1;
      }
      assert packages[..k] == packages;
    }

    method FindOrCreatePackage(s: Script) returns (r: Result<Package, Error>)
      modifies this
      ensures artifacts == old(artifacts)
      ensures match FindOrCreate(old(packages), s)
              case Failure(e) => r == Failure(e) && packages == old(packages)
              case Success((ps, p)) => r == Success(p) && packages == ps
    {
      var found := FindCandidate(s);
      if found.Some? {
        return Success(found.value);
      }
      var existing := ById(packages, LegacyId(s));
      if existing.Some? {
        return if existing.value.items.Some? then Success(existing.value) else Failure(MissingSource);
      }
      if s.snapshot == [] {
        return Failure(EmptySnapshot);
      }
      var p := NewPackage(packages, s);
      packages := packages + [p];
      return Success(p);
    }

    /** `upgrade`; on an error the whole migration is rolled back. */
    method Upgrade(scripts: seq<Script>) returns (r: Result<Tables, Error>)
      modifies this
      ensures r == MigrateAll(old(Now()), scripts)
      ensures r.Success? ==> Now() == r.value
      ensures r.Failure? ==> Now() == old(Now())
    {
      var wasPackages, wasArtifacts := packages, artifacts;
      var k := 0;
      while k < |scripts|
        invariant k <= |scripts| && MigrateAll(old(Now()), scripts) == MigrateAll(Now(), scripts[k..])
      {
        var s := scripts[k];
        assert scripts[k..][1..] == scripts[k + 1..];
        if !Migrated(artifacts, s.id) {
          ghost var before := Now();
          var p := FindOrCreatePackage(s);
          if p.Failure? {
            packages, artifacts := wasPackages, wasArtifacts;
            return Failure(p.error);
          }
          var evidence := None;
          if p.value.items.Some? {
            evidence := CollectEvidence(s.sections, p.value.items.value);
          }
          if evidence.None? {
            packages, artifacts := wasPackages, wasArtifacts;
            return Failure(EmptySection);
          }
          if Taken(artifacts, p.value.id, s.version) {
            packages, artifacts := wasPackages, wasArtifacts;
            return Failure(DuplicateVersion);
          }
          artifacts := artifacts + [ArtifactOf(s, p.value, evidence.value)];
          assert MigrateOne(before, s) == Success(Now());
        }
        k := k + 1;
      }
      return Success(Now());
    }

    /** `downgrade`: exactly the artifacts of this workflow and the packages under derived identifiers go. */
    method Downgrade(scripts: seq<Script>)
      modifies this
      ensures Now() == Reverted(old(Now()), scripts)
      ensures forall x :: x in artifacts <==> x in old(artifacts) && !x.workflow.LegacyScript?
      ensures forall p :: p in packages <==> p in old(packages) && !IsLegacy(p.id, scripts)
    {
      var kept := Delete(artifacts, DropArtifact());
      LeftMembers(artifacts, DropArtifact());
      artifacts := kept;
      var stay := Delete(packages, DropPackage(scripts));
      LeftMembers(packages, DropPackage(scripts));
      packages := stay;
    }
  }

  /** A delete statement: row after row is tested. */
  method Delete<T>(xs: seq<T>, drop: T -> bool) returns (left: seq<T>)
    ensures left == Left(xs, drop)
  {
    left := [];
    for i := 0 to |xs|
      invariant left == Left(xs[..i], drop)
    {
      assert xs[..i + 1][..i] == xs[..i];
      if !drop(xs[i]) {
        left := left + [xs[i]];
      }
    }
    assert xs[..|xs|] == xs;
  }

  lemma {:induction false} LeftMembers<T(!new)>(xs: seq<T>, drop: T -> bool)
    ensures forall x :: x in Left(xs, drop) <==> x in xs && !drop(x)
  {
    if xs != [] {
      LeftMembers(xs[..|xs| - 1], drop);
      assert xs == xs[..|xs| - 1] + [xs[|xs| - 1]];
    }
  }

  // ----- every script is migrated, with faithful evidence

  /** A script whose sections partition a non-empty snapshot. */
  ghost predicate Sound(s: Script) { s.snapshot != [] && Partition(s.sections, SnapshotIds(s.snapshot)) }

  /** A package under a derived identifier is the one that would be built for it. */
  ghost predicate PackageGenuine(p: Package) {
    p.id.Legacy? ==>
      p.session == p.id.session && !p.status.Draft? && p.items == Some(Built(p.id.session, p.id.snapshot))
  }

  ghost predicate Genuine(ps: seq<Package>) {
    forall i | 0 <= i < |ps| :: PackageGenuine(ps[i])
  }

  /** The artifact belongs to a stored package whose items its evidence cites faithfully. */
  ghost predicate Backed(a: Artifact, s: Script, ps: seq<Package>) {
    exists p :: p in ps && BackedBy(a, s, p)
  }

  ghost predicate BackedBy(a: Artifact, s: Script, p: Package) {
    && a.id == s.id && a.workflow.LegacyScript? && a.package == p.id && a.packageVersion == p.version
    && a.kind == "clean_script" && a.language == None && a.version == s.version && a.sections == s.sections
    && p.session == s.session && p.status in {Frozen, Superseded} && p.items.Some? && Compatible(p.items.value, s.snapshot, s.sections)
    && |a.evidence| == |s.sections|
    && forall k | 0 <= k < |s.sections| :: Faithful(a.evidence[k], s.sections[k], p.items.value)
  }

  lemma {:induction false} ByIdFound(ps: seq<Package>, id: PackageId)
    ensures ById(ps, id).Some? ==> ById(ps, id).value in ps && ById(ps, id).value.id == id
    ensures ById(ps, id).None? ==> forall p | p in ps :: p.id != id
  {
    if ps != [] {
      ByIdFound(ps[1..], id);
    }
  }

  /** For a sound script the package is compatible, whether it was found or built. */
  lemma {:induction false} FoundIsCompatible(ps: seq<Package>, s: Script)
    requires Genuine(ps) && Sound(s)
    ensures var r := FindOrCreate(ps, s);
            && r.Success? && r.value.1 in r.value.0 && Candidate(r.value.1, s) && Genuine(r.value.0)
            && (r.value.0 == ps || (r.value.0 == ps + [NewPackage(ps, s)] && forall p | p in ps :: p.id != LegacyId(s)))
  {
    BuiltIsCompatible(s.session, s.snapshot, s.sections);
    PickIsBest(ps, s);
    ByIdFound(ps, LegacyId(s));
    if Pick(ps, s).None? && ById(ps, LegacyId(s)).Some? {
      DerivedIsCandidate(ById(ps, LegacyId(s)).value, s);
    }
  }

  lemma {:induction false} DerivedIsCandidate(p: Package, s: Script)
    requires PackageGenuine(p) && p.id == LegacyId(s) && Compatible(Built(s.session, s.snapshot), s.snapshot, s.sections)
    ensures Candidate(p, s)
  {
  }

  /** The package that a script is migrated into. */
  function Choice(ps: seq<Package>, s: Script): Option<Package> {
    match FindOrCreate(ps, s)
    case Success((_, p)) => Some(p)
    case Failure(_) => None
  }

  /** One sound script: it migrates exactly if its package does not hold a clean script of its version, and then its artifact is backed. */
  lemma {:induction false} SoundScriptMigrates(t: Tables, s: Script)
    requires Genuine(t.packages) && Sound(s) && !Migrated(t.artifacts, s.id)
    ensures Choice(t.packages, s).Some?
    ensures var r := MigrateOne(t, s);
            && (r.Success? <==> !Taken(t.artifacts, Choice(t.packages, s).value.id, s.version))
            && (r.Success? ==>
                  && Genuine(r.value.packages) && |r.value.artifacts| == |t.artifacts| + 1
                  && r.value.artifacts[..|t.artifacts|] == t.artifacts && Backed(r.value.artifacts[|t.artifacts|], s, r.value.packages))
  {
    FoundIsCompatible(t.packages, s);
    var (ps, p) := FindOrCreate(t.packages, s).value;
    EvidenceIsFaithful(p.items.value, s.snapshot, s.sections);
    var a := ArtifactOf(s, p, AllEvidence(s.sections, p.items.value).value);
    assert BackedBy(a, s, p);
    assert Backed(a, s, ps);
  }

  // ----- what is added, and nothing else

  /** `next` adds to `t` only packages under derived identifiers of `scripts` and migrated artifacts. */
  ghost predicate Extends(t: Tables, next: Tables, scripts: seq<Script>) {
    && t.packages <= next.packages && t.artifacts <= next.artifacts
    && (forall i | |t.packages| <= i < |next.packages| :: IsLegacy(next.packages[i].id, scripts))
    && (forall i | |t.artifacts| <= i < |next.artifacts| :: next.artifacts[i].workflow.LegacyScript?)
  }

  lemma {:induction false} OneExtends(t: Tables, s: Script, scripts: seq<Script>)
    requires MigrateOne(t, s).Success? && IsLegacy(LegacyId(s), scripts)
    ensures Extends(t, MigrateOne(t, s).value, scripts) && Migrated(MigrateOne(t, s).value.artifacts, s.id)
  {
    var next := MigrateOne(t, s).value;
    if !Migrated(t.artifacts, s.id) {
      assert next.artifacts[|t.artifacts|].id == s.id;
    }
  }

  lemma {:induction false} ExtendsTransitive(a: Tables, b: Tables, c: Tables, scripts: seq<Script>)
    requires Extends(a, b, scripts) && Extends(b, c, scripts)
    ensures Extends(a, c, scripts)
  {
  }

  lemma {:induction false} MigratedStays(a: seq<Artifact>, b: seq<Artifact>, id: string)
    requires a <= b && Migrated(a, id)
    ensures Migrated(b, id)
  {
    var i :| 0 <= i < |a| && a[i].id == id;
    assert b[i] == a[i];
  }

  /** A successful upgrade only appends, and leaves an artifact under the identifier of every script. */
  lemma {:induction false} AllExtends(t: Tables, todo: seq<Script>, scripts: seq<Script>)
    requires MigrateAll(t, todo).Success? && forall i | 0 <= i < |todo| :: IsLegacy(LegacyId(todo[i]), scripts)
    ensures Extends(t, MigrateAll(t, todo).value, scripts)
    ensures forall i | 0 <= i < |todo| :: Migrated(MigrateAll(t, todo).value.artifacts, todo[i].id)
    decreases |todo|
  {
    if todo != [] {
      var next, last := MigrateOne(t, todo[0]).value, MigrateAll(t, todo).value;
      OneExtends(t, todo[0], scripts);
      assert forall i | 0 <= i < |todo[1..]| :: todo[1..][i] == todo[i + 1];
      AllExtends(next, todo[1..], scripts);
      ExtendsTransitive(t, next, last, scripts);
      MigratedStays(next.artifacts, last.artifacts, todo[0].id);
      forall i | 0 <= i < |todo|
        ensures Migrated(last.artifacts, todo[i].id)
      {
        assert i > 0 ==> todo[i] == todo[1..][i - 1];
      }
    }
  }

  lemma {:induction false} AllLegacy(scripts: seq<Script>)
    ensures forall i | 0 <= i < |scripts| :: IsLegacy(LegacyId(scripts[i]), scripts)
  {
  }

  lemma {:induction false} GenuineStays(t: Tables, scripts: seq<Script>)
    requires Genuine(t.packages) && (forall i | 0 <= i < |scripts| :: Sound(scripts[i])) && MigrateAll(t, scripts).Success?
    ensures Genuine(MigrateAll(t, scripts).value.packages)
    decreases |scripts|
  {
    if scripts != [] {
      if !Migrated(t.artifacts, scripts[0].id) {
        SoundScriptMigrates(t, scripts[0]);
      }
      assert forall i | 0 <= i < |scripts[1..]| :: scripts[1..][i] == scripts[i + 1];
      GenuineStays(MigrateOne(t, scripts[0]).value, scripts[1..]);
    }
  }

  /** The artifact is a faithful migration of one of the scripts. */
  ghost predicate FromScripts(a: Artifact, scripts: seq<Script>, ps: seq<Package>) {
    exists s :: s in scripts && Backed(a, s, ps)
  }

  lemma {:induction false} FromMore(a: Artifact, some: seq<Script>, scripts: seq<Script>, ps: seq<Package>, more: seq<Package>)
    requires FromScripts(a, some, ps) && ps <= more && forall s | s in some :: s in scripts
    ensures FromScripts(a, scripts, more)
  {
    var s :| s in some && Backed(a, s, ps);
    var p :| p in ps && BackedBy(a, s, p);
    assert p in more && Backed(a, s, more);
  }

  /** Every artifact that the upgrade adds is backed: it cites one stored package of its script's session faithfully. */
  lemma {:induction false} UpgradeIsFaithful(t: Tables, scripts: seq<Script>)
    requires Genuine(t.packages) && (forall i | 0 <= i < |scripts| :: Sound(scripts[i])) && MigrateAll(t, scripts).Success?
    ensures var last := MigrateAll(t, scripts).value;
            && t.packages <= last.packages && t.artifacts <= last.artifacts
            && forall i | |t.artifacts| <= i < |last.artifacts| :: FromScripts(last.artifacts[i], scripts, last.packages)
    decreases |scripts|
  {
    if scripts != [] {
      var s, rest := scripts[0], scripts[1..];
      assert forall i | 0 <= i < |rest| :: rest[i] == scripts[i + 1];
      if !Migrated(t.artifacts, s.id) {
        SoundScriptMigrates(t, s);
      }
      var next := MigrateOne(t, s).value;
      OneFaithful(t, next, s);
      UpgradeIsFaithful(next, rest);
      FaithfulStep(t, next, MigrateAll(next, rest).value, scripts);
    }
  }

  /** One step adds at most one artifact, and that one is backed. */
  lemma {:induction false} OneFaithful(t: Tables, next: Tables, s: Script)
    requires Genuine(t.packages) && Sound(s) && MigrateOne(t, s) == Success(next)
    ensures t.packages <= next.packages && t.artifacts <= next.artifacts && |next.artifacts| <= |t.artifacts| + 1
    ensures next.artifacts == t.artifacts || Backed(next.artifacts[|t.artifacts|], s, next.packages)
  {
    if !Migrated(t.artifacts, s.id) {
      SoundScriptMigrates(t, s);
      FoundIsCompatible(t.packages, s);
    }
  }

  lemma {:induction false} FaithfulStep(t: Tables, next: Tables, last: Tables, scripts: seq<Script>)
    requires scripts != [] && t.packages <= next.packages <= last.packages && t.artifacts <= next.artifacts <= last.artifacts
    requires |next.artifacts| <= |t.artifacts| + 1
    requires next.artifacts == t.artifacts || Backed(next.artifacts[|t.artifacts|], scripts[0], next.packages)
    requires forall i | |next.artifacts| <= i < |last.artifacts| :: FromScripts(last.artifacts[i], scripts[1..], last.packages)
    ensures forall i | |t.artifacts| <= i < |last.artifacts| :: FromScripts(last.artifacts[i], scripts, last.packages)
  {
    forall i | |t.artifacts| <= i < |last.artifacts|
      ensures FromScripts(last.artifacts[i], scripts, last.packages)
    {
      if i < |next.artifacts| {
        assert scripts[0] in scripts && FromScripts(next.artifacts[i], scripts, next.packages);
        FromMore(next.artifacts[i], scripts, scripts, next.packages, last.packages);
      } else {
        FromMore(last.artifacts[i], scripts[1..], scripts, last.packages, last.packages);
      }
    }
  }

  // ----- when the upgrade succeeds

  /**
    * No script that is still to be migrated meets a clean script of its version in the package
    * chosen for it. Only the artifacts from before the upgrade are looked at.
    */
  predicate Clear(artifacts: seq<Artifact>, ps: seq<Package>, todo: seq<Script>)
    decreases |todo|
  {
    if todo == [] then true
    else if Migrated(artifacts, todo[0].id) then Clear(artifacts, ps, todo[1..])
    else
      match FindOrCreate(ps, todo[0])
      case Failure(_) => false
      case Success((next, p)) => !Taken(artifacts, p.id, todo[0].version) && Clear(artifacts, next, todo[1..])
  }

  /** Primary key of packages. */
  ghost predicate DistinctPackages(ps: seq<Package>) {
    forall p, q | p in ps && q in ps && p.id == q.id :: p == q
  }

  /** Primary key of scripts, and their unique constraint on session and version. */
  ghost predicate DistinctScripts(scripts: seq<Script>) {
    forall i, j | 0 <= i < j < |scripts| ::
      && scripts[i].id != scripts[j].id
      && !(scripts[i].session == scripts[j].session && scripts[i].version == scripts[j].version)
  }

  /** An artifact made in this run belongs to a stored package and cannot clash with script `s`. */
  ghost predicate Foreign(a: Artifact, s: Script, ps: seq<Package>) {
    && a.id != s.id
    && (a.version != s.version || forall p | p in ps && p.session == s.session :: p.id != a.package)
  }

  ghost predicate Owned(a: Artifact, ps: seq<Package>) { exists p :: p in ps && p.id == a.package }

  ghost predicate Harmless(added: seq<Artifact>, ps: seq<Package>, todo: seq<Script>) {
    && (forall a | a in added :: Owned(a, ps))
    && (forall a, s | a in added && s in todo :: Foreign(a, s, ps))
  }

  /** Artifacts made in this run change neither whether a script is migrated nor whether its version is taken. */
  lemma {:induction false} AddedDoNotMatter(artifacts: seq<Artifact>, added: seq<Artifact>, ps: seq<Package>, s: Script, p: Package)
    requires forall a | a in added :: Owned(a, ps) && Foreign(a, s, ps)
    requires p.session == s.session && (p in ps || forall q | q in ps :: q.id != p.id)
    ensures Migrated(artifacts + added, s.id) <==> Migrated(artifacts, s.id)
    ensures Taken(artifacts + added, p.id, s.version) <==> Taken(artifacts, p.id, s.version)
  {
    var all := artifacts + added;
    forall i | 0 <= i < |all|
      ensures i < |artifacts| ==> all[i] == artifacts[i]
      ensures i >= |artifacts| ==> all[i].id != s.id && !(all[i].package == p.id && all[i].version == s.version)
    {
      if i >= |artifacts| {
        var a := added[i - |artifacts|];
        assert a in added && Owned(a, ps) && Foreign(a, s, ps);
      }
    }
    if Migrated(artifacts, s.id) {
      var i :| 0 <= i < |artifacts| && artifacts[i].id == s.id;
      assert all[i].id == s.id;
    }
    if Taken(artifacts, p.id, s.version) {
      var i :| 0 <= i < |artifacts| && artifacts[i].package == p.id && artifacts[i].kind == CleanScript
               && artifacts[i].language.None? && artifacts[i].version == s.version;
      assert all[i] == artifacts[i];
    }
  }

  /** The next script is migrated: what was made so far stays harmless to the rest. */
  lemma {:induction false} HarmlessNext(added: seq<Artifact>, a: Artifact, ps: seq<Package>, next: seq<Package>, p: Package, todo: seq<Script>)
    requires todo != [] && DistinctScripts(todo) && Harmless(added, ps, todo) && DistinctPackages(next)
    requires p in next && p.session == todo[0].session
    requires a.id == todo[0].id && a.package == p.id && a.version == todo[0].version
    requires next == ps || (next == ps + [p] && forall q | q in ps :: q.id != p.id)
    ensures Harmless(added + [a], next, todo[1..])
  {
    forall x | x in added + [a]
      ensures Owned(x, next)
    {
      assert x in added ==> Owned(x, ps);
    }
    forall x, s | x in added + [a] && s in todo[1..]
      ensures Foreign(x, s, next)
    {
      var j :| 0 <= j < |todo[1..]| && todo[1..][j] == s;
      assert todo[j + 1] == s;
      if x == a {
        assert forall q | q in next && q.id == p.id :: q == p;
      } else {
        assert Owned(x, ps) && Foreign(x, s, ps);
      }
    }
  }

  lemma {:induction false} TailDistinct(todo: seq<Script>)
    requires todo != [] && DistinctScripts(todo)
    ensures DistinctScripts(todo[1..])
  {
    assert forall i | 0 <= i < |todo[1..]| :: todo[1..][i] == todo[i + 1];
  }

  /** The package chosen for a sound script, and the packages afterwards. */
  lemma {:induction false} ChoiceStep(ps: seq<Package>, s: Script) returns (next: seq<Package>, p: Package)
    requires Genuine(ps) && DistinctPackages(ps) && Sound(s)
    ensures FindOrCreate(ps, s) == Success((next, p)) && Candidate(p, s)
    ensures Genuine(next) && DistinctPackages(next) && p in next
    ensures next == ps || (next == ps + [p] && forall q | q in ps :: q.id != p.id)
    ensures p in ps || forall q | q in ps :: q.id != p.id
  {
    FoundIsCompatible(ps, s);
    next, p := FindOrCreate(ps, s).value.0, FindOrCreate(ps, s).value.1;
    if next != ps {
      assert next == ps + [p];
    }
  }

  /** One sound script in terms of that choice. */
  lemma {:induction false} MigrateStep(t: Tables, s: Script, next: seq<Package>, p: Package) returns (a: Artifact)
    requires Genuine(t.packages) && Sound(s) && !Migrated(t.artifacts, s.id) && FindOrCreate(t.packages, s) == Success((next, p))
    ensures a.id == s.id && a.package == p.id && a.version == s.version
    ensures MigrateOne(t, s) == if Taken(t.artifacts, p.id, s.version) then Failure(DuplicateVersion) else Success(Tables(next, t.artifacts + [a]))
  {
    FoundIsCompatible(t.packages, s);
    EvidenceIsFaithful(p.items.value, s.snapshot, s.sections);
    a := ArtifactOf(s, p, AllEvidence(s.sections, p.items.value).value);
  }

  lemma {:induction false} SucceedsIffClear(artifacts: seq<Artifact>, added: seq<Artifact>, ps: seq<Package>, todo: seq<Script>)
    requires Genuine(ps) && DistinctPackages(ps) && DistinctScripts(todo) && Harmless(added, ps, todo)
    requires forall s | s in todo :: Sound(s)
    ensures MigrateAll(Tables(ps, artifacts + added), todo).Success? <==> Clear(artifacts, ps, todo)
    decreases |todo|
  {
    if todo != [] {
      var s, t := todo[0], Tables(ps, artifacts + added);
      TailDistinct(todo);
      var next, p := ChoiceStep(ps, s);
      AddedDoNotMatter(artifacts, added, ps, s, p);
      if Migrated(artifacts, s.id) {
        SucceedsIffClear(artifacts, added, ps, todo[1..]);
      } else {
        var a := MigrateStep(t, s, next, p);
        if !Taken(artifacts, p.id, s.version) {
          assert t.artifacts + [a] == artifacts + (added + [a]);
          HarmlessNext(added, a, ps, next, p, todo);
          SucceedsIffClear(artifacts, added + [a], next, todo[1..]);
        }
      }
    }
  }

  /**
    * Sound scripts migrate if and only if no chosen package already holds a clean script of the
    * script's version. Scripts of one session have different versions, so they never get in
    * each other's way.
    */
  lemma {:induction false} UpgradeSucceedsExactly(t: Tables, scripts: seq<Script>)
    requires Genuine(t.packages) && DistinctPackages(t.packages) && DistinctScripts(scripts)
    requires forall s | s in scripts :: Sound(s)
    ensures MigrateAll(t, scripts).Success? <==> Clear(t.artifacts, t.packages, scripts)
  {
    assert t.artifacts + [] == t.artifacts;
    SucceedsIffClear(t.artifacts, [], t.packages, scripts);
  }

  /** A session with one package, which already holds clean script 1 of the package workflow, and a legacy script 1. */
  function TakenTables(): Tables {
    var snapshot := [Segment("a", "hello", 0, 100)];
    Tables([Package(Random("p"), "s", 1, Frozen, Some(Built("s", snapshot)))],
           [Artifact("x", Random("p"), 1, CleanScript, None, 1, Current("clean-script"), [], [])])
  }

  function TakenScript(): Script { Script("y", "s", 1, [Segment("a", "hello", 0, 100)], [Section("t", ["a"])], "") }

  lemma {:induction false} TakenScriptIsSound()
    ensures Sound(TakenScript())
  {
    var s := TakenScript();
    var ids := SnapshotIds(s.snapshot);
    assert s.snapshot[..0] == [] && SnapshotIds(s.snapshot[..0]) == [];
    assert ids == ["a"];
    assert s.sections[0].segments == ["a"];
    assert forall x :: x in ids <==> x in s.sections[0].segments;
  }

  /** The upgrade stops on it, although the script is sound and nothing of this migration is there yet. */
  lemma {:induction false} VersionCanBeTaken()
    ensures Sound(TakenScript()) && Genuine(TakenTables().packages) && Untouched(TakenTables(), [TakenScript()])
    ensures MigrateAll(TakenTables(), [TakenScript()]) == Failure(DuplicateVersion)
  {
    var t, s := TakenTables(), TakenScript();
    var p := t.packages[0];
    TakenScriptIsSound();
    BuiltIsCompatible("s", s.snapshot, s.sections);
    assert Candidate(p, s) && t.packages[..0] == [];
    assert Pick(t.packages, s) == Some(p);
    assert "x"[0] != "y"[0] && !Migrated(t.artifacts, s.id);
    var a := MigrateStep(t, s, t.packages, p);
    assert t.artifacts[0].version == s.version && Taken(t.artifacts, p.id, s.version);
  }

  lemma {:induction false} NothingToDo(t: Tables, scripts: seq<Script>)
    requires forall i | 0 <= i < |scripts| :: Migrated(t.artifacts, scripts[i].id)
    ensures MigrateAll(t, scripts) == Success(t)
    decreases |scripts|
  {
    if scripts != [] {
      assert forall i | 0 <= i < |scripts[1..]| :: scripts[1..][i] == scripts[i + 1];
      NothingToDo(t, scripts[1..]);
    }
  }

  /** Running the upgrade again changes nothing. */
  lemma {:induction false} UpgradeIsIdempotent(t: Tables, scripts: seq<Script>)
    requires MigrateAll(t, scripts).Success?
    ensures MigrateAll(MigrateAll(t, scripts).value, scripts) == MigrateAll(t, scripts)
  {
    AllLegacy(scripts);
    AllExtends(t, scripts, scripts);
    NothingToDo(MigrateAll(t, scripts).value, scripts);
  }

  // ----- frozen packages

  function FrozenCount(ps: seq<Package>, session: string): nat {
    if ps == [] then 0
    else FrozenCount(ps[..|ps| - 1], session) +
         (if ps[|ps| - 1].session == session && ps[|ps| - 1].status.Frozen? then 1 else 0)
  }

  lemma {:induction false} NoneFrozen(ps: seq<Package>, session: string)
    requires !HasPackage(ps, session)
    ensures FrozenCount(ps, session) == 0
  {
    if ps != [] {
      NoneFrozen(ps[..|ps| - 1], session);
    }
  }

  lemma {:induction false} FrozenStep(t: Tables, s: Script, session: string)
    requires MigrateOne(t, s).Success?
    ensures var n := FrozenCount(MigrateOne(t, s).value.packages, session);
            n == FrozenCount(t.packages, session) || (FrozenCount(t.packages, session) == 0 && n == 1)
  {
    var ps, qs := t.packages, MigrateOne(t, s).value.packages;
    if qs != ps {
      assert qs == ps + [NewPackage(ps, s)] && qs[..|ps|] == ps;
      if !HasPackage(ps, s.session) {
        NoneFrozen(ps, s.session);
      }
    }
  }

  /** The upgrade never makes a second frozen package for a session. */
  lemma {:induction false} NoSecondFrozen(t: Tables, scripts: seq<Script>, session: string)
    requires MigrateAll(t, scripts).Success? && FrozenCount(t.packages, session) <= 1
    ensures FrozenCount(MigrateAll(t, scripts).value.packages, session) <= 1
    decreases |scripts|
  {
    if scripts != [] {
      FrozenStep(t, scripts[0], session);
      NoSecondFrozen(MigrateOne(t, scripts[0]).value, scripts[1..], session);
    }
  }

  lemma {:induction false} LatestIsLatest(ps: seq<Package>, session: string)
    ensures forall p | p in ps && p.session == session :: p.version <= LatestVersion(ps, session)
    ensures LatestVersion(ps, session) == 0 || exists p :: p in ps && p.session == session && p.version == LatestVersion(ps, session)
  {
    if ps != [] {
      LatestIsLatest(ps[1..], session);
      assert forall p :: p in ps <==> p == ps[0] || p in ps[1..];
    }
  }

  /**
    * A package that the upgrade builds: the snapshot itself as items, the next version of its
    * session, and frozen only if the session had no package at all.
    */
  lemma {:induction false} BuiltPackageExactly(ps: seq<Package>, s: Script)
    requires Pick(ps, s).None? && ById(ps, LegacyId(s)).None? && s.snapshot != []
    ensures var r := FindOrCreate(ps, s);
            r.Success? &&
            var p := r.value.1;
            && r.value.0 == ps + [p] && p.session == s.session
            && p.items.Some? && |p.items.value| == |s.snapshot|
            && (forall i | 0 <= i < |s.snapshot| ::
                  var item, segment := p.items.value[i], s.snapshot[i];
                  item.segments == [segment.id] && item.text == segment.text && item.start == segment.start && item.end == segment.end)
            && p.status == (if exists q :: q in ps && q.session == s.session then Superseded else Frozen)
            && (forall q | q in ps && q.session == s.session :: q.version < p.version)
            && (p.version == 1 || exists q :: q in ps && q.session == s.session && q.version == p.version - 1)
  {
    BuiltIds(s.session, s.snapshot);
    LatestIsLatest(ps, s.session);
    if exists q :: q in ps && q.session == s.session {
      var q :| q in ps && q.session == s.session;
      var i :| 0 <= i < |ps| && ps[i] == q;
      assert HasPackage(ps, s.session);
    }
  }

  /** Within a session no two packages have the same version. */
  ghost predicate VersionsApart(ps: seq<Package>) {
    forall i, j | 0 <= i < j < |ps| :: !(ps[i].session == ps[j].session && ps[i].version == ps[j].version)
  }

  /** The upgrade gives every package it builds a version that its session has not used. */
  lemma {:induction false} VersionsStayApart(t: Tables, scripts: seq<Script>)
    requires MigrateAll(t, scripts).Success? && VersionsApart(t.packages)
    ensures VersionsApart(MigrateAll(t, scripts).value.packages)
    decreases |scripts|
  {
    if scripts != [] {
      LatestIsLatest(t.packages, scripts[0].session);
      var next := MigrateOne(t, scripts[0]).value;
      assert next.packages == t.packages || next.packages == t.packages + [NewPackage(t.packages, scripts[0])];
      assert forall i | 0 <= i < |t.packages| :: t.packages[i] in t.packages;
      VersionsStayApart(next, scripts[1..]);
    }
  }

  // ----- there and back

  lemma {:induction false} LeftPrefix<T>(xs: seq<T>, n: nat, drop: T -> bool)
    requires n <= |xs| && forall i | n <= i < |xs| :: drop(xs[i])
    ensures Left(xs, drop) == Left(xs[..n], drop)
  {
    if n == |xs| {
      assert xs[..n] == xs;
    } else {
      assert xs[..|xs| - 1][..n] == xs[..n];
      LeftPrefix(xs[..|xs| - 1], n, drop);
    }
  }

  ghost predicate NoneDropped<T>(xs: seq<T>, drop: T -> bool) { forall i | 0 <= i < |xs| :: !drop(xs[i]) }

  /** A deletion leaves everything exactly if it drops nothing. */
  lemma {:induction false} LeftAlone<T>(xs: seq<T>, drop: T -> bool)
    ensures |Left(xs, drop)| <= |xs|
    ensures Left(xs, drop) == xs <==> NoneDropped(xs, drop)
  {
    if xs != [] {
      var front, last := xs[..|xs| - 1], xs[|xs| - 1];
      LeftAlone(front, drop);
      NoneDroppedSnoc(front, last, drop);
      assert front + [last] == xs;
      if !drop(last) {
        SnocEqual(Left(front, drop), front, last);
      }
    }
  }

  lemma {:induction false} NoneDroppedSnoc<T>(front: seq<T>, last: T, drop: T -> bool)
    ensures NoneDropped(front + [last], drop) <==> NoneDropped(front, drop) && !drop(last)
  {
    var xs := front + [last];
    assert xs[|front|] == last;
    assert forall i | 0 <= i < |front| :: xs[i] == front[i];
  }

  lemma {:induction false} SnocEqual<T>(a: seq<T>, b: seq<T>, x: T)
    ensures a + [x] == b + [x] <==> a == b
  {
    if a + [x] == b + [x] {
      assert a == (a + [x])[..|a|] && b == (b + [x])[..|b|];
      assert |a + [x]| == |b + [x]|;
    }
  }

  /** Nothing in the tables looks like the work of this migration. */
  ghost predicate Untouched(t: Tables, scripts: seq<Script>) {
    NoneDropped(t.packages, DropPackage(scripts)) && NoneDropped(t.artifacts, DropArtifact())
  }

  /** The downgrade takes the upgrade back exactly when nothing of this migration was there before. */
  lemma {:induction false} DowngradeRestores(t: Tables, scripts: seq<Script>)
    requires MigrateAll(t, scripts).Success?
    ensures Reverted(MigrateAll(t, scripts).value, scripts) == t <==> Untouched(t, scripts)
  {
    AllLegacy(scripts);
    AllExtends(t, scripts, scripts);
    RevertsToStart(t, MigrateAll(t, scripts).value, scripts);
    LeftAlone(t.packages, DropPackage(scripts));
    LeftAlone(t.artifacts, DropArtifact());
  }

  lemma {:induction false} RevertsToStart(t: Tables, next: Tables, scripts: seq<Script>)
    requires Extends(t, next, scripts)
    ensures Reverted(next, scripts) == Reverted(t, scripts)
  {
    LeftPrefix(next.packages, |t.packages|, DropPackage(scripts));
    LeftPrefix(next.artifacts, |t.artifacts|, DropArtifact());
    assert next.packages[..|t.packages|] == t.packages && next.artifacts[..|t.artifacts|] == t.artifacts;
  }
}

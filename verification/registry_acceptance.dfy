/**
 When a publication is accepted and what it then leaves: a request that no other run interferes with and
 whose calls are all answered, from any reachable state.
 */
module RegistryAcceptance {
  import opened Options
  import opened RegistryTables
  import opened RegistryRuns
  import opened RegistryLedger
  import opened RegistryInvariant
  import opened RegistryStatements

  // ---------------------------------------------------------------- a run left alone

  function Stage(pc: PublisherPc): nat {
    match pc
    case Lookup => 14
    case ReadClock => 13
    case TouchPending => 12
    case CheckVersion(_) => 11
    case CheckDependency(_) => 10
    case ReadQuota => 9
    case ReserveBatch => 8
    case TouchAfterConflict => 7
    case Put(_) => 6
    case Head(_) => 6
    case ReadClaimClock => 5
    case Claim(_) => 4
    case LookupAfterClaim => 3
    case CommitBatch => 2
    case LookupAfterCommit => 1
    case Returned(_) => 0
    case Stopped => 0
  }

  function Before(i: nat, n: nat): nat { if i < n then n - i else 0 }

  /** How much of its loop the run has before it. */
  function Ahead(r: PublisherRun): nat {
    match r.pc
    case CheckVersion(i) => Before(i, |r.bundle.artifacts|)
    case CheckDependency(i) => Before(i, |r.bundle.dependencies|)
    case Put(i) => 2 * Before(i, |r.bundle.artifacts|) + 1
    case Head(i) => 2 * Before(i, |r.bundle.artifacts|)
    case _ => 0
  }

  lemma ResumeKeepsBundle(r: PublisherRun, stored: PublishResult, next: PublisherPc)
    ensures Resume(r, stored, next).bundle == r.bundle
    ensures Resume(r, stored, next).pc == next || Resume(r, stored, next).pc.Stopped?
  {
  }

  ghost predicate Descends(q: PublisherRun, r: PublisherRun) {
    Stage(q.pc) < Stage(r.pc) || (Stage(q.pc) == Stage(r.pc) && Ahead(q) < Ahead(r))
  }

  lemma LoopStepDescends(t: Registry, r: PublisherRun)
    requires r.pc.CheckVersion? || r.pc.CheckDependency? || r.pc.Put? || r.pc.Head?
    ensures Descends(PublisherStep(t, r, Clear).1, r)
  {
    hide DependencyAccepted, LatestVersion, PutIfAbsent;
  }

  lemma TouchStepDescends(t: Registry, r: PublisherRun)
    requires r.pc.TouchPending? || r.pc.TouchAfterConflict?
    ensures Descends(PublisherStep(t, r, Clear).1, r)
  {
    hide Touch, Resume;
    if Resumable(t, r.Key(), r.bundle) {
      ResumeKeepsBundle(r, t.intents[r.Key()].result, if r.pc.TouchPending? then CheckVersion(0) else Put(0));
    }
  }

  lemma StepDescends(t: Registry, r: PublisherRun)
    requires r.Live()
    ensures Descends(PublisherStep(t, r, Clear).1, r)
  {
    hide Reserve, Commit, CanReserve, CanCommit, Touch, Resume, WithinQuota, Resumable, ClaimFinalization;
    if r.pc.CheckVersion? || r.pc.CheckDependency? || r.pc.Put? || r.pc.Head? {
      LoopStepDescends(t, r);
      hide PublisherStep;
    } else if r.pc.TouchPending? || r.pc.TouchAfterConflict? {
      TouchStepDescends(t, r);
      hide PublisherStep;
    }
  }

  /** Only this run's steps, every call answered, to the end. */
  ghost function Alone(t: Registry, r: PublisherRun): (Registry, PublisherRun)
    decreases Stage(r.pc), Ahead(r)
  {
    if !r.Live() then (t, r)
    else
      StepDescends(t, r);
      var (u, q) := PublisherStep(t, r, Clear);
      Alone(u, q)
  }

  // ---------------------------------------------------------------- what is asked of a request

  /** The version is one above the highest committed one of its identity. */
  ghost predicate IsNext(versions: map<Coordinate, Version>, c: Coordinate) {
    && (c.version == 1 || (1 < c.version && c.(version := c.version - 1) in versions))
    && forall d :: d in versions && SameIdentity(d, c) ==> d.version < c.version
  }

  /** The skill is in the same bundle or published, with the digest asked for. */
  ghost predicate IsAvailable(versions: map<Coordinate, Version>, bundle: Bundle, d: Dependency) {
    && d.registry == PUBLIC_ORIGIN
    && ((exists i :: 0 <= i < |bundle.artifacts| && bundle.artifacts[i].Key() == ObjectKey(d.Skill(), d.digest))
        || (d.Skill() in versions && versions[d.Skill()].digest == d.digest))
  }

  /** The skill the dependency names is in the bundle, in whatever version of its content. */
  ghost predicate IsBundled(bundle: Bundle, d: Dependency) {
    exists i :: 0 <= i < |bundle.artifacts| && bundle.artifacts[i].coordinate == d.Skill()
  }

  /** Against any tables a bundled skill counts alone, and otherwise the published one. */
  ghost predicate MeetsDependency(versions: map<Coordinate, Version>, bundle: Bundle, d: Dependency) {
    && d.registry == PUBLIC_ORIGIN
    && if IsBundled(bundle, d)
       then exists i :: 0 <= i < |bundle.artifacts| && bundle.artifacts[i].Key() == ObjectKey(d.Skill(), d.digest)
       else d.Skill() in versions && versions[d.Skill()].digest == d.digest
  }

  /** No committed version of the identity has this content. */
  ghost predicate IsNewContent(versions: map<Coordinate, Version>, a: Artifact) {
    forall d :: d in versions && SameIdentity(d, a.coordinate) ==> versions[d].digest != a.digest
  }

  function Sizes(artifacts: seq<Artifact>): int {
    if artifacts == [] then 0 else artifacts[0].sizeBytes + Sizes(artifacts[1..])
  }

  function UsedToday(t: Registry, githubUserId: nat): Usage {
    var key := UsageKey(githubUserId, t.clock / 86400);
    if key in t.usage then t.usage[key] else Usage(0, 0)
  }

  /** Room for a new reservation: the key and the coordinates are free, and the daily limits hold. */
  ghost predicate HasRoom(t: Registry, publisher: Publisher, bundle: Bundle) {
    && PublicationKey(publisher.githubUserId, bundle.idempotencyKey) !in t.intents
    && (forall i :: 0 <= i < |bundle.artifacts| ==> bundle.artifacts[i].coordinate !in t.uploads)
    && UsedToday(t, publisher.githubUserId).artifactCount + |bundle.artifacts| <= 50
    && UsedToday(t, publisher.githubUserId).byteCount + Sizes(bundle.artifacts) <= 10_485_760
  }

  /** The same request is pending already and not yet in cleanup. */
  ghost predicate IsPending(t: Registry, key: PublicationKey, bundle: Bundle) {
    && key in t.intents && t.intents[key].bundle == bundle
    && (t.intents[key].phase == Uploading || t.intents[key].phase == Finalizing)
  }

  ghost predicate IsPublishable(versions: map<Coordinate, Version>, bundle: Bundle) {
    && (forall i :: 0 <= i < |bundle.artifacts| ==> IsNext(versions, bundle.artifacts[i].coordinate))
    && (forall i :: 0 <= i < |bundle.artifacts| ==> IsNewContent(versions, bundle.artifacts[i]))
    && (forall i :: 0 <= i < |bundle.dependencies| ==> IsAvailable(versions, bundle, bundle.dependencies[i]))
  }

  ghost predicate Acceptable(t: Registry, publisher: Publisher, bundle: Bundle) {
    var key := PublicationKey(publisher.githubUserId, bundle.idempotencyKey);
    if key in t.mutations then t.mutations[key].bundle == bundle
    else IsPublishable(t.versions, bundle) && (IsPending(t, key, bundle) || HasRoom(t, publisher, bundle))
  }

  // ---------------------------------------------------------------- the checks

  lemma NextIsAboveLatest(versions: map<Coordinate, Version>, c: Coordinate)
    requires VersionsContiguous(versions)
    ensures IsNext(versions, c) <==> c.version == LatestVersion(versions, c) + 1
  {
    LatestVersionExists(versions, c);
    var latest := LatestVersion(versions, c);
    if c.version == latest + 1 {
      assert c.(version := c.version - 1) == c.(version := latest);
    }
    if IsNext(versions, c) && c.version > 1 {
      assert SameIdentity(c.(version := c.version - 1), c);
    }
    if IsNext(versions, c) && latest > 0 {
      assert SameIdentity(c.(version := latest), c);
    }
  }

  ghost predicate NextFrom(versions: map<Coordinate, Version>, bundle: Bundle, i: nat) {
    forall j :: i <= j < |bundle.artifacts| ==> IsNext(versions, bundle.artifacts[j].coordinate)
  }

  lemma {:induction false} VersionsDecide(t: Registry, r: PublisherRun, i: nat)
    requires VersionsContiguous(t.versions) && r.pc == CheckVersion(i) && i <= |r.bundle.artifacts|
    ensures Alone(t, r) == if NextFrom(t.versions, r.bundle, i) then Alone(t, r.At(CheckDependency(0)))
                           else (t, r.At(PublisherPc.Stopped))
    decreases |r.bundle.artifacts| - i
  {
    hide IsNext, LatestVersion, VersionsContiguous;
    if i < |r.bundle.artifacts| {
      NextIsAboveLatest(t.versions, r.bundle.artifacts[i].coordinate);
      if IsNext(t.versions, r.bundle.artifacts[i].coordinate) {
        VersionsDecide(t, r.At(CheckVersion(i + 1)), i + 1);
        assert r.At(CheckVersion(i + 1)).At(CheckDependency(0)) == r.At(CheckDependency(0));
        assert r.At(CheckVersion(i + 1)).At(PublisherPc.Stopped) == r.At(PublisherPc.Stopped);
        assert NextFrom(t.versions, r.bundle, i) <==> NextFrom(t.versions, r.bundle, i + 1);
      }
    }
  }

  lemma {:induction false} BundledSkillIs(artifacts: seq<Artifact>, c: Coordinate)
    ensures BundledSkill(artifacts, c).None? <==> forall i :: 0 <= i < |artifacts| ==> artifacts[i].coordinate != c
    decreases |artifacts|
  {
    if artifacts != [] {
      BundledSkillIs(artifacts[..|artifacts| - 1], c);
    }
  }

  lemma MetIsAccepted(versions: map<Coordinate, Version>, bundle: Bundle, d: Dependency)
    requires bundle.Valid()
    ensures MeetsDependency(versions, bundle, d) <==> DependencyAccepted(versions, bundle, d)
  {
    var c := d.Skill();
    BundledSkillIs(bundle.artifacts, c);
    var found := BundledSkill(bundle.artifacts, c);
    if found.Some? {
      var i :| 0 <= i < |bundle.artifacts| && bundle.artifacts[i] == found.value;
      forall j | 0 <= j < |bundle.artifacts| && bundle.artifacts[j].coordinate == c ensures j == i {
        assert SameIdentity(bundle.artifacts[i].coordinate, bundle.artifacts[j].coordinate);
      }
      assert bundle.artifacts[i].Key() == ObjectKey(c, found.value.digest);
    }
  }

  /** Where the bundled versions are unpublished, a skill bundled with another digest is not published either. */
  lemma AvailableIsAccepted(versions: map<Coordinate, Version>, bundle: Bundle, d: Dependency)
    requires bundle.Valid() && NextFrom(versions, bundle, 0)
    ensures IsAvailable(versions, bundle, d) <==> DependencyAccepted(versions, bundle, d)
  {
    MetIsAccepted(versions, bundle, d);
    if i :| 0 <= i < |bundle.artifacts| && bundle.artifacts[i].coordinate == d.Skill() {
      assert IsNext(versions, bundle.artifacts[i].coordinate) && SameIdentity(d.Skill(), d.Skill());
    } else {
      assert forall i :: 0 <= i < |bundle.artifacts| ==> bundle.artifacts[i].Key().coordinate != d.Skill();
    }
  }

  ghost predicate AvailableFrom(versions: map<Coordinate, Version>, bundle: Bundle, i: nat) {
    forall j :: i <= j < |bundle.dependencies| ==> IsAvailable(versions, bundle, bundle.dependencies[j])
  }

  lemma {:induction false} DependenciesDecide(t: Registry, r: PublisherRun, i: nat)
    requires r.bundle.Valid() && NextFrom(t.versions, r.bundle, 0)
    requires r.pc == CheckDependency(i) && i <= |r.bundle.dependencies|
    ensures Alone(t, r) == if AvailableFrom(t.versions, r.bundle, i)
                           then Alone(t, r.At(if r.resumed then Put(0) else ReadQuota))
                           else (t, r.At(PublisherPc.Stopped))
    decreases |r.bundle.dependencies| - i
  {
    hide IsAvailable, DependencyAccepted, NextFrom;
    if i < |r.bundle.dependencies| {
      AvailableIsAccepted(t.versions, r.bundle, r.bundle.dependencies[i]);
      if IsAvailable(t.versions, r.bundle, r.bundle.dependencies[i]) {
        var q := r.At(CheckDependency(i + 1));
        DependenciesDecide(t, q, i + 1);
        assert q.At(Put(0)) == r.At(Put(0)) && q.At(ReadQuota) == r.At(ReadQuota);
        assert q.At(PublisherPc.Stopped) == r.At(PublisherPc.Stopped);
        assert AvailableFrom(t.versions, r.bundle, i) <==> AvailableFrom(t.versions, r.bundle, i + 1);
      }
    }
  }

  // ---------------------------------------------------------------- storing and committing

  function StoredFrom(t: Registry, artifacts: seq<Artifact>, i: nat): Registry
    decreases |artifacts| - i
  {
    if i >= |artifacts| then t else StoredFrom(PutIfAbsent(t, artifacts[i]), artifacts, i + 1)
  }

  lemma {:induction false} PutsSucceed(t: Registry, r: PublisherRun, i: nat)
    requires ObjectsOk(t.objects) && r.pc == Put(i) && i <= |r.bundle.artifacts|
    ensures Alone(t, r) == Alone(StoredFrom(t, r.bundle.artifacts, i), r.At(ReadClaimClock))
    decreases |r.bundle.artifacts| - i
  {
    if i < |r.bundle.artifacts| {
      var a := r.bundle.artifacts[i];
      var u, q := PutIfAbsent(t, a), r.At(Put(i + 1));
      if a.Key() in t.objects {
        assert Alone(t, r) == Alone(t, r.At(Head(i)));
        assert r.At(Head(i)).At(Put(i + 1)) == q;
      }
      assert Alone(t, r) == Alone(u, q);
      PutsSucceed(u, q, i + 1);
      assert q.At(ReadClaimClock) == r.At(ReadClaimClock);
    }
  }

  ghost predicate KeyFrom(artifacts: seq<Artifact>, i: nat, k: ObjectKey) {
    exists j :: i <= j < |artifacts| && artifacts[j].Key() == k
  }

  lemma KeyFromNext(artifacts: seq<Artifact>, i: nat, k: ObjectKey)
    requires i < |artifacts|
    ensures KeyFrom(artifacts, i, k) <==> artifacts[i].Key() == k || KeyFrom(artifacts, i + 1, k)
  {
    if KeyFrom(artifacts, i, k) {
      var j :| i <= j < |artifacts| && artifacts[j].Key() == k;
      assert j == i || i + 1 <= j;
    }
  }

  lemma {:induction false} StoredHolds(t: Registry, artifacts: seq<Artifact>, i: nat)
    requires ObjectsOk(t.objects) && i <= |artifacts|
    ensures
      var u := StoredFrom(t, artifacts, i);
      && u == t.(objects := u.objects) && ObjectsOk(u.objects)
      && forall k :: k in u.objects <==> k in t.objects || KeyFrom(artifacts, i, k)
    decreases |artifacts| - i
  {
    hide KeyFrom;
    if i < |artifacts| {
      var v := PutIfAbsent(t, artifacts[i]);
      StoredHolds(v, artifacts, i + 1);
      forall k { KeyFromNext(artifacts, i, k); }
    } else {
      forall k ensures !KeyFrom(artifacts, i, k) { NoKeyFrom(artifacts, i, k); }
    }
  }

  lemma NoKeyFrom(artifacts: seq<Artifact>, i: nat, k: ObjectKey)
    requires |artifacts| <= i
    ensures !KeyFrom(artifacts, i, k)
  {
  }

  lemma CommitsAlone(t: Registry, r: PublisherRun)
    requires r.pc.CommitBatch? && r.Key() !in t.mutations
    ensures CanCommit(t, r.Key(), r.bundle) ==>
              Alone(t, r) == (Commit(t, r.Key(), r.bundle, r.result), r.At(Returned(r.result)))
    ensures !CanCommit(t, r.Key(), r.bundle) ==> Alone(t, r) == (t, r.At(PublisherPc.Stopped))
  {
    hide CanCommit, Commit;
    if CanCommit(t, r.Key(), r.bundle) {
      assert PublisherStep(t, r, Clear) == (Commit(t, r.Key(), r.bundle, r.result), r.At(Returned(r.result)));
    } else {
      var q := r.At(LookupAfterCommit);
      assert q.Key() == r.Key() && q.At(PublisherPc.Stopped) == r.At(PublisherPc.Stopped);
      assert PublisherStep(t, q, Clear) == (t, r.At(PublisherPc.Stopped));
      assert Alone(t, q) == (t, r.At(PublisherPc.Stopped));
    }
  }

  lemma FinishesAlone(t: Registry, r: PublisherRun)
    requires r.pc.ReadClaimClock? && r.Key() !in t.mutations && Resumable(t, r.Key(), r.bundle)
    ensures
      var claimed := ClaimFinalization(t, r.Key(), r.bundle, t.clock);
      Alone(t, r) == if CanCommit(t, r.Key(), r.bundle)
                     then (Commit(claimed, r.Key(), r.bundle, r.result), r.At(Returned(r.result)))
                     else (claimed, r.At(PublisherPc.Stopped))
  {
    hide CanCommit, Commit, Resumable;
    var claimed := ClaimFinalization(t, r.Key(), r.bundle, t.clock);
    ClaimedCommits(t, r.Key(), r.bundle, t.clock);
    assert Alone(t, r) == Alone(t, r.At(Claim(t.clock)));
    var q := r.At(CommitBatch);
    assert r.At(Claim(t.clock)).At(CommitBatch) == q;
    assert Alone(t, r.At(Claim(t.clock))) == Alone(claimed, q);
    CommitsAlone(claimed, q);
    assert q.At(Returned(r.result)) == r.At(Returned(r.result)) && q.At(PublisherPc.Stopped) == r.At(PublisherPc.Stopped);
    hide Alone;
  }

  lemma ClaimedCommits(t: Registry, key: PublicationKey, bundle: Bundle, now: int)
    ensures CanCommit(ClaimFinalization(t, key, bundle, now), key, bundle) <==> CanCommit(t, key, bundle)
    ensures ClaimFinalization(t, key, bundle, now).mutations == t.mutations
  {
  }

  lemma DependencyHasRecipe(t: Registry, key: DependencyKey)
    requires TablesOk(t) && key in t.dependencies
    ensures key.recipe in t.versions
  {
    assert DependencyClosed(t.versions, key, t.dependencies[key]);
  }

  lemma PublishableCommits(t: Registry, key: PublicationKey, bundle: Bundle)
    requires TablesOk(t) && key !in t.mutations && NextFrom(t.versions, bundle, 0) && bundle.Valid()
    ensures CanCommit(t, key, bundle) <==>
              forall i :: 0 <= i < |bundle.artifacts| ==> IsNewContent(t.versions, bundle.artifacts[i])
  {
    forall i | 0 <= i < |bundle.artifacts| ensures bundle.artifacts[i].coordinate !in t.versions {
      assert IsNext(t.versions, bundle.artifacts[i].coordinate);
      assert SameIdentity(bundle.artifacts[i].coordinate, bundle.artifacts[i].coordinate);
    }
    forall i | 0 <= i < |bundle.dependencies| ensures DependencyKeyOf(bundle, bundle.dependencies[i]) !in t.dependencies {
      if DependencyKeyOf(bundle, bundle.dependencies[i]) in t.dependencies {
        DependencyHasRecipe(t, DependencyKeyOf(bundle, bundle.dependencies[i]));
      }
    }
    if forall i :: 0 <= i < |bundle.artifacts| ==> IsNewContent(t.versions, bundle.artifacts[i]) {
      forall i, c | 0 <= i < |bundle.artifacts| && c in t.versions
        ensures !(SameIdentity(c, bundle.artifacts[i].coordinate) && t.versions[c].digest == bundle.artifacts[i].digest)
      {
        assert IsNewContent(t.versions, bundle.artifacts[i]);
      }
    }
  }

  lemma {:induction false} SizesAreTotal(artifacts: seq<Artifact>)
    ensures Sizes(artifacts) == TotalBytes(artifacts)
    decreases |artifacts|
  {
    if |artifacts| > 0 {
      var last := |artifacts| - 1;
      SizesAreTotal(artifacts[1..]);
      if last > 0 {
        SizesAreTotal(artifacts[..last]);
        SizesAreTotal(artifacts[1..][..last - 1]);
        assert artifacts[1..][..last - 1] == artifacts[..last][1..];
        assert artifacts[1..][last - 1] == artifacts[last];
      } else {
        assert artifacts[..0] == [] && artifacts[1..] == [];
      }
    }
  }

  lemma RoomIsReservable(t: Registry, publisher: Publisher, bundle: Bundle)
    ensures
      var key := PublicationKey(publisher.githubUserId, bundle.idempotencyKey);
      var usage := Plus(CurrentUsage(t, UsageKey(key.githubUserId, Day(t.clock))), Demand(bundle));
      HasRoom(t, publisher, bundle) <==> WithinQuota(usage) && CanReserve(t, key, bundle, Day(t.clock))
  {
    SizesAreTotal(bundle.artifacts);
  }

  // ---------------------------------------------------------------- from the first statement to the last

  ghost predicate AllNew(versions: map<Coordinate, Version>, bundle: Bundle) {
    forall i :: 0 <= i < |bundle.artifacts| ==> IsNewContent(versions, bundle.artifacts[i])
  }

  /** The tables after a run that found the key's intent open. */
  ghost function Ending(t: Registry, key: PublicationKey, bundle: Bundle, result: PublishResult): Registry {
    Commit(ClaimFinalization(StoredFrom(t, bundle.artifacts, 0), key, bundle, t.clock), key, bundle, result)
  }

  ghost predicate PublishesNothing(t: Registry, u: Registry) {
    u.versions == t.versions && u.dependencies == t.dependencies && u.mutations == t.mutations
  }

  lemma StoredCommits(t: Registry, u: Registry, key: PublicationKey, bundle: Bundle)
    requires u == t.(objects := u.objects)
    ensures CanCommit(u, key, bundle) <==> CanCommit(t, key, bundle)
    ensures Resumable(u, key, bundle) <==> Resumable(t, key, bundle)
    ensures PublishesNothing(t, ClaimFinalization(u, key, bundle, t.clock))
  {
  }

  lemma FromPut(t: Registry, r: PublisherRun)
    requires TablesOk(t) && r.pc == Put(0) && r.bundle.Valid() && NextFrom(t.versions, r.bundle, 0)
    requires r.Key() !in t.mutations && Resumable(t, r.Key(), r.bundle)
    ensures AllNew(t.versions, r.bundle) ==>
              Alone(t, r) == (Ending(t, r.Key(), r.bundle, r.result), r.At(Returned(r.result)))
    ensures !AllNew(t.versions, r.bundle) ==>
              Alone(t, r).1 == r.At(PublisherPc.Stopped) && PublishesNothing(t, Alone(t, r).0)
  {
    var u, q := StoredFrom(t, r.bundle.artifacts, 0), r.At(ReadClaimClock);
    PutsSucceed(t, r, 0);
    StoredHolds(t, r.bundle.artifacts, 0);
    StoredCommits(t, u, r.Key(), r.bundle);
    PublishableCommits(t, r.Key(), r.bundle);
    FinishesAlone(u, q);
    assert q.At(Returned(r.result)) == r.At(Returned(r.result)) && q.At(PublisherPc.Stopped) == r.At(PublisherPc.Stopped);
    assert q.Key() == r.Key();
    hide Alone, Commit, CanCommit, ClaimFinalization, StoredFrom, Resumable;
  }

  lemma FromQuota(t: Registry, r: PublisherRun)
    requires r.pc.ReadQuota? && r.now == t.clock && !Resumable(t, r.Key(), r.bundle)
    ensures HasRoom(t, r.publisher, r.bundle) ==>
              Alone(t, r) == Alone(Reserve(t, r.Key(), r.bundle, r.result, r.now), r.At(Put(0)))
    ensures !HasRoom(t, r.publisher, r.bundle) ==> Alone(t, r) == (t, r.At(PublisherPc.Stopped))
  {
    hide HasRoom, CanReserve, Reserve, WithinQuota, Resumable, CurrentUsage, Plus, Demand;
    RoomIsReservable(t, r.publisher, r.bundle);
    if WithinQuota(Plus(CurrentUsage(t, UsageKey(r.Key().githubUserId, Day(r.now))), Demand(r.bundle))) {
      var q := r.At(ReserveBatch);
      assert Alone(t, r) == Alone(t, q);
      if CanReserve(t, r.Key(), r.bundle, Day(r.now)) {
        assert q.At(Put(0)) == r.At(Put(0)) && q.Key() == r.Key();
        assert PublisherStep(t, q, Clear) == (Reserve(t, r.Key(), r.bundle, r.result, r.now), r.At(Put(0)));
      } else {
        StopsAfterConflict(t, r.At(TouchAfterConflict));
        assert q.At(TouchAfterConflict) == r.At(TouchAfterConflict) && q.Key() == r.Key();
        assert PublisherStep(t, q, Clear) == (t, r.At(TouchAfterConflict));
      }
    }
  }

  lemma StopsAfterConflict(t: Registry, r: PublisherRun)
    requires r.pc.TouchAfterConflict? && !Resumable(t, r.Key(), r.bundle)
    ensures Alone(t, r) == (t, r.At(PublisherPc.Stopped))
  {
    assert PublisherStep(t, r, Clear) == (t, r.At(PublisherPc.Stopped));
  }

  lemma FromTouch(t: Registry, r: PublisherRun)
    requires TablesOk(t) && r.pc.TouchPending?
    ensures Resumable(t, r.Key(), r.bundle) ==>
              Alone(t, r) == Alone(Touch(t, r.Key(), r.bundle, r.now),
                                   r.(resumed := true, result := t.intents[r.Key()].result, pc := CheckVersion(0)))
    ensures !Resumable(t, r.Key(), r.bundle) ==>
              Alone(t, r) == Alone(t, r.(resumed := false, result := Prepare(r.bundle, r.now, r.publisher.profile), pc := CheckVersion(0)))
  {
    if Resumable(t, r.Key(), r.bundle) {
      assert IntentOk(t.intents[r.Key()], t.incarnations);
      ResumeReproduces(r, t.intents[r.Key()].result, CheckVersion(0));
    }
  }

  /** Past the version and dependency checks exactly when both hold of the tables. */
  lemma FromChecks(t: Registry, r: PublisherRun)
    requires TablesOk(t) && r.bundle.Valid() && r.pc == CheckVersion(0)
    ensures
      Alone(t, r) == if NextFrom(t.versions, r.bundle, 0) && AvailableFrom(t.versions, r.bundle, 0)
                     then Alone(t, r.At(if r.resumed then Put(0) else ReadQuota))
                     else (t, r.At(PublisherPc.Stopped))
  {
    hide Alone, NextFrom, AvailableFrom;
    VersionsDecide(t, r, 0);
    var q := r.At(CheckDependency(0));
    if NextFrom(t.versions, r.bundle, 0) {
      DependenciesDecide(t, q, 0);
      assert q.At(Put(0)) == r.At(Put(0)) && q.At(ReadQuota) == r.At(ReadQuota);
      assert q.At(PublisherPc.Stopped) == r.At(PublisherPc.Stopped);
    }
  }

  lemma PublishableParts(versions: map<Coordinate, Version>, bundle: Bundle)
    ensures IsPublishable(versions, bundle) <==>
              NextFrom(versions, bundle, 0) && AvailableFrom(versions, bundle, 0) && AllNew(versions, bundle)
  {
  }

  /** The run stopped and published nothing. */
  ghost predicate Refusal(t: Registry, end: (Registry, PublisherRun)) {
    end.1.pc.Stopped? && PublishesNothing(t, end.0)
  }

  lemma ResumedAlone(t: Registry, r: PublisherRun)
    requires TablesOk(t) && r.bundle.Valid() && r.pc == CheckVersion(0) && r.resumed
    requires r.Key() !in t.mutations && Resumable(t, r.Key(), r.bundle)
    ensures if IsPublishable(t.versions, r.bundle)
            then Alone(t, r) == (Ending(t, r.Key(), r.bundle, r.result), r.At(Returned(r.result)))
            else Refusal(t, Alone(t, r))
  {
    hide Alone, NextFrom, AvailableFrom, AllNew, IsPublishable, Ending, Resumable, TablesOk;
    PublishableParts(t.versions, r.bundle);
    FromChecks(t, r);
    if NextFrom(t.versions, r.bundle, 0) && AvailableFrom(t.versions, r.bundle, 0) {
      var q := r.At(Put(0));
      assert q.Key() == r.Key() && q.At(Returned(r.result)) == r.At(Returned(r.result));
      FromPut(t, q);
    }
  }

  lemma ReservedIsResumable(t: Registry, key: PublicationKey, bundle: Bundle, result: PublishResult, now: int)
    ensures
      var u := Reserve(t, key, bundle, result, now);
      Resumable(u, key, bundle) && PublishesNothing(t, u)
  {
  }

  lemma FreshAlone(t: Registry, r: PublisherRun)
    requires TablesOk(t) && r.bundle.Valid() && r.pc == CheckVersion(0) && !r.resumed && Faithful(r.result, r.bundle)
    requires r.Key() !in t.mutations && !Resumable(t, r.Key(), r.bundle) && r.now == t.clock
    ensures if IsPublishable(t.versions, r.bundle) && HasRoom(t, r.publisher, r.bundle)
            then Alone(t, r) == (Ending(Reserve(t, r.Key(), r.bundle, r.result, t.clock), r.Key(), r.bundle, r.result),
                                 r.At(Returned(r.result)))
            else Refusal(t, Alone(t, r))
  {
    hide Alone, NextFrom, AvailableFrom, AllNew, IsPublishable, Ending, Resumable, TablesOk, HasRoom, Faithful, Reserve, WithinQuota, CanReserve;
    PublishableParts(t.versions, r.bundle);
    FromChecks(t, r);
    if NextFrom(t.versions, r.bundle, 0) && AvailableFrom(t.versions, r.bundle, 0) {
      var q := r.At(ReadQuota);
      assert q.Key() == r.Key();
      FromQuota(t, q);
      if HasRoom(t, r.publisher, r.bundle) {
        var u, p := Reserve(t, r.Key(), r.bundle, r.result, r.now), r.At(Put(0));
        assert q.At(Put(0)) == p && p.Key() == r.Key() && p.At(Returned(r.result)) == r.At(Returned(r.result));
        RoomIsReservable(t, r.publisher, r.bundle);
        ReserveKeepsTables(t, r.Key(), r.bundle, r.result, r.now);
        ReservedIsResumable(t, r.Key(), r.bundle, r.result, r.now);
        FromPut(u, p);
      }
    }
  }

  // ---------------------------------------------------------------- what an accepted request leaves

  ghost predicate VersionsAdded(before: map<Coordinate, Version>, after: map<Coordinate, Version>, bundle: Bundle) {
    && Extends(before, after)
    && (forall c :: c in after <==> c in before || Names(bundle.artifacts, c))
    && forall i :: 0 <= i < |bundle.artifacts| ==>
         after[bundle.artifacts[i].coordinate] == Version(bundle.artifacts[i].digest, bundle.artifacts[i].sizeBytes)
  }

  ghost predicate DependenciesAdded(before: map<DependencyKey, DependencyRow>, after: map<DependencyKey, DependencyRow>, bundle: Bundle) {
    && Extends(before, after)
    && (forall key :: key in after <==> key in before || DependsOn(bundle, key))
    && forall i :: 0 <= i < |bundle.dependencies| ==>
         after[DependencyKeyOf(bundle, bundle.dependencies[i])]
           == DependencyRow(bundle.dependencies[i].version, bundle.dependencies[i].digest)
  }

  ghost predicate ObjectsAdded(before: map<ObjectKey, string>, after: map<ObjectKey, string>, bundle: Bundle) {
    && (forall k :: k in after <==> k in before || KeyFrom(bundle.artifacts, 0, k))
    && ObjectsOk(after)
  }

  /** The rows of the key's intent, its own and its uploads, are gone; the others stay. */
  ghost predicate IntentForgotten(t: Registry, u: Registry, key: PublicationKey) {
    && u.intents == t.intents - {key}
    && (forall c :: c in u.uploads <==> c in t.uploads && t.uploads[c].owner != key)
    && forall c :: c in u.uploads ==> u.uploads[c] == t.uploads[c]
  }

  lemma VersionRowsAdd(versions: map<Coordinate, Version>, bundle: Bundle)
    requires bundle.Valid() && Unpublished(versions, bundle)
    ensures VersionsAdded(versions, versions + VersionRows(bundle), bundle)
  {
    var rows := VersionRows(bundle);
    forall c ensures c in rows <==> Names(bundle.artifacts, c) {
      if Names(bundle.artifacts, c) { assert c in Coordinates(bundle.artifacts); }
    }
    forall i | 0 <= i < |bundle.artifacts|
      ensures bundle.artifacts[i].coordinate in rows
      ensures rows[bundle.artifacts[i].coordinate] == Version(bundle.artifacts[i].digest, bundle.artifacts[i].sizeBytes)
    {
      ArtifactAtIndex(bundle, i);
    }
  }

  lemma DependencyAtIndex(bundle: Bundle, i: nat)
    requires bundle.Valid() && i < |bundle.dependencies|
    ensures DependsOn(bundle, DependencyKeyOf(bundle, bundle.dependencies[i]))
    ensures DependencyAt(bundle, DependencyKeyOf(bundle, bundle.dependencies[i])) == bundle.dependencies[i]
  {
    var key := DependencyKeyOf(bundle, bundle.dependencies[i]);
    assert DependsOn(bundle, key);
    var d := DependencyAt(bundle, key);
    var j :| 0 <= j < |bundle.dependencies| && bundle.dependencies[j] == d;
    assert DependencyKeyOf(bundle, bundle.dependencies[j]) == key;
  }

  lemma DependencyRowsAdd(before: map<DependencyKey, DependencyRow>, bundle: Bundle)
    requires bundle.Valid()
    requires forall i :: 0 <= i < |bundle.dependencies| ==> DependencyKeyOf(bundle, bundle.dependencies[i]) !in before
    ensures DependenciesAdded(before, before + DependencyRows(bundle), bundle)
  {
    var rows := DependencyRows(bundle);
    forall i | 0 <= i < |bundle.dependencies|
      ensures DependencyKeyOf(bundle, bundle.dependencies[i]) in rows
      ensures rows[DependencyKeyOf(bundle, bundle.dependencies[i])]
           == DependencyRow(bundle.dependencies[i].version, bundle.dependencies[i].digest)
    {
      DependencyAtIndex(bundle, i);
    }
    forall key ensures key in rows <==> DependsOn(bundle, key) {
      if DependsOn(bundle, key) {
        var i :| 0 <= i < |bundle.dependencies| && DependencyKeyOf(bundle, bundle.dependencies[i]) == key;
        assert DependencyKeyOf(bundle, bundle.dependencies[i]) in rows;
      }
    }
  }

  lemma EndingIs(t: Registry, key: PublicationKey, bundle: Bundle, result: PublishResult)
    requires ObjectsOk(t.objects) && bundle.Valid() && Resumable(t, key, bundle) && CanCommit(t, key, bundle)
    ensures
      var u := Ending(t, key, bundle, result);
      && u.mutations == t.mutations[key := Mutation(bundle, result)]
      && VersionsAdded(t.versions, u.versions, bundle)
      && DependenciesAdded(t.dependencies, u.dependencies, bundle)
      && ObjectsAdded(t.objects, u.objects, bundle)
      && IntentForgotten(t, u, key)
      && u.usage == t.usage
  {
    hide VersionsAdded, DependenciesAdded, VersionRows, DependencyRows, StoredFrom;
    VersionRowsAdd(t.versions, bundle);
    DependencyRowsAdd(t.dependencies, bundle);
    StoredHolds(t, bundle.artifacts, 0);
  }

  ghost predicate Leaves(t: Registry, u: Registry, publisher: Publisher, bundle: Bundle, result: PublishResult) {
    var key := PublicationKey(publisher.githubUserId, bundle.idempotencyKey);
    && u.mutations == t.mutations[key := Mutation(bundle, result)]
    && VersionsAdded(t.versions, u.versions, bundle)
    && DependenciesAdded(t.dependencies, u.dependencies, bundle)
    && ObjectsAdded(t.objects, u.objects, bundle)
    && IntentForgotten(t, u, key)
    && u.usage ==
         if IsPending(t, key, bundle) then t.usage
         else
           var used := UsedToday(t, publisher.githubUserId);
           t.usage[UsageKey(publisher.githubUserId, t.clock / 86400) :=
             Usage(used.artifactCount + |bundle.artifacts|, used.byteCount + Sizes(bundle.artifacts))]
  }

  /** One envelope per artifact, in order; the time and the profile are those of the first reservation. */
  ghost predicate Delivers(t: Registry, publisher: Publisher, bundle: Bundle, result: PublishResult) {
    var key := PublicationKey(publisher.githubUserId, bundle.idempotencyKey);
    && |result| == |bundle.artifacts|
    && (forall i :: 0 <= i < |result| ==> result[i].artifact == bundle.artifacts[i])
    && if key in t.mutations then result == t.mutations[key].result
       else if IsPending(t, key, bundle) then result == t.intents[key].result
       else forall i :: 0 <= i < |result| ==> result[i].publishedAt == t.clock && result[i].profile == publisher.profile
  }

  /** The run returned; a request that was committed before changes nothing. */
  ghost predicate Acceptance(t: Registry, publisher: Publisher, bundle: Bundle, end: (Registry, PublisherRun)) {
    && end.1.pc.Returned?
    && Delivers(t, publisher, bundle, end.1.pc.result)
    && if PublicationKey(publisher.githubUserId, bundle.idempotencyKey) in t.mutations then end.0 == t
       else Leaves(t, end.0, publisher, bundle, end.1.pc.result)
  }

  /** Forgetting a new reservation leaves no trace of it but the usage. */
  lemma FreshIsForgotten(t: Registry, u: Registry, key: PublicationKey, bundle: Bundle, result: PublishResult)
    requires forall i :: 0 <= i < |bundle.artifacts| ==> bundle.artifacts[i].coordinate !in t.uploads
    requires IntentForgotten(Reserve(t, key, bundle, result, t.clock), u, key)
    ensures IntentForgotten(t, u, key)
  {
    hide UploadRows, Demand;
    RowsAreOwn(t, key, bundle);
  }

  lemma FreshUsage(t: Registry, publisher: Publisher, bundle: Bundle, result: PublishResult)
    ensures
      var key := PublicationKey(publisher.githubUserId, bundle.idempotencyKey);
      var used := UsedToday(t, publisher.githubUserId);
      Reserve(t, key, bundle, result, t.clock).usage
        == t.usage[UsageKey(publisher.githubUserId, t.clock / 86400) :=
             Usage(used.artifactCount + |bundle.artifacts|, used.byteCount + Sizes(bundle.artifacts))]
  {
    SizesAreTotal(bundle.artifacts);
  }

  lemma ReservedCommits(t: Registry, key: PublicationKey, bundle: Bundle, result: PublishResult, now: int)
    ensures CanCommit(Reserve(t, key, bundle, result, now), key, bundle) <==> CanCommit(t, key, bundle)
    ensures
      var u := Reserve(t, key, bundle, result, now);
      PublishesNothing(t, u) && u.objects == t.objects && Resumable(u, key, bundle)
  {
    hide UploadRows, Demand;
  }

  lemma FreshLeaves(t: Registry, publisher: Publisher, bundle: Bundle, result: PublishResult)
    requires ObjectsOk(t.objects) && bundle.Valid() && HasRoom(t, publisher, bundle)
    requires
      var key := PublicationKey(publisher.githubUserId, bundle.idempotencyKey);
      !IsPending(t, key, bundle) && CanCommit(t, key, bundle)
    ensures
      var key := PublicationKey(publisher.githubUserId, bundle.idempotencyKey);
      Leaves(t, Ending(Reserve(t, key, bundle, result, t.clock), key, bundle, result), publisher, bundle, result)
  {
    hide VersionsAdded, DependenciesAdded, ObjectsAdded, Ending, ObjectsOk, IntentForgotten, Reserve, CanCommit, Resumable, UsedToday;
    var key := PublicationKey(publisher.githubUserId, bundle.idempotencyKey);
    var u := Reserve(t, key, bundle, result, t.clock);
    ReservedCommits(t, key, bundle, result, t.clock);
    EndingIs(u, key, bundle, result);
    FreshIsForgotten(t, Ending(u, key, bundle, result), key, bundle, result);
    FreshUsage(t, publisher, bundle, result);
  }

  lemma PendingLeaves(t: Registry, publisher: Publisher, bundle: Bundle, result: PublishResult)
    requires ObjectsOk(t.objects) && bundle.Valid()
    requires
      var key := PublicationKey(publisher.githubUserId, bundle.idempotencyKey);
      Resumable(t, key, bundle) && CanCommit(t, key, bundle)
    ensures
      var key := PublicationKey(publisher.githubUserId, bundle.idempotencyKey);
      Leaves(t, Ending(Touch(t, key, bundle, t.clock), key, bundle, result), publisher, bundle, result)
  {
    hide VersionsAdded, DependenciesAdded, ObjectsAdded, Ending, ObjectsOk;
    var key := PublicationKey(publisher.githubUserId, bundle.idempotencyKey);
    var u := Touch(t, key, bundle, t.clock);
    assert CanCommit(u, key, bundle) && Resumable(u, key, bundle);
    EndingIs(u, key, bundle, result);
    assert u.intents - {key} == t.intents - {key};
  }

  // ---------------------------------------------------------------- the exact condition

  lemma PublishableCanCommit(t: Registry, key: PublicationKey, bundle: Bundle)
    requires TablesOk(t) && key !in t.mutations && bundle.Valid() && IsPublishable(t.versions, bundle)
    ensures CanCommit(t, key, bundle)
  {
    hide CanCommit, TablesOk;
    PublishableParts(t.versions, bundle);
    PublishableCommits(t, key, bundle);
  }

  function Arriving(t: Registry, publisher: Publisher, bundle: Bundle): PublisherRun {
    PublisherRun(publisher, bundle, t.clock, t.clock, false, [], Lookup)
  }

  lemma PendingDecides(t: Registry, publisher: Publisher, bundle: Bundle)
    requires TablesOk(t) && bundle.Valid()
    requires
      var key := PublicationKey(publisher.githubUserId, bundle.idempotencyKey);
      key !in t.mutations && Resumable(t, key, bundle)
    ensures
      var key := PublicationKey(publisher.githubUserId, bundle.idempotencyKey);
      var end := Alone(t, Arriving(t, publisher, bundle).(pc := TouchPending));
      if IsPublishable(t.versions, bundle)
      then end.1.pc == Returned(t.intents[key].result)
           && Leaves(t, end.0, publisher, bundle, t.intents[key].result)
      else Refusal(t, end)
  {
    hide Alone, IsPublishable, Ending, TablesOk, Leaves, CanCommit;
    var key := PublicationKey(publisher.githubUserId, bundle.idempotencyKey);
    var r := Arriving(t, publisher, bundle).(pc := TouchPending);
    var result := t.intents[key].result;
    FromTouch(t, r);
    var u, q := Touch(t, key, bundle, t.clock), r.(resumed := true, result := result, pc := CheckVersion(0));
    TouchKeepsTables(t, key, bundle, t.clock);
    ResumedAlone(u, q);
    if IsPublishable(t.versions, bundle) {
      PublishableCanCommit(t, key, bundle);
      TablesHoldDigests(t);
      PendingLeaves(t, publisher, bundle, result);
    }
  }

  lemma TablesHoldDigests(t: Registry)
    requires TablesOk(t)
    ensures ObjectsOk(t.objects)
  {
  }

  lemma FreshDecides(t: Registry, publisher: Publisher, bundle: Bundle)
    requires TablesOk(t) && bundle.Valid()
    requires
      var key := PublicationKey(publisher.githubUserId, bundle.idempotencyKey);
      key !in t.mutations && !Resumable(t, key, bundle)
    ensures
      var end := Alone(t, Arriving(t, publisher, bundle).(pc := TouchPending));
      var result := Prepare(bundle, t.clock, publisher.profile);
      if IsPublishable(t.versions, bundle) && HasRoom(t, publisher, bundle)
      then end.1.pc == Returned(result) && Leaves(t, end.0, publisher, bundle, result)
      else Refusal(t, end)
  {
    hide Alone, IsPublishable, HasRoom, Ending, TablesOk, Leaves, CanCommit, Resumable, Reserve, Prepare, Faithful;
    var key := PublicationKey(publisher.githubUserId, bundle.idempotencyKey);
    var r := Arriving(t, publisher, bundle).(pc := TouchPending);
    var result := Prepare(bundle, t.clock, publisher.profile);
    FromTouch(t, r);
    var q := r.(resumed := false, result := result, pc := CheckVersion(0));
    PrepareIsFaithful(bundle, t.clock, publisher.profile);
    FreshAlone(t, q);
    if IsPublishable(t.versions, bundle) && HasRoom(t, publisher, bundle) {
      PublishableCanCommit(t, key, bundle);
      TablesHoldDigests(t);
      PendingIsResumable(t, key, bundle);
      FreshLeaves(t, publisher, bundle, result);
    }
  }

  lemma PendingIsResumable(t: Registry, key: PublicationKey, bundle: Bundle)
    ensures IsPending(t, key, bundle) <==> Resumable(t, key, bundle)
  {
  }

  lemma StoredResultDelivers(t: Registry, publisher: Publisher, bundle: Bundle, result: PublishResult)
    requires Faithful(result, bundle)
    requires
      var key := PublicationKey(publisher.githubUserId, bundle.idempotencyKey);
      if key in t.mutations then result == t.mutations[key].result
      else if IsPending(t, key, bundle) then result == t.intents[key].result
      else result == Prepare(bundle, t.clock, publisher.profile)
    ensures Delivers(t, publisher, bundle, result)
  {
  }

  lemma StoredResultsAreFaithful(t: Registry, key: PublicationKey)
    requires TablesOk(t)
    ensures key in t.mutations ==> Faithful(t.mutations[key].result, t.mutations[key].bundle)
    ensures key in t.intents ==> Faithful(t.intents[key].result, t.intents[key].bundle)
  {
    if key in t.mutations { assert MutationOk(t.mutations[key], t.versions); }
    if key in t.intents { assert IntentOk(t.intents[key], t.incarnations); }
  }

  lemma LookupDecides(t: Registry, publisher: Publisher, bundle: Bundle)
    ensures
      var key := PublicationKey(publisher.githubUserId, bundle.idempotencyKey);
      var r := Arriving(t, publisher, bundle);
      Alone(t, r) == if key !in t.mutations then Alone(t, r.(pc := TouchPending))
                     else if t.mutations[key].bundle == bundle then (t, r.At(Returned(t.mutations[key].result)))
                     else (t, r.At(PublisherPc.Stopped))
  {
    var r := Arriving(t, publisher, bundle);
    if r.Key() !in t.mutations {
      assert Alone(t, r) == Alone(t, r.At(ReadClock));
      assert r.At(ReadClock).(now := t.clock, pc := TouchPending) == r.(pc := TouchPending);
    }
  }

  lemma AloneDecides(t: Registry, publisher: Publisher, bundle: Bundle)
    requires TablesOk(t) && bundle.Valid()
    ensures
      var end := Alone(t, Arriving(t, publisher, bundle));
      if Acceptable(t, publisher, bundle) then Acceptance(t, publisher, bundle, end) else Refusal(t, end)
  {
    hide Alone, IsPublishable, HasRoom, TablesOk, Leaves, Resumable, Prepare, Faithful, Delivers, IsPending;
    var key := PublicationKey(publisher.githubUserId, bundle.idempotencyKey);
    LookupDecides(t, publisher, bundle);
    StoredResultsAreFaithful(t, key);
    PendingIsResumable(t, key, bundle);
    if key in t.mutations {
      if t.mutations[key].bundle == bundle {
        StoredResultDelivers(t, publisher, bundle, t.mutations[key].result);
      }
    } else if Resumable(t, key, bundle) {
      PendingDecides(t, publisher, bundle);
      ResumableHasBundle(t, key, bundle);
      StoredResultDelivers(t, publisher, bundle, t.intents[key].result);
    } else {
      FreshDecides(t, publisher, bundle);
      PrepareIsFaithful(bundle, t.clock, publisher.profile);
      StoredResultDelivers(t, publisher, bundle, Prepare(bundle, t.clock, publisher.profile));
    }
  }

  lemma ResumableHasBundle(t: Registry, key: PublicationKey, bundle: Bundle)
    requires Resumable(t, key, bundle)
    ensures key in t.intents && t.intents[key].bundle == bundle
  {
  }

  // ---------------------------------------------------------------- undisturbed runs

  /** The request arrives, and then only its own run takes steps, with every call answered. */
  ghost predicate Undisturbed(labels: seq<Label>, id: nat, publisher: Publisher, bundle: Bundle) {
    && labels != [] && labels[0] == StartPublisher(id, publisher, bundle)
    && OwnSteps(labels[1..], id)
  }

  ghost predicate OwnSteps(labels: seq<Label>, id: nat) {
    forall i :: 0 <= i < |labels| ==> labels[i] == StepPublisher(id, Clear)
  }

  ghost predicate Ended(s: System, id: nat) {
    id in s.publishers && !s.publishers[id].Live()
  }

  lemma {:induction false} OwnStepsAreAlone(s: System, id: nat, labels: seq<Label>)
    requires id in s.publishers && OwnSteps(labels, id) && Executable(s, labels) && Ended(Run(s, labels), id)
    ensures Alone(s.registry, s.publishers[id]) == (Run(s, labels).registry, Run(s, labels).publishers[id])
    decreases |labels|
  {
    hide PublisherStep;
    if labels != [] {
      assert labels[0] == StepPublisher(id, Clear);
      OwnStepsAreAlone(Apply(s, labels[0]), id, labels[1..]);
    }
  }

  lemma {:induction false} OwnStepsEnd(s: System, id: nat) returns (labels: seq<Label>)
    requires id in s.publishers
    ensures OwnSteps(labels, id) && Executable(s, labels) && Ended(Run(s, labels), id)
    decreases Stage(s.publishers[id].pc), Ahead(s.publishers[id])
  {
    hide PublisherStep, Stage, Ahead;
    labels := [];
    if s.publishers[id].Live() {
      var first := StepPublisher(id, Clear);
      StepDescends(s.registry, s.publishers[id]);
      var rest := OwnStepsEnd(Apply(s, first), id);
      labels := [first] + rest;
      assert labels[1..] == rest;
    }
  }

  /** An undisturbed request can always be carried to its end. */
  lemma UndisturbedEnds(s: System, id: nat, publisher: Publisher, bundle: Bundle) returns (labels: seq<Label>)
    requires id !in s.publishers && bundle.Valid() && bundle.namespace == publisher.namespace
    ensures Undisturbed(labels, id, publisher, bundle) && Executable(s, labels) && Ended(Run(s, labels), id)
  {
    var first := StartPublisher(id, publisher, bundle);
    var rest := OwnStepsEnd(Apply(s, first), id);
    labels := [first] + rest;
    assert labels[1..] == rest;
  }

  /**
   From every reachable state an undisturbed request is accepted exactly when the tables allow it. Accepted, it
   returns one envelope per artifact and publishes all of them; refused, it publishes nothing.
   */
  lemma AcceptedExactly(s: System, id: nat, publisher: Publisher, bundle: Bundle, labels: seq<Label>)
    requires Reachable(s) && Undisturbed(labels, id, publisher, bundle) && Executable(s, labels) && Ended(Run(s, labels), id)
    ensures
      var u := Run(s, labels);
      var pc := u.publishers[id].pc;
      && (pc.Returned? <==> Acceptable(s.registry, publisher, bundle))
      && (pc.Returned? ==>
            && Delivers(s.registry, publisher, bundle, pc.result)
            && if PublicationKey(publisher.githubUserId, bundle.idempotencyKey) in s.registry.mutations
               then u.registry == s.registry
               else Leaves(s.registry, u.registry, publisher, bundle, pc.result))
      && (!pc.Returned? ==> PublishesNothing(s.registry, u.registry))
  {
    hide Alone, Acceptable, Delivers, Leaves, LedgerOk;
    var first := labels[0];
    OwnStepsAreAlone(Apply(s, first), id, labels[1..]);
    ReachableIsOk(s);
    LedgerHoldsTables(s);
    AloneDecides(s.registry, publisher, bundle);
  }

  lemma LedgerHoldsTables(s: System)
    requires LedgerOk(s)
    ensures TablesOk(s.registry)
  {
  }
}

/**
 Every step of every run keeps `LedgerOk`, and the properties every reachable state has follow.
 */
module RegistryInvariant {
  import opened Options
  import opened RegistryTables
  import opened RegistryRuns
  import opened RegistryLedger
  import opened RegistryStatements

  // ---------------------------------------------------------------- publisher steps

  /** A stored result is reproduced exactly, so a resumed run never sees an idempotency conflict. */
  lemma ResumeReproduces(r: PublisherRun, stored: PublishResult, next: PublisherPc)
    requires Faithful(stored, r.bundle)
    ensures Resume(r, stored, next) == r.(resumed := true, result := stored, pc := next)
  {
  }

  lemma PrepareIsFaithful(bundle: Bundle, publishedAt: int, profile: string)
    requires bundle.Valid()
    ensures Faithful(Prepare(bundle, publishedAt, profile), bundle)
  {
  }

  lemma TouchStepKeeps(t: Registry, r: PublisherRun, reply: Reply)
    requires TablesOk(t) && PublisherOk(t, r) && (r.pc.TouchPending? || r.pc.TouchAfterConflict?)
    ensures var (u, r') := PublisherStep(t, r, reply); TablesOk(u) && Advances(t, u) && PublisherOk(u, r')
  {
    TouchKeepsTables(t, r.Key(), r.bundle, r.now);
    var u := Touch(t, r.Key(), r.bundle, r.now);
    PublisherStable(t, u, r);
    if Resumable(t, r.Key(), r.bundle) {
      assert IntentOk(t.intents[r.Key()], t.incarnations);
      ResumeReproduces(r, t.intents[r.Key()].result, if r.pc.TouchPending? then CheckVersion(0) else Put(0));
    } else {
      PrepareIsFaithful(r.bundle, r.now, r.publisher.profile);
    }
  }

  lemma LatestVersionExists(versions: map<Coordinate, Version>, c: Coordinate)
    requires VersionsContiguous(versions)
    ensures 0 <= LatestVersion(versions, c)
    ensures 0 < LatestVersion(versions, c) ==> c.(version := LatestVersion(versions, c)) in versions
    ensures forall d :: d in versions && SameIdentity(d, c) ==> d.version <= LatestVersion(versions, c)
  {
    var s := set d | d in versions && SameIdentity(d, c) :: d.version;
    forall d | d in versions && SameIdentity(d, c) ensures d.version in s && 1 <= d.version {
      assert HasPredecessor(versions, d);
    }
    if s != {} {
      var d :| d in versions && SameIdentity(d, c) && d.version == LatestVersion(versions, c);
      assert d == c.(version := LatestVersion(versions, c));
    }
  }

  lemma VersionStepKeeps(t: Registry, r: PublisherRun, i: nat)
    requires VersionsContiguous(t.versions) && PublisherOk(t, r) && r.pc == CheckVersion(i)
    ensures PublisherOk(t, AfterVersionCheck(t, r, i))
  {
    if i < |r.bundle.artifacts| {
      LatestVersionExists(t.versions, r.bundle.artifacts[i].coordinate);
    }
  }

  lemma DependencyStepKeeps(t: Registry, r: PublisherRun, i: nat)
    requires PublisherOk(t, r) && r.pc == CheckDependency(i)
    ensures PublisherOk(t, AfterDependencyCheck(t, r, i))
  {
    if i < |r.bundle.dependencies| && DependencyAccepted(t.versions, r.bundle, r.bundle.dependencies[i]) {
      DependencyStepMeets(t.versions, r.bundle, r.bundle.dependencies[i]);
    }
  }

  lemma DependencyStepMeets(versions: map<Coordinate, Version>, bundle: Bundle, d: Dependency)
    requires DependencyAccepted(versions, bundle, d)
    ensures DependencyMet(versions, bundle, d)
  {
    var found := BundledSkill(bundle.artifacts, d.Skill());
    if found.Some? {
      var i :| 0 <= i < |bundle.artifacts| && bundle.artifacts[i] == found.value;
      assert bundle.artifacts[i].Key() == ObjectKey(d.Skill(), d.digest);
    }
  }

  /** Past the checks, a run's own facts do not depend on where it stands. */
  predicate Checked(pc: PublisherPc) {
    HasResult(pc) && !pc.CheckVersion? && !pc.CheckDependency?
  }

  lemma MoveKeeps(t: Registry, r: PublisherRun, pc: PublisherPc)
    requires PublisherOk(t, r) && Checked(r.pc)
    requires pc.Stopped? || (Checked(pc) && !pc.Claim?)
    ensures PublisherOk(t, r.At(pc))
  {
  }

  ghost predicate StepOk(t: Registry, u: Registry, r: PublisherRun) {
    TablesOk(u) && Advances(t, u) && PublisherOk(u, r)
  }

  /** A statement that keeps the tables leaves the run's own facts in place at its next step. */
  lemma StatementKeeps(t: Registry, u: Registry, r: PublisherRun, pc: PublisherPc)
    requires PublisherOk(t, r) && TablesOk(u) && Advances(t, u) && Checked(r.pc)
    requires pc.Stopped? || (Checked(pc) && !pc.Claim?)
    ensures StepOk(t, u, r.At(pc))
  {
    PublisherStable(t, u, r);
    MoveKeeps(u, r, pc);
  }

  lemma PreparedIsFaithful(t: Registry, r: PublisherRun)
    requires PublisherOk(t, r) && HasResult(r.pc)
    ensures r.bundle.Valid() && Faithful(r.result, r.bundle)
  {
  }

  lemma ReserveStepKeeps(t: Registry, r: PublisherRun, pc: PublisherPc)
    requires TablesOk(t) && PublisherOk(t, r) && r.pc.ReserveBatch? && CanReserve(t, r.Key(), r.bundle, Day(r.now))
    requires pc == Put(0) || pc.TouchAfterConflict?
    ensures StepOk(t, Reserve(t, r.Key(), r.bundle, r.result, r.now), r.At(pc))
  {
    hide PublisherOk, Faithful, CanReserve, Reserve, TablesOk, Advances;
    PreparedIsFaithful(t, r);
    ReserveKeepsTables(t, r.Key(), r.bundle, r.result, r.now);
    StatementKeeps(t, Reserve(t, r.Key(), r.bundle, r.result, r.now), r, pc);
  }

  lemma PutStepKeeps(t: Registry, r: PublisherRun, a: Artifact, pc: PublisherPc)
    requires TablesOk(t) && PublisherOk(t, r) && r.pc.Put? && (pc.Put? || pc.Head?)
    ensures StepOk(t, PutIfAbsent(t, a), r.At(pc))
  {
    PutKeepsTables(t, a);
    StatementKeeps(t, PutIfAbsent(t, a), r, pc);
  }

  lemma ClaimStepKeeps(t: Registry, r: PublisherRun, pc: PublisherPc)
    requires TablesOk(t) && PublisherOk(t, r) && r.pc.Claim? && (pc.CommitBatch? || pc.LookupAfterClaim?)
    ensures StepOk(t, ClaimFinalization(t, r.Key(), r.bundle, r.pc.at), r.At(pc))
  {
    ClaimKeepsTables(t, r.Key(), r.bundle, r.pc.at);
    StatementKeeps(t, ClaimFinalization(t, r.Key(), r.bundle, r.pc.at), r, pc);
  }

  lemma CommitKeepsAll(t: Registry, r: PublisherRun)
    requires TablesOk(t) && PublisherOk(t, r) && r.pc.CommitBatch? && CanCommit(t, r.Key(), r.bundle)
    ensures
      var u := Commit(t, r.Key(), r.bundle, r.result);
      TablesOk(u) && Advances(t, u) && PublisherOk(u, r)
  {
    var u := Commit(t, r.Key(), r.bundle, r.result);
    CommitKeepsTables(t, r.Key(), r.bundle, r.result);
    hide Commit, CanCommit, TablesOk, Advances, PublisherOk;
    PublisherStable(t, u, r);
  }

  lemma CommitStepKeeps(t: Registry, r: PublisherRun, pc: PublisherPc)
    requires TablesOk(t) && PublisherOk(t, r) && r.pc.CommitBatch? && CanCommit(t, r.Key(), r.bundle)
    requires pc == Returned(r.result) || pc.LookupAfterCommit?
    ensures StepOk(t, Commit(t, r.Key(), r.bundle, r.result), r.At(pc))
  {
    hide Commit, CanCommit, TablesOk, Advances, PublisherOk;
    var u := Commit(t, r.Key(), r.bundle, r.result);
    CommitKeepsAll(t, r);
    if pc.Returned? {
      CommitStores(t, r.Key(), r.bundle, r.result);
      ReturnKeeps(u, r, r.result);
    } else {
      MoveKeeps(u, r, pc);
    }
  }

  lemma CommitStores(t: Registry, key: PublicationKey, bundle: Bundle, result: PublishResult)
    ensures key in Commit(t, key, bundle, result).mutations
    ensures Commit(t, key, bundle, result).mutations[key] == Mutation(bundle, result)
  {
  }

  lemma ReturnKeeps(t: Registry, r: PublisherRun, result: PublishResult)
    requires PublisherOk(t, r) && r.Key() in t.mutations && t.mutations[r.Key()] == Mutation(r.bundle, result)
    ensures PublisherOk(t, r.At(Returned(result)))
  {
  }

  lemma LookupStepKeeps(t: Registry, r: PublisherRun, missing: PublisherPc)
    requires PublisherOk(t, r) && (missing.Stopped? || missing.ReadClock?)
    ensures PublisherOk(t, AfterLookup(t, r, missing))
  {
  }

  lemma ReadStepKeeps(t: Registry, r: PublisherRun, reply: Reply)
    requires PublisherOk(t, r) && (r.pc.ReadQuota? || r.pc.Head? || r.pc.ReadClock? || r.pc.ReadClaimClock?)
    ensures PublisherOk(t, PublisherStep(t, r, reply).1)
  {
    if Checked(r.pc) && !r.pc.ReadClaimClock? {
      MoveKeeps(t, r, PublisherStep(t, r, reply).1.pc);
    }
  }

  lemma BatchStepKeeps(t: Registry, r: PublisherRun, reply: Reply)
    requires TablesOk(t) && PublisherOk(t, r) && (r.pc.ReserveBatch? || r.pc.CommitBatch?)
    ensures StepOk(t, PublisherStep(t, r, reply).0, PublisherStep(t, r, reply).1)
  {
    hide Reserve, Commit, CanReserve, CanCommit, TablesOk, PublisherOk, StepOk;
    if r.pc.ReserveBatch? {
      if CanReserve(t, r.Key(), r.bundle, Day(r.now)) && !reply.Refused? {
        ReserveStepKeeps(t, r, if reply.Clear? then Put(0) else TouchAfterConflict);
      } else {
        StatementKeeps(t, t, r, TouchAfterConflict);
      }
    } else {
      if CanCommit(t, r.Key(), r.bundle) && !reply.Refused? {
        CommitStepKeeps(t, r, if reply.Clear? then Returned(r.result) else LookupAfterCommit);
      } else {
        StatementKeeps(t, t, r, LookupAfterCommit);
      }
    }
  }

  lemma PublisherStepKeeps(t: Registry, r: PublisherRun, reply: Reply)
    requires TablesOk(t) && PublisherOk(t, r) && r.Live()
    ensures StepOk(t, PublisherStep(t, r, reply).0, PublisherStep(t, r, reply).1)
  {
    hide Reserve, Commit, CanReserve, CanCommit, TablesOk, PublisherOk;
    match r.pc
    case TouchPending => TouchStepKeeps(t, r, reply);
    case TouchAfterConflict => TouchStepKeeps(t, r, reply);
    case ReserveBatch => BatchStepKeeps(t, r, reply);
    case Put(i) =>
      if i < |r.bundle.artifacts| {
        PutStepKeeps(t, r, r.bundle.artifacts[i], if r.bundle.artifacts[i].Key() in t.objects then Head(i) else Put(i + 1));
      } else {
        StatementKeeps(t, t, r, ReadClaimClock);
      }
    case Claim(_) => ClaimStepKeeps(t, r, if Resumable(t, r.Key(), r.bundle) then CommitBatch else LookupAfterClaim);
    case CommitBatch => BatchStepKeeps(t, r, reply);
    case _ => QueryStepIsOk(t, r, reply);
  }

  lemma QueryStepIsOk(t: Registry, r: PublisherRun, reply: Reply)
    requires TablesOk(t) && PublisherOk(t, r) && r.Live()
    requires !(r.pc.TouchPending? || r.pc.TouchAfterConflict? || r.pc.ReserveBatch? || r.pc.Put? || r.pc.Claim? || r.pc.CommitBatch?)
    ensures StepOk(t, PublisherStep(t, r, reply).0, PublisherStep(t, r, reply).1)
  {
    hide TablesOk, PublisherOk;
    QueryStepKeeps(t, r, reply);
  }

  /** The steps that change no table. */
  lemma QueryStepKeeps(t: Registry, r: PublisherRun, reply: Reply)
    requires TablesOk(t) && PublisherOk(t, r) && r.Live()
    requires !(r.pc.TouchPending? || r.pc.TouchAfterConflict? || r.pc.ReserveBatch? || r.pc.Put? || r.pc.Claim? || r.pc.CommitBatch?)
    ensures PublisherStep(t, r, reply).0 == t && PublisherOk(t, PublisherStep(t, r, reply).1)
  {
    match r.pc
    case CheckVersion(i) => VersionStepKeeps(t, r, i);
    case CheckDependency(i) => DependencyStepKeeps(t, r, i);
    case Lookup => LookupStepKeeps(t, r, ReadClock);
    case LookupAfterClaim => LookupStepKeeps(t, r, PublisherPc.Stopped);
    case LookupAfterCommit => LookupStepKeeps(t, r, PublisherPc.Stopped);
    case _ => ReadStepKeeps(t, r, reply);
  }

  // ---------------------------------------------------------------- cleaner steps

  lemma CandidateStepKeeps(t: Registry, c: CleanerRun, input: CleanerInput)
    requires TablesOk(t) && CleanerOk(t, c) && c.pc.Next? && c.pc.candidates != []
    ensures var (u, c') := CleanerStep(t, c, input); TablesOk(u) && Advances(t, u) && CleanerOk(u, c')
  {
    var key := c.pc.candidates[0].key;
    if c.pc.candidates[0].phase.Open() {
      QuarantineKeepsTables(t, key, c.now);
    } else if CanClaimCleanup(t, key, c.now) {
      ClaimCleanupKeepsTables(t, key, c.now);
      assert IntentOk(t.intents[key], t.incarnations);
    }
  }

  lemma CleanerMoveKeeps(t: Registry, u: Registry, c: CleanerRun, pc: CleanerPc)
    requires CleanerOk(t, c) && Advances(t, u)
    requires pc.Next? || pc.Finished? || (pc.DeleteKeys? && Owns(c) && pc.key == c.pc.key && pc.incarnation == c.pc.incarnation)
    ensures CleanerOk(u, c.At(pc))
  {
    CleanerStable(t, u, c);
  }

  lemma CleanerStepKeeps(t: Registry, c: CleanerRun, input: CleanerInput)
    requires TablesOk(t) && CleanerOk(t, c) && CleanerCan(t, c, input)
    ensures var (u, c') := CleanerStep(t, c, input); TablesOk(u) && Advances(t, u) && CleanerOk(u, c')
  {
    var (u, c') := CleanerStep(t, c, input);
    match c.pc
    case Next(candidates) => if candidates != [] { CandidateStepKeeps(t, c, input); }
    case DeleteKeys(key, _, keys, _) =>
      if !input.reply.Refused? {
        if keys == [] { ForgetKeepsTables(t, key, c.now); } else { DeleteObjectKeepsTables(t, keys[0]); }
      }
      CleanerMoveKeeps(t, u, c, c'.pc);
    case ReadKeys(_, _, _) => CleanerMoveKeeps(t, u, c, c'.pc);
    case Select =>
  }

  // ---------------------------------------------------------------- system steps

  lemma OthersStable(s: System, u: Registry)
    requires LedgerOk(s) && Advances(s.registry, u)
    ensures forall id :: id in s.publishers ==> PublisherOk(u, s.publishers[id])
    ensures forall id :: id in s.cleaners ==> CleanerOk(u, s.cleaners[id])
  {
    forall id | id in s.publishers ensures PublisherOk(u, s.publishers[id]) {
      PublisherStable(s.registry, u, s.publishers[id]);
    }
    forall id | id in s.cleaners ensures CleanerOk(u, s.cleaners[id]) {
      CleanerStable(s.registry, u, s.cleaners[id]);
    }
  }

  lemma PublisherChangeKeeps(s: System, u: Registry, id: nat, r: PublisherRun)
    requires LedgerOk(s) && TablesOk(u) && Advances(s.registry, u) && PublisherOk(u, r)
    ensures LedgerOk(System(u, s.publishers[id := r], s.cleaners))
  {
    OthersStable(s, u);
  }

  lemma CleanerChangeKeeps(s: System, u: Registry, id: nat, c: CleanerRun)
    requires LedgerOk(s) && TablesOk(u) && Advances(s.registry, u) && CleanerOk(u, c)
    ensures LedgerOk(System(u, s.publishers, s.cleaners[id := c]))
  {
    OthersStable(s, u);
  }

  lemma StepKeepsLedger(s: System, l: Label)
    requires LedgerOk(s) && Enabled(s, l)
    ensures LedgerOk(Apply(s, l)) && Advances(s.registry, Apply(s, l).registry)
  {
    var t := s.registry;
    match l
    case Tick(seconds) =>
      TickKeepsTables(t, seconds);
      OthersStable(s, Apply(s, l).registry);
    case StartPublisher(id, publisher, bundle) =>
      PublisherChangeKeeps(s, t, id, PublisherRun(publisher, bundle, t.clock, t.clock, false, [], Lookup));
    case StartCleaner(id) => CleanerChangeKeeps(s, t, id, CleanerRun(t.clock, Select));
    case StepPublisher(id, reply) =>
      PublisherStepKeeps(t, s.publishers[id], reply);
      var (u, r) := PublisherStep(t, s.publishers[id], reply);
      PublisherChangeKeeps(s, u, id, r);
    case StepCleaner(id, input) =>
      CleanerStepKeeps(t, s.cleaners[id], input);
      var (u, c) := CleanerStep(t, s.cleaners[id], input);
      CleanerChangeKeeps(s, u, id, c);
    case StopPublisher(id) => PublisherChangeKeeps(s, t, id, s.publishers[id].At(PublisherPc.Stopped));
    case StopCleaner(id) => CleanerChangeKeeps(s, t, id, s.cleaners[id].At(Finished));
  }

  lemma {:induction false} RunKeepsLedger(s: System, labels: seq<Label>)
    requires LedgerOk(s) && Executable(s, labels)
    ensures LedgerOk(Run(s, labels)) && Advances(s.registry, Run(s, labels).registry)
    decreases |labels|
  {
    if labels != [] {
      StepKeepsLedger(s, labels[0]);
      RunKeepsLedger(Apply(s, labels[0]), labels[1..]);
      AdvancesTransitive(s.registry, Apply(s, labels[0]).registry, Run(s, labels).registry);
    }
  }

  lemma StartIsOk()
    ensures LedgerOk(START)
  {
  }

  // ---------------------------------------------------------------- reachable states

  ghost predicate Reachable(s: System) {
    exists labels :: Executable(START, labels) && Run(START, labels) == s
  }

  lemma ReachableIsOk(s: System)
    requires Reachable(s)
    ensures LedgerOk(s)
  {
    var labels :| Executable(START, labels) && Run(START, labels) == s;
    StartIsOk();
    RunKeepsLedger(START, labels);
  }

  /** The committed versions of an identity are exactly 1..n, where n is the latest one. */
  lemma VersionsAreOneToLatest(s: System, c: Coordinate)
    requires Reachable(s)
    ensures c in s.registry.versions <==> 1 <= c.version <= LatestVersion(s.registry.versions, c)
  {
    ReachableIsOk(s);
    var latest := LatestVersion(s.registry.versions, c);
    LatestVersionExists(s.registry.versions, c);
    if c in s.registry.versions { assert HasPredecessor(s.registry.versions, c); }
    if 1 <= c.version <= latest {
      DownFrom(s.registry.versions, c.(version := latest), latest - c.version);
      assert c == c.(version := latest).(version := latest - (latest - c.version));
    }
  }

  lemma {:induction false} DownFrom(versions: map<Coordinate, Version>, c: Coordinate, steps: nat)
    requires VersionsContiguous(versions) && c in versions && steps < c.version
    ensures c.(version := c.version - steps) in versions
    decreases steps
  {
    if steps > 0 {
      assert HasPredecessor(versions, c);
      DownFrom(versions, c.(version := c.version - 1), steps - 1);
      assert c.(version := c.version - 1).(version := c.version - 1 - (steps - 1)) == c.(version := c.version - steps);
    } else {
      assert c == c.(version := c.version - 0);
    }
  }

  /** Every dependency row names a published skill with the same coordinates and digest. */
  lemma DependenciesNamePublishedSkills(s: System, key: DependencyKey)
    requires Reachable(s) && key in s.registry.dependencies
    ensures key.registry == PUBLIC_ORIGIN && key.recipe in s.registry.versions
    ensures Published(s.registry.versions,
                      ObjectKey(Coordinate(Kind.Skill, key.namespace, key.name, s.registry.dependencies[key].version),
                                s.registry.dependencies[key].digest))
  {
    ReachableIsOk(s);
    assert DependencyClosed(s.registry.versions, key, s.registry.dependencies[key]);
  }

  /** At most one commit per key, and exactly the committed keys have a stored result whose artifacts
      are all published. */
  lemma CommitsHappenOnce(s: System, key: PublicationKey)
    requires Reachable(s)
    ensures Commits(s.registry.history, key) <= 1
    ensures Commits(s.registry.history, key) == 1 <==> key in s.registry.mutations
    ensures key in s.registry.mutations ==> PublishedBundle(s.registry.versions, s.registry.mutations[key].bundle)
  {
    ReachableIsOk(s);
    assert CommittedOnce(s.registry.mutations, s.registry.history, key);
    if key in s.registry.mutations { assert MutationOk(s.registry.mutations[key], s.registry.versions); }
  }

  /** Two successful returns for one key, at whatever points of a run, carry one request and one result. */
  lemma ReturnsAgree(s: System, labels: seq<Label>, id1: nat, id2: nat)
    requires Reachable(s) && Executable(s, labels)
    requires id1 in s.publishers && s.publishers[id1].pc.Returned?
    requires id2 in Run(s, labels).publishers && Run(s, labels).publishers[id2].pc.Returned?
    requires s.publishers[id1].Key() == Run(s, labels).publishers[id2].Key()
    ensures s.publishers[id1].bundle == Run(s, labels).publishers[id2].bundle
    ensures s.publishers[id1].pc.result == Run(s, labels).publishers[id2].pc.result
    ensures Commits(s.registry.history, s.publishers[id1].Key()) == 1
  {
    ReachableIsOk(s);
    RunKeepsLedger(s, labels);
    assert PublisherOk(s.registry, s.publishers[id1]);
    assert PublisherOk(Run(s, labels).registry, Run(s, labels).publishers[id2]);
    CommitsHappenOnce(s, s.publishers[id1].Key());
  }

  /** Recorded usage is the sum of the applied reservations and never passes the quota. */
  lemma UsageIsReservedAndBounded(s: System, key: UsageKey)
    requires Reachable(s)
    ensures CurrentUsage(s.registry, key) == ReservedTotal(s.registry.history, key)
    ensures CurrentUsage(s.registry, key).artifactCount <= MAXIMUM_DAILY_ARTIFACTS
    ensures CurrentUsage(s.registry, key).byteCount <= MAXIMUM_DAILY_BYTES
  {
    ReachableIsOk(s);
    assert UsageOk(s.registry.usage, s.registry.history, key);
  }

  /** A run that finds its pending intent takes over the stored result; the conflict branch is dead. */
  lemma ResumptionNeverConflicts(s: System, id: nat, reply: Reply)
    requires Reachable(s) && id in s.publishers
    requires s.publishers[id].pc.TouchPending? || s.publishers[id].pc.TouchAfterConflict?
    requires Resumable(s.registry, s.publishers[id].Key(), s.publishers[id].bundle)
    ensures var r := s.publishers[id];
            var (u, r') := PublisherStep(s.registry, r, reply);
            !r'.pc.Stopped? && r'.resumed && r'.result == s.registry.intents[r.Key()].result && u.usage == s.registry.usage
  {
    ReachableIsOk(s);
    var r := s.publishers[id];
    assert PublisherOk(s.registry, r) && IntentOk(s.registry.intents[r.Key()], s.registry.incarnations);
    ResumeReproduces(r, s.registry.intents[r.Key()].result, if r.pc.TouchPending? then CheckVersion(0) else Put(0));
  }

  /** An incarnation of an intent never moves to an earlier phase, over any stretch of any run. */
  lemma PhasesNeverGoBack(s: System, labels: seq<Label>, key: PublicationKey)
    requires Reachable(s) && Executable(s, labels)
    requires key in s.registry.intents && key in Run(s, labels).registry.intents
    requires s.registry.intents[key].incarnation == Run(s, labels).registry.intents[key].incarnation
    ensures s.registry.intents[key].phase.Rank() <= Run(s, labels).registry.intents[key].phase.Rank()
    ensures s.registry.intents[key].bundle == Run(s, labels).registry.intents[key].bundle
  {
    ReachableIsOk(s);
    RunKeepsLedger(s, labels);
    assert IntentOk(s.registry.intents[key], s.registry.incarnations);
    assert KeyAdvances(s.registry, Run(s, labels).registry, key);
  }

  /** With no hypothesis on time: while the incarnation a pass claimed exists, its last touch is over two TTLs old. */
  lemma CleanersActLongAfterTouch(s: System, id: nat)
    requires Reachable(s) && id in s.cleaners && Owns(s.cleaners[id])
    requires s.cleaners[id].pc.key in s.registry.intents
    requires s.registry.intents[s.cleaners[id].pc.key].incarnation == s.cleaners[id].pc.incarnation
    ensures
      var c := s.cleaners[id];
      s.registry.intents[c.pc.key].phase.Cleanup? && s.registry.intents[c.pc.key].touchedAt + 7200 < c.now
  {
    ReachableIsOk(s);
    assert CleanerOk(s.registry, s.cleaners[id]);
  }
}

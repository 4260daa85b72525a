/**
 A run from the empty registry, within any lifetime limits, in which one recipe is published under two
 idempotency keys and the published object is then lost.
 */
module RegistryRace {
  import opened Options
  import opened RegistryTables
  import opened RegistryRuns
  import opened RegistryLedger
  import opened RegistryInvariant
  import opened RegistryTiming
  import opened RegistryTimedSteps
  import opened RegistryStorage
  import opened RegistryLoss

  const RECIPE: Artifact := Artifact(Coordinate(Kind.Recipe, "acme", "weather", 1), "d", 1)
  const OWNER: Publisher := Publisher(7, "acme", "Acme")

  function RecipeBundle(idempotencyKey: string): Bundle {
    Bundle("acme", idempotencyKey, [RECIPE], [])
  }

  function RunAt(idempotencyKey: string, pc: PublisherPc): PublisherRun {
    PublisherRun(OWNER, RecipeBundle(idempotencyKey), 0, 0, false, Prepare(RecipeBundle(idempotencyKey), 0, "Acme"), pc)
  }

  function FirstRun(idempotencyKey: string): PublisherRun {
    PublisherRun(OWNER, RecipeBundle(idempotencyKey), 0, 0, false, [], Lookup)
  }

  lemma PublisherStepKeepsStart(t: Registry, r: PublisherRun, reply: Reply)
    requires r.Live()
    ensures PublisherStep(t, r, reply).0.clock == t.clock && PublisherStep(t, r, reply).1.startedAt == r.startedAt
  {
    hide Touch, ClaimFinalization, PutIfAbsent, Reserve, Commit, CanReserve, CanCommit;
    StatementsKeepClock(t, r);
  }

  lemma StatementsKeepClock(t: Registry, r: PublisherRun)
    ensures Reserve(t, r.Key(), r.bundle, r.result, r.now).clock == t.clock
    ensures Commit(t, r.Key(), r.bundle, r.result).clock == t.clock
    ensures Touch(t, r.Key(), r.bundle, r.now).clock == t.clock
    ensures r.pc.Claim? ==> ClaimFinalization(t, r.Key(), r.bundle, r.pc.at).clock == t.clock
    ensures r.pc.Put? && r.pc.next < |r.bundle.artifacts| ==>
              PutIfAbsent(t, r.bundle.artifacts[r.pc.next]).clock == t.clock
  {
    hide UploadRows, Demand, VersionRows, DependencyRows;
  }

  lemma Advance(limits: Limits, s: System, id: nat) returns (u: System)
    requires Instant(s) && id in s.publishers && s.publishers[id].Live()
    requires GuardedStep(s, StepPublisher(id, Clear))
    ensures Reaches(limits, s, u) && Instant(u)
    ensures var (t, r) := PublisherStep(s.registry, s.publishers[id], Clear);
            u == System(t, s.publishers[id := r], s.cleaners)
  {
    hide PublisherStep;
    PublisherStepKeepsStart(s.registry, s.publishers[id], Clear);
    u := Apply(s, StepPublisher(id, Clear));
    InstantStep(limits, s, StepPublisher(id, Clear));
  }

  /** Up to the reservation a run on the empty registry only reads. */
  lemma ReadsOnEmpty(limits: Limits, s: System, id: nat, k: string) returns (u: System)
    requires Instant(s) && s.registry == EMPTY_REGISTRY && id in s.publishers && s.publishers[id] == FirstRun(k)
    ensures Reaches(limits, s, u) && Instant(u)
    ensures u == System(EMPTY_REGISTRY, s.publishers[id := RunAt(k, ReserveBatch)], s.cleaners)
  {
    hide Reaches, CanReserve, CanCommit, Reserve, Commit, Instant;
    var v1 := Advance(limits, s, id);
    var v2 := Advance(limits, v1, id);
    ReachesTransitive(limits, s, v1, v2);
    var v3 := Advance(limits, v2, id);
    ReachesTransitive(limits, s, v2, v3);
    assert v3 == System(EMPTY_REGISTRY, s.publishers[id := RunAt(k, CheckVersion(0))], s.cleaners);
    u := ChecksOnEmpty(limits, v3, id, k);
    ReachesTransitive(limits, s, v3, u);
    assert s.publishers[id := RunAt(k, CheckVersion(0))][id := RunAt(k, ReserveBatch)] == s.publishers[id := RunAt(k, ReserveBatch)];
  }

  lemma ChecksOnEmpty(limits: Limits, s: System, id: nat, k: string) returns (u: System)
    requires Instant(s) && s.registry == EMPTY_REGISTRY && id in s.publishers
    requires s.publishers[id] == RunAt(k, CheckVersion(0))
    ensures Reaches(limits, s, u) && Instant(u)
    ensures u == System(EMPTY_REGISTRY, s.publishers[id := RunAt(k, ReserveBatch)], s.cleaners)
  {
    hide Reaches, CanReserve, CanCommit, Reserve, Commit, Instant;
    NoLatestVersion(RECIPE.coordinate);
    var v1 := Advance(limits, s, id);
    var v2 := Advance(limits, v1, id);
    ReachesTransitive(limits, s, v1, v2);
    assert v2.publishers[id] == RunAt(k, CheckDependency(0));
    var v3 := Advance(limits, v2, id);
    ReachesTransitive(limits, s, v2, v3);
    assert v3.publishers[id] == RunAt(k, ReadQuota);
    assert TotalBytes([RECIPE]) == 1;
    u := Advance(limits, v3, id);
    ReachesTransitive(limits, s, v3, u);
  }

  lemma NoLatestVersion(c: Coordinate)
    ensures LatestVersion(map[], c) == 0
  {
    var none: map<Coordinate, Version> := map[];
    assert (set d | d in none && SameIdentity(d, c) :: d.version) == {};
  }

  /** The registry after the first run's reservation and put. */
  ghost function Uploaded(k: string): Registry {
    PutIfAbsent(Reserve(EMPTY_REGISTRY, PublicationKey(7, k), RecipeBundle(k), RunAt(k, ReserveBatch).result, 0), RECIPE)
  }

  lemma ReservesAndStores(limits: Limits, s: System, id: nat, k: string) returns (u: System)
    requires Instant(s) && s.registry == EMPTY_REGISTRY && id in s.publishers && s.publishers[id] == RunAt(k, ReserveBatch)
    ensures Reaches(limits, s, u) && Instant(u)
    ensures u == System(Uploaded(k), s.publishers[id := RunAt(k, ReadClaimClock)], s.cleaners)
  {
    hide Reaches, CanCommit, Reserve, Commit, Instant;
    assert TotalBytes([RECIPE]) == 1;
    var v1 := Advance(limits, s, id);
    ReserveFacts(k);
    var v2 := Advance(limits, v1, id);
    ReachesTransitive(limits, s, v1, v2);
    u := Advance(limits, v2, id);
    ReachesTransitive(limits, s, v2, u);
    assert u.publishers == s.publishers[id := RunAt(k, ReadClaimClock)];
  }

  lemma ReserveFacts(k: string)
    ensures var t := Reserve(EMPTY_REGISTRY, PublicationKey(7, k), RecipeBundle(k), RunAt(k, ReserveBatch).result, 0);
            && t.objects == map[] && t.versions == map[] && t.mutations == map[] && t.dependencies == map[] && t.clock == 0
            && t.intents == map[PublicationKey(7, k) := Intent(RecipeBundle(k), RunAt(k, ReserveBatch).result, 0, Uploading, None, 0)]
            && t.usage == map[UsageKey(7, 0) := Usage(1, 1)]
            && t.uploads == UploadRows(PublicationKey(7, k), RecipeBundle(k))
  {
    hide UploadRows;
    assert TotalBytes([RECIPE]) == 1;
    assert Demand(RecipeBundle(k)) == Usage(1, 1);
    var key := PublicationKey(7, k);
    var rows := UploadRows(key, RecipeBundle(k));
    assert map[] + rows == rows;
  }

  ghost function Claimed(k: string): Registry {
    ClaimFinalization(Uploaded(k), PublicationKey(7, k), RecipeBundle(k), 0)
  }

  lemma ClaimsAndCommits(limits: Limits, s: System, id: nat, k: string) returns (u: System)
    requires Instant(s) && s.registry == Uploaded(k) && id in s.publishers && s.publishers[id] == RunAt(k, ReadClaimClock)
    ensures Reaches(limits, s, u) && Instant(u)
    ensures u.registry == Commit(Claimed(k), PublicationKey(7, k), RecipeBundle(k), RunAt(k, CommitBatch).result)
    ensures u.publishers == s.publishers[id := RunAt(k, Returned(RunAt(k, CommitBatch).result))] && u.cleaners == s.cleaners
  {
    hide Reaches, Reserve, Commit, Instant, CanReserve;
    ReserveFacts(k);
    var v1 := Advance(limits, s, id);
    var v2 := Advance(limits, v1, id);
    ReachesTransitive(limits, s, v1, v2);
    assert v2.registry == Claimed(k) && v2.publishers[id] == RunAt(k, CommitBatch);
    u := Advance(limits, v2, id);
    ReachesTransitive(limits, s, v2, u);
    assert u.publishers == s.publishers[id := RunAt(k, Returned(RunAt(k, CommitBatch).result))];
  }

  lemma ClaimedFacts(k: string)
    ensures var t := Claimed(k);
            && t.versions == map[] && t.usage == map[UsageKey(7, 0) := Usage(1, 1)]
            && t.intents.Keys == {PublicationKey(7, k)} && t.intents[PublicationKey(7, k)].phase.Finalizing?
            && (forall c :: c in t.uploads ==> t.uploads[c].owner == PublicationKey(7, k))
  {
    hide Reserve;
    ReserveFacts(k);
  }

  lemma CommitOfSoleIntent(t: Registry, key: PublicationKey, bundle: Bundle, result: PublishResult)
    requires t.intents.Keys == {key} && t.intents[key].phase.Finalizing?
    requires forall c :: c in t.uploads ==> t.uploads[c].owner == key
    ensures var u := Commit(t, key, bundle, result);
            u.intents == map[] && u.uploads == map[] && u.usage == t.usage && u.versions == t.versions + VersionRows(bundle)
  {
  }

  /** After the commit the recipe is published and nothing stands in the way of a second reservation. */
  lemma CommitFacts(k: string, other: string)
    requires k != other
    ensures var t := Commit(Claimed(k), PublicationKey(7, k), RecipeBundle(k), RunAt(k, CommitBatch).result);
            && Published(t.versions, RECIPE.Key())
            && CanReserve(t, PublicationKey(7, other), RecipeBundle(other), 0)
  {
    hide Claimed, Commit;
    ClaimedFacts(k);
    CommitOfSoleIntent(Claimed(k), PublicationKey(7, k), RecipeBundle(k), RunAt(k, CommitBatch).result);
    assert RecipeBundle(k).artifacts[0] == RECIPE && RecipeBundle(k).Valid();
    ArtifactAtIndex(RecipeBundle(k), 0);
    assert TotalBytes([RECIPE]) == 1;
  }

  /** A good run leads to a reservation that takes the object key of a published version. */
  lemma UnguardedReservationHappens(limits: Limits) returns (s: System)
    ensures Reaches(limits, START, s) && Instant(s)
    ensures Enabled(s, StepPublisher(1, Clear)) && !GuardedStep(s, StepPublisher(1, Clear))
  {
    hide Reaches, Reserve, Commit, CanReserve, CanCommit, Instant;
    var v := BothReady(limits);
    var w := ReservesAndStores(limits, v, 0, "first");
    ReachesTransitive(limits, START, v, w);
    s := ClaimsAndCommits(limits, w, 0, "first");
    ReachesTransitive(limits, START, w, s);
    CommitFacts("first", "second");
    assert RecipeBundle("second").artifacts[0] == RECIPE;
  }

  lemma BothStarted(limits: Limits, k: string, other: string) returns (s: System)
    ensures Reaches(limits, START, s) && Instant(s)
    ensures s == System(EMPTY_REGISTRY, map[0 := FirstRun(k), 1 := FirstRun(other)], map[])
  {
    hide Reaches;
    var a := Apply(START, StartPublisher(0, OWNER, RecipeBundle(k)));
    InstantStep(limits, START, StartPublisher(0, OWNER, RecipeBundle(k)));
    s := Apply(a, StartPublisher(1, OWNER, RecipeBundle(other)));
    InstantStep(limits, a, StartPublisher(1, OWNER, RecipeBundle(other)));
    ReachesTransitive(limits, START, a, s);
    assert s.publishers == map[0 := FirstRun(k), 1 := FirstRun(other)];
  }

  lemma BothReady(limits: Limits) returns (s: System)
    ensures Reaches(limits, START, s) && Instant(s)
    ensures s == System(EMPTY_REGISTRY, map[0 := RunAt("first", ReserveBatch), 1 := RunAt("second", ReserveBatch)], map[])
  {
    hide Reaches, Instant;
    var b := BothStarted(limits, "first", "second");
    var c := ReadsOnEmpty(limits, b, 0, "first");
    ReachesTransitive(limits, START, b, c);
    s := ReadsOnEmpty(limits, c, 1, "second");
    ReachesTransitive(limits, START, c, s);
    assert s.publishers == map[0 := RunAt("first", ReserveBatch), 1 := RunAt("second", ReserveBatch)];
  }

  /** After an unguarded reservation the ledger is still sound, every run is recent, and a key is shadowed. */
  lemma AfterUnguardedReservation(limits: Limits, s: System) returns (u: System, c: Coordinate)
    requires Reaches(limits, START, s) && Instant(s)
    requires Enabled(s, StepPublisher(1, Clear)) && !GuardedStep(s, StepPublisher(1, Clear))
    ensures u == Apply(s, StepPublisher(1, Clear)) && LedgerOk(u) && Instant(u) && Shadows(u.registry, c)
  {
    var l := StepPublisher(1, Clear);
    var first :| GoodRun(limits, START, first) && Run(START, first) == s;
    StartIsOk();
    RunKeepsLedger(START, first);
    hide PublisherStep;
    PublisherStepKeepsStart(s.registry, s.publishers[1], Clear);
    StepKeepsLedger(s, l);
    c := UnguardedReservationShadows(s, l);
    u := Apply(s, l);
  }

  /** Bounded lifetimes alone do not give "published implies stored". */
  lemma PublishedObjectIsLost(limits: Limits) returns (labels: seq<Label>, c: Coordinate)
    ensures Executable(START, labels) && TimelyRun(limits, START, labels)
    ensures c in Run(START, labels).registry.versions && !HasObject(Run(START, labels).registry, c)
  {
    hide PublisherStep, LedgerOk;
    var s := UnguardedReservationHappens(limits);
    var l := StepPublisher(1, Clear);
    var v;
    v, c := AfterUnguardedReservation(limits, s);
    var u := ShadowLosesObject(limits, v, c);
    labels := JoinRuns(limits, s, l, u);
  }

  lemma JoinRuns(limits: Limits, s: System, l: Label, u: System) returns (labels: seq<Label>)
    requires Reaches(limits, START, s) && Enabled(s, l) && WithinLifetimes(limits, s) && Reaches(limits, Apply(s, l), u)
    ensures Executable(START, labels) && TimelyRun(limits, START, labels) && Run(START, labels) == u
  {
    hide Apply, Enabled, WithinLifetimes;
    var first :| GoodRun(limits, START, first) && Run(START, first) == s;
    var second :| GoodRun(limits, Apply(s, l), second) && Run(Apply(s, l), second) == u;
    assert ([l] + second)[0] == l && ([l] + second)[1..] == second;
    TimelyRunsConcatenate(limits, START, first, [l] + second);
    labels := first + ([l] + second);
  }

  lemma {:induction false} TimelyRunsConcatenate(limits: Limits, s: System, first: seq<Label>, second: seq<Label>)
    requires Executable(s, first) && TimelyRun(limits, s, first)
    requires Executable(Run(s, first), second) && TimelyRun(limits, Run(s, first), second)
    ensures Executable(s, first + second) && TimelyRun(limits, s, first + second)
    ensures Run(s, first + second) == Run(Run(s, first), second)
    decreases |first|
  {
    if first == [] {
      assert first + second == second;
    } else {
      assert (first + second)[0] == first[0] && (first + second)[1..] == first[1..] + second;
      TimelyRunsConcatenate(limits, Apply(s, first[0]), first[1..], second);
    }
  }
}

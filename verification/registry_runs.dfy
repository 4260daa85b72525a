/**
 Publisher runs and cleanup passes as step machines over the shared tables. Every SQL statement, SQL
 batch, R2 call and clock reading is one atomic step; steps of different runs interleave freely and a
 run may stop (crash or throw) between any two of its steps.
 */
module RegistryRuns {
  import opened Options
  import opened RegistryTables

  // ---------------------------------------------------------------- publishBundle

  datatype PublisherPc =
    | Lookup
    | ReadClock
    | TouchPending
    | CheckVersion(next: nat)
    | CheckDependency(next: nat)
    | ReadQuota
    | ReserveBatch
    | TouchAfterConflict
    | Put(next: nat)
    | Head(next: nat)
    | ReadClaimClock
    | Claim(at: int)
    | LookupAfterClaim
    | CommitBatch
    | LookupAfterCommit
    | Returned(result: PublishResult)
    | Stopped

  /** `resumed` records whether the first touch found the pending intent. */
  datatype PublisherRun = PublisherRun(publisher: Publisher, bundle: Bundle, startedAt: int, now: int,
                                       resumed: bool, result: PublishResult, pc: PublisherPc) {
    function Key(): PublicationKey { PublicationKey(publisher.githubUserId, bundle.idempotencyKey) }
    predicate Live() { !pc.Returned? && !pc.Stopped? }
    function At(next: PublisherPc): PublisherRun { this.(pc := next) }
  }

  /** What a caller hears from a batch or call: its outcome, nothing although it applied, or nothing
      because it did not apply. */
  datatype Reply = Clear | LostReply | Refused

  /** `successfulPublication`: a stored result, a conflict, or nothing. */
  function AfterLookup(t: Registry, r: PublisherRun, missing: PublisherPc): PublisherRun {
    if r.Key() !in t.mutations then r.At(missing)
    else if t.mutations[r.Key()].bundle != r.bundle then r.At(Stopped)
    else r.At(Returned(t.mutations[r.Key()].result))
  }

  /** `prepareArtifacts` from the stored publication second and profile, then `assertPendingPublication`. */
  function Resume(r: PublisherRun, stored: PublishResult, next: PublisherPc): PublisherRun {
    match ResultPublishedAt(stored)
    case None => r.At(Stopped)
    case Some(publishedAt) =>
      var prepared := Prepare(r.bundle, publishedAt, stored[|stored| - 1].profile);
      if prepared != stored then r.At(Stopped)
      else r.(resumed := true, result := prepared, pc := next)
  }

  ghost function PublisherStep(t: Registry, r: PublisherRun, reply: Reply): (Registry, PublisherRun)
    requires r.Live()
  {
    var key := r.Key();
    match r.pc
    case Lookup => (t, AfterLookup(t, r, ReadClock))
    case ReadClock => (t, r.(now := t.clock, pc := TouchPending))
    case TouchPending =>
      (Touch(t, key, r.bundle, r.now),
       if Resumable(t, key, r.bundle) then Resume(r, t.intents[key].result, CheckVersion(0))
       else r.(resumed := false, result := Prepare(r.bundle, r.now, r.publisher.profile), pc := CheckVersion(0)))
    case CheckVersion(i) => (t, AfterVersionCheck(t, r, i))
    case CheckDependency(i) => (t, AfterDependencyCheck(t, r, i))
    case ReadQuota =>
      (t, if WithinQuota(Plus(CurrentUsage(t, UsageKey(key.githubUserId, Day(r.now))), Demand(r.bundle)))
          then r.At(ReserveBatch) else r.At(Stopped))
    case ReserveBatch =>
      if CanReserve(t, key, r.bundle, Day(r.now)) && !reply.Refused?
      then (Reserve(t, key, r.bundle, r.result, r.now), r.At(if reply.Clear? then Put(0) else TouchAfterConflict))
      else (t, r.At(TouchAfterConflict))
    case TouchAfterConflict =>
      (Touch(t, key, r.bundle, r.now),
       if Resumable(t, key, r.bundle) then Resume(r, t.intents[key].result, Put(0)) else r.At(Stopped))
    case Put(i) =>
      if i >= |r.bundle.artifacts| then (t, r.At(ReadClaimClock))
      else (PutIfAbsent(t, r.bundle.artifacts[i]),
            r.At(if r.bundle.artifacts[i].Key() in t.objects then Head(i) else Put(i + 1)))
    case Head(i) => (t, AfterHead(t, r, i))
    case ReadClaimClock => (t, r.At(Claim(t.clock)))
    case Claim(at) =>
      (ClaimFinalization(t, key, r.bundle, at),
       r.At(if Resumable(t, key, r.bundle) then CommitBatch else LookupAfterClaim))
    case LookupAfterClaim => (t, AfterLookup(t, r, Stopped))
    case CommitBatch =>
      if CanCommit(t, key, r.bundle) && !reply.Refused?
      then (Commit(t, key, r.bundle, r.result), r.At(if reply.Clear? then Returned(r.result) else LookupAfterCommit))
      else (t, r.At(LookupAfterCommit))
    case LookupAfterCommit => (t, AfterLookup(t, r, Stopped))
  }

  ghost function AfterVersionCheck(t: Registry, r: PublisherRun, i: nat): PublisherRun {
    if i >= |r.bundle.artifacts| then r.At(CheckDependency(0))
    else
      var c := r.bundle.artifacts[i].coordinate;
      r.At(if c.version == LatestVersion(t.versions, c) + 1 then CheckVersion(i + 1) else Stopped)
  }

  function AfterDependencyCheck(t: Registry, r: PublisherRun, i: nat): PublisherRun {
    if i >= |r.bundle.dependencies| then r.At(if r.resumed then Put(0) else ReadQuota)
    else r.At(if DependencyAccepted(t.versions, r.bundle, r.bundle.dependencies[i]) then CheckDependency(i + 1) else Stopped)
  }

  function AfterHead(t: Registry, r: PublisherRun, i: nat): PublisherRun {
    if i < |r.bundle.artifacts| && r.bundle.artifacts[i].Key() in t.objects
       && t.objects[r.bundle.artifacts[i].Key()] == r.bundle.artifacts[i].digest
    then r.At(Put(i + 1)) else r.At(Stopped)
  }

  // ---------------------------------------------------------------- cleanupExpiredPublishIntents

  const MAXIMUM_CLEANUPS: nat := 25

  datatype Candidate = Candidate(key: PublicationKey, phase: Phase)

  datatype CleanerPc =
    | Select
    | Next(candidates: seq<Candidate>)
    | ReadKeys(key: PublicationKey, incarnation: nat, candidates: seq<Candidate>)
    | DeleteKeys(key: PublicationKey, incarnation: nat, keys: seq<ObjectKey>, candidates: seq<Candidate>)
    | Finished

  datatype CleanerRun = CleanerRun(now: int, pc: CleanerPc) {
    predicate Live() { !pc.Finished? }
    function At(next: CleanerPc): CleanerRun { this.(pc := next) }
  }

  predicate Selectable(t: Registry, c: Candidate, now: int) {
    && c.key in t.intents
    && t.intents[c.key].phase == c.phase
    && (StaleUpload(t.intents[c.key], now) || ExpiredLease(t.intents[c.key], now))
  }

  /** The rows the selection may return; any order is allowed here. */
  predicate Selection(t: Registry, candidates: seq<Candidate>, now: int) {
    && |candidates| <= MAXIMUM_CLEANUPS
    && forall i :: 0 <= i < |candidates| ==> Selectable(t, candidates[i], now)
  }

  /** The rows the key query returns: each upload key once, in any order. */
  ghost predicate Enumerates(keys: seq<ObjectKey>, s: set<ObjectKey>) {
    (forall k :: k in keys <==> k in s) && forall i, j :: 0 <= i < j < |keys| ==> keys[i] != keys[j]
  }

  /** What the environment decides about a cleaner step. */
  datatype CleanerInput = CleanerInput(reply: Reply, selected: seq<Candidate>, keys: seq<ObjectKey>)

  ghost predicate CleanerCan(t: Registry, c: CleanerRun, input: CleanerInput) {
    && c.Live()
    && (c.pc.Select? ==> Selection(t, input.selected, c.now))
    && (c.pc.ReadKeys? ==> Enumerates(input.keys, UploadKeys(t, c.pc.key)))
  }

  ghost function CleanerStep(t: Registry, c: CleanerRun, input: CleanerInput): (Registry, CleanerRun)
    requires c.Live()
  {
    match c.pc
    case Select => (t, c.At(Next(input.selected)))
    case Next(candidates) =>
      if candidates == [] then (t, c.At(Finished))
      else
        var key, rest := candidates[0].key, candidates[1..];
        if candidates[0].phase.Open() then (QuarantineIntent(t, key, c.now), c.At(Next(rest)))
        else if CanClaimCleanup(t, key, c.now)
        then (ClaimCleanup(t, key, c.now), c.At(ReadKeys(key, t.intents[key].incarnation, rest)))
        else (t, c.At(Next(rest)))
    case ReadKeys(key, incarnation, rest) =>
      (t, if input.reply.Clear? then c.At(DeleteKeys(key, incarnation, input.keys, rest)) else c.At(Next(rest)))
    case DeleteKeys(key, incarnation, keys, rest) =>
      if keys == [] then
        (if input.reply.Refused? then t else ForgetIntent(t, key, c.now), c.At(Next(rest)))
      else
        (if input.reply.Refused? then t else DeleteObject(t, keys[0]),
         c.At(if input.reply.Clear? then DeleteKeys(key, incarnation, keys[1..], rest) else Next(rest)))
  }

  // ---------------------------------------------------------------- the whole system

  datatype System = System(registry: Registry, publishers: map<nat, PublisherRun>, cleaners: map<nat, CleanerRun>)

  const START: System := System(EMPTY_REGISTRY, map[], map[])

  datatype Label =
    | Tick(seconds: nat)
    | StartPublisher(id: nat, publisher: Publisher, bundle: Bundle)
    | StartCleaner(id: nat)
    | StepPublisher(id: nat, reply: Reply)
    | StepCleaner(id: nat, input: CleanerInput)
    | StopPublisher(id: nat)
    | StopCleaner(id: nat)

  ghost predicate Enabled(s: System, l: Label) {
    match l
    case Tick(_) => true
    case StartPublisher(id, publisher, bundle) =>
      id !in s.publishers && bundle.Valid() && bundle.namespace == publisher.namespace
    case StartCleaner(id) => id !in s.cleaners
    case StepPublisher(id, _) => id in s.publishers && s.publishers[id].Live()
    case StepCleaner(id, input) => id in s.cleaners && CleanerCan(s.registry, s.cleaners[id], input)
    case StopPublisher(id) => id in s.publishers && s.publishers[id].Live()
    case StopCleaner(id) => id in s.cleaners && s.cleaners[id].Live()
  }

  ghost function Apply(s: System, l: Label): System
    requires Enabled(s, l)
  {
    match l
    case Tick(seconds) => s.(registry := s.registry.(clock := s.registry.clock + seconds))
    case StartPublisher(id, publisher, bundle) =>
      var clock := s.registry.clock;
      s.(publishers := s.publishers[id := PublisherRun(publisher, bundle, clock, clock, false, [], Lookup)])
    case StartCleaner(id) => s.(cleaners := s.cleaners[id := CleanerRun(s.registry.clock, Select)])
    case StepPublisher(id, reply) =>
      var (t, r) := PublisherStep(s.registry, s.publishers[id], reply);
      s.(registry := t, publishers := s.publishers[id := r])
    case StepCleaner(id, input) =>
      var (t, c) := CleanerStep(s.registry, s.cleaners[id], input);
      s.(registry := t, cleaners := s.cleaners[id := c])
    case StopPublisher(id) => s.(publishers := s.publishers[id := s.publishers[id].At(PublisherPc.Stopped)])
    case StopCleaner(id) => s.(cleaners := s.cleaners[id := s.cleaners[id].At(Finished)])
  }

  ghost predicate Executable(s: System, labels: seq<Label>)
    decreases |labels|
  {
    labels == [] || (Enabled(s, labels[0]) && Executable(Apply(s, labels[0]), labels[1..]))
  }

  ghost function Run(s: System, labels: seq<Label>): System
    requires Executable(s, labels)
    decreases |labels|
  {
    if labels == [] then s else Run(Apply(s, labels[0]), labels[1..])
  }
}

/**
 `publishBundle` and `cleanupExpiredPublishIntents` as the program runs them: statement by statement over a
 shared world, in which other runs and the clock move on before every statement. Each is proved to take
 only steps of its own run in `RegistryRuns`, so what is proved of all runs holds of these methods.
 */
module RegistryService {
  import opened Options
  import opened RegistryTables
  import opened RegistryRuns
  import opened RegistryAcceptance
  import opened RegistrySweep

  /** Some run of the whole system leads from the one state to the other. */
  ghost predicate Leads(s: System, u: System) {
    exists labels :: Executable(s, labels) && Run(s, labels) == u
  }

  lemma {:induction false} RunsConcatenate(s: System, first: seq<Label>, second: seq<Label>)
    requires Executable(s, first) && Executable(Run(s, first), second)
    ensures Executable(s, first + second) && Run(s, first + second) == Run(Run(s, first), second)
    decreases |first|
  {
    if first == [] {
      assert first + second == second;
    } else {
      assert (first + second)[0] == first[0] && (first + second)[1..] == first[1..] + second;
      RunsConcatenate(Apply(s, first[0]), first[1..], second);
    }
  }

  lemma LeadsAcross(s: System, u: System, v: System)
    requires Leads(s, u) && Leads(u, v)
    ensures Leads(s, v)
  {
    var first :| Executable(s, first) && Run(s, first) == u;
    var second :| Executable(u, second) && Run(u, second) == v;
    RunsConcatenate(s, first, second);
  }

  lemma LeadsNowhere(s: System)
    ensures Leads(s, s)
  {
    assert Executable(s, []) && Run(s, []) == s;
  }

  lemma LeadsByStep(s: System, l: Label)
    requires Enabled(s, l)
    ensures Leads(s, Apply(s, l))
  {
    assert [l][1..] == [];
    assert Executable(Apply(s, l), []) && Run(Apply(s, l), []) == Apply(s, l);
    assert Executable(s, [l]) && Run(s, [l]) == Apply(s, l);
  }

  /** A further step of one publisher run. */
  lemma PublisherTakes(s: System, u: System, v: System, id: nat, reply: Reply)
    requires Leads(s, u) && id in u.publishers && u.publishers[id].Live()
    requires
      var (t, r) := PublisherStep(u.registry, u.publishers[id], reply);
      v == System(t, u.publishers[id := r], u.cleaners)
    ensures Leads(s, v)
  {
    hide Leads, PublisherStep;
    assert v == Apply(u, StepPublisher(id, reply));
    LeadsByStep(u, StepPublisher(id, reply));
    LeadsAcross(s, u, v);
  }

  lemma CleanerTakes(s: System, u: System, v: System, id: nat, input: CleanerInput)
    requires Leads(s, u) && id in u.cleaners && CleanerCan(u.registry, u.cleaners[id], input)
    requires
      var (t, c) := CleanerStep(u.registry, u.cleaners[id], input);
      v == System(t, u.publishers, u.cleaners[id := c])
    ensures Leads(s, v)
  {
    hide Leads, CleanerStep, CleanerCan;
    assert v == Apply(u, StepCleaner(id, input));
    LeadsByStep(u, StepCleaner(id, input));
    LeadsAcross(s, u, v);
  }

  /** The intent is under cleanup by the pass with this reading of the clock. */
  predicate Leased(t: Registry, key: PublicationKey, now: int) {
    key in t.intents && t.intents[key].phase.Cleanup? && t.intents[key].leaseStartedAt == Some(now)
  }

  lemma ForgottenIsUnleased(t: Registry, key: PublicationKey, now: int)
    ensures !Leased(ForgetIntent(t, key, now), key, now)
  {
  }

  /** The candidate is no longer what it was selected for. */
  ghost predicate Settles(c: Candidate, t: Registry, now: int) {
    c.key in t.intents ==> if c.phase.Open() then !Abandoned(t.intents[c.key], now) else !Lapsed(t.intents[c.key], now)
  }

  datatype Lookup = Missing | Conflicting | Found(result: PublishResult)

  datatype Error =
    | NamespaceMismatch
    | IdempotencyConflict
    | IntentInvalid
    | VersionNotNext
    | DependencyRejected
    | QuotaExceeded
    | ReservationConflict
    | StorageConflict
    | FinalizationConflict
    | PublishConflict

  datatype Outcome = Success(result: PublishResult) | Failure(error: Error)

  class World {
    var registry: Registry
    ghost var publishers: map<nat, PublisherRun>
    ghost var cleaners: map<nat, CleanerRun>

    constructor ()
      ensures Now() == START
    {
      registry, publishers, cleaners := EMPTY_REGISTRY, map[], map[];
    }

    ghost function Now(): System
      reads this
    {
      System(registry, publishers, cleaners)
    }

    /** The run is where it is said to be. */
    ghost predicate At(id: nat, r: PublisherRun)
      reads this
    {
      id in publishers && publishers[id] == r
    }

    ghost predicate Passing(id: nat, c: CleanerRun)
      reads this
    {
      id in cleaners && cleaners[id] == c
    }

    /**
     Other runs and the clock move on; the two runs named do not. Callers learn no more than this contract,
     so they are right for every interference.
     */
    method Interleave(ghost publisher: nat, ghost cleaner: nat)
      modifies this
      ensures Leads(old(Now()), Now())
      ensures publisher in old(publishers) ==> At(publisher, old(publishers)[publisher])
      ensures cleaner in old(cleaners) ==> Passing(cleaner, old(cleaners)[cleaner])
    {
      var seconds: nat := *;
      LeadsByStep(Now(), Tick(seconds));
      registry := registry.(clock := registry.clock + seconds);
    }

    // -------------------------------------------------------------- the publisher's statements

    method SuccessfulPublication(ghost id: nat, ghost r: PublisherRun, key: PublicationKey, bundle: Bundle)
      returns (found: Lookup)
      requires At(id, r) && r.Key() == key && r.bundle == bundle
      requires r.pc.Lookup? || r.pc.LookupAfterClaim? || r.pc.LookupAfterCommit?
      modifies this
      ensures Leads(old(Now()), Now())
      ensures At(id, match found
                     case Found(result) => r.At(Returned(result))
                     case Conflicting => r.At(Stopped)
                     case Missing => r.At(if r.pc.Lookup? then ReadClock else Stopped))
      ensures found.Missing? <==> key !in registry.mutations
      ensures found.Conflicting? <==> key in registry.mutations && registry.mutations[key].bundle != bundle
    {
      Interleave(id, 0);
      ghost var u := Now();
      found := if key !in registry.mutations then Missing
               else if registry.mutations[key].bundle != bundle then Conflicting
               else Found(registry.mutations[key].result);
      publishers := publishers[id := PublisherStep(registry, r, Clear).1];
      PublisherTakes(old(Now()), u, Now(), id, Clear);
    }

    method ReadTime(ghost id: nat, ghost r: PublisherRun) returns (now: int)
      requires At(id, r) && (r.pc.ReadClock? || r.pc.ReadClaimClock?)
      modifies this
      ensures Leads(old(Now()), Now())
      ensures At(id, if r.pc.ReadClock? then r.(now := now, pc := TouchPending) else r.At(Claim(now)))
    {
      Interleave(id, 0);
      ghost var u := Now();
      now := registry.clock;
      publishers := publishers[id := PublisherStep(registry, r, Clear).1];
      PublisherTakes(old(Now()), u, Now(), id, Clear);
    }

    /** Touches the pending intent and returns its stored result, if there is one. */
    method TouchPendingPublication(ghost id: nat, ghost r: PublisherRun, key: PublicationKey, bundle: Bundle, now: int)
      returns (pending: Option<PublishResult>)
      requires At(id, r) && r.Key() == key && r.bundle == bundle && r.now == now
      requires r.pc.TouchPending? || r.pc.TouchAfterConflict?
      modifies this
      ensures Leads(old(Now()), Now())
      ensures At(id,
        if pending.Some? then Resume(r, pending.value, if r.pc.TouchPending? then CheckVersion(0) else Put(0))
        else if r.pc.TouchPending?
        then r.(resumed := false, result := Prepare(bundle, now, r.publisher.profile), pc := CheckVersion(0))
        else r.At(Stopped))
      ensures pending.None? <==> !IsPending(registry, key, bundle)
      ensures pending.Some? ==> pending.value == registry.intents[key].result
    {
      Interleave(id, 0);
      ghost var u := Now();
      pending := if Resumable(registry, key, bundle) then Some(registry.intents[key].result) else None;
      publishers := publishers[id := PublisherStep(registry, r, Clear).1];
      registry := Touch(registry, key, bundle, now);
      PublisherTakes(old(Now()), u, Now(), id, Clear);
    }

    method LatestVersionOf(ghost id: nat, ghost r: PublisherRun, c: Coordinate) returns (latest: int)
      requires At(id, r) && r.pc.CheckVersion? && r.pc.next < |r.bundle.artifacts| && r.bundle.artifacts[r.pc.next].coordinate == c
      modifies this
      ensures Leads(old(Now()), Now())
      ensures At(id, r.At(if c.version == latest + 1 then CheckVersion(r.pc.next + 1) else Stopped))
      ensures latest == LatestVersion(registry.versions, c)
    {
      Interleave(id, 0);
      ghost var u := Now();
      latest := Maximum(set d | d in registry.versions && SameIdentity(d, c) :: d.version);
      publishers := publishers[id := PublisherStep(registry, r, Clear).1];
      PublisherTakes(old(Now()), u, Now(), id, Clear);
    }

    method DependencyIsAvailable(ghost id: nat, ghost r: PublisherRun, bundle: Bundle, d: Dependency) returns (ok: bool)
      requires At(id, r) && r.bundle == bundle
      requires r.pc.CheckDependency? && r.pc.next < |bundle.dependencies| && bundle.dependencies[r.pc.next] == d
      modifies this
      ensures Leads(old(Now()), Now())
      ensures At(id, r.At(if ok then CheckDependency(r.pc.next + 1) else Stopped))
      ensures bundle.Valid() ==> (ok <==> MeetsDependency(registry.versions, bundle, d))
    {
      Interleave(id, 0);
      ghost var u := Now();
      if bundle.Valid() { MetIsAccepted(registry.versions, bundle, d); }
      var bundled := BundledSkill(bundle.artifacts, d.Skill());
      if bundled.Some? {
        ok := d.registry == PUBLIC_ORIGIN && d.digest == bundled.value.digest;
      } else {
        ok := d.registry == PUBLIC_ORIGIN && Published(registry.versions, ObjectKey(d.Skill(), d.digest));
      }
      publishers := publishers[id := PublisherStep(registry, r, Clear).1];
      PublisherTakes(old(Now()), u, Now(), id, Clear);
    }

    method ReadUsage(ghost id: nat, ghost r: PublisherRun, key: UsageKey) returns (usage: Usage)
      requires At(id, r) && r.pc.ReadQuota? && key == UsageKey(r.publisher.githubUserId, Day(r.now))
      modifies this
      ensures Leads(old(Now()), Now())
      ensures At(id, r.At(if WithinQuota(Plus(usage, Demand(r.bundle))) then ReserveBatch else Stopped))
      ensures usage == CurrentUsage(registry, key)
    {
      Interleave(id, 0);
      ghost var u := Now();
      usage := CurrentUsage(registry, key);
      publishers := publishers[id := PublisherStep(registry, r, Clear).1];
      PublisherTakes(old(Now()), u, Now(), id, Clear);
    }

    /** The batch applies wholly or not at all; either way the reply may be lost. */
    method ReserveAll(ghost id: nat, ghost r: PublisherRun, key: PublicationKey, bundle: Bundle, result: PublishResult, now: int)
      returns (reserved: bool)
      requires At(id, r) && r.pc.ReserveBatch?
      requires r.Key() == key && r.bundle == bundle && r.result == result && r.now == now
      modifies this
      ensures Leads(old(Now()), Now())
      ensures At(id, r.At(if reserved then Put(0) else TouchAfterConflict))
    {
      hide Leads, Reserve, Commit, CanReserve, CanCommit;
      Interleave(id, 0);
      ghost var u := Now();
      var reply: Reply := *;
      reserved := false;
      publishers := publishers[id := PublisherStep(registry, r, reply).1];
      if CanReserve(registry, key, bundle, Day(now)) && !reply.Refused? {
        registry := Reserve(registry, key, bundle, result, now);
        reserved := reply.Clear?;
      }
      PublisherTakes(old(Now()), u, Now(), id, reply);
    }

    method PutObject(ghost id: nat, ghost r: PublisherRun, a: Artifact) returns (stored: bool)
      requires At(id, r) && r.pc.Put? && r.pc.next < |r.bundle.artifacts| && r.bundle.artifacts[r.pc.next] == a
      modifies this
      ensures Leads(old(Now()), Now())
      ensures At(id, r.At(if stored then Put(r.pc.next + 1) else Head(r.pc.next)))
    {
      Interleave(id, 0);
      ghost var u := Now();
      stored := a.Key() !in registry.objects;
      publishers := publishers[id := PublisherStep(registry, r, Clear).1];
      registry := PutIfAbsent(registry, a);
      PublisherTakes(old(Now()), u, Now(), id, Clear);
    }

    method HeadObject(ghost id: nat, ghost r: PublisherRun, a: Artifact) returns (digest: Option<string>)
      requires At(id, r) && r.pc.Head? && r.pc.next < |r.bundle.artifacts| && r.bundle.artifacts[r.pc.next] == a
      modifies this
      ensures Leads(old(Now()), Now())
      ensures At(id, r.At(if digest == Some(a.digest) then Put(r.pc.next + 1) else Stopped))
      ensures digest == Some(a.digest) <==> a.Key() in registry.objects && registry.objects[a.Key()] == a.digest
    {
      Interleave(id, 0);
      ghost var u := Now();
      digest := if a.Key() in registry.objects then Some(registry.objects[a.Key()]) else None;
      publishers := publishers[id := PublisherStep(registry, r, Clear).1];
      PublisherTakes(old(Now()), u, Now(), id, Clear);
    }

    method ClaimPublicationFinalization(ghost id: nat, ghost r: PublisherRun, key: PublicationKey, bundle: Bundle, now: int)
      returns (claimed: bool)
      requires At(id, r) && r.Key() == key && r.bundle == bundle && r.pc == Claim(now)
      modifies this
      ensures Leads(old(Now()), Now())
      ensures At(id, r.At(if claimed then CommitBatch else LookupAfterClaim))
    {
      Interleave(id, 0);
      ghost var u := Now();
      claimed := Resumable(registry, key, bundle);
      publishers := publishers[id := PublisherStep(registry, r, Clear).1];
      registry := ClaimFinalization(registry, key, bundle, now);
      PublisherTakes(old(Now()), u, Now(), id, Clear);
    }

    method CommitAll(ghost id: nat, ghost r: PublisherRun, key: PublicationKey, bundle: Bundle, result: PublishResult)
      returns (committed: bool)
      requires At(id, r) && r.pc.CommitBatch? && r.Key() == key && r.bundle == bundle && r.result == result
      modifies this
      ensures Leads(old(Now()), Now())
      ensures At(id, r.At(if committed then Returned(result) else LookupAfterCommit))
    {
      hide Leads, Reserve, Commit, CanReserve, CanCommit;
      Interleave(id, 0);
      ghost var u := Now();
      var reply: Reply := *;
      committed := false;
      publishers := publishers[id := PublisherStep(registry, r, reply).1];
      if CanCommit(registry, key, bundle) && !reply.Refused? {
        registry := Commit(registry, key, bundle, result);
        committed := reply.Clear?;
      }
      PublisherTakes(old(Now()), u, Now(), id, reply);
    }

    /** A request arrives. */
    ghost method Begin(id: nat, publisher: Publisher, bundle: Bundle)
      requires id !in publishers && bundle.Valid() && bundle.namespace == publisher.namespace
      modifies `publishers
      ensures Leads(old(Now()), Now())
      ensures At(id, PublisherRun(publisher, bundle, registry.clock, registry.clock, false, [], PublisherPc.Lookup))
    {
      LeadsByStep(Now(), StartPublisher(id, publisher, bundle));
      publishers := publishers[id := PublisherRun(publisher, bundle, registry.clock, registry.clock, false, [], PublisherPc.Lookup)];
    }

    /** The end of a loop, where the run moves on without a statement. */
    ghost method MoveOn(id: nat, r: PublisherRun)
      requires At(id, r)
      requires (r.pc.CheckVersion? && r.pc.next >= |r.bundle.artifacts|)
            || (r.pc.CheckDependency? && r.pc.next >= |r.bundle.dependencies|)
            || (r.pc.Put? && r.pc.next >= |r.bundle.artifacts|)
      modifies `publishers
      ensures Leads(old(Now()), Now())
      ensures At(id, r.At(if r.pc.CheckVersion? then CheckDependency(0)
                          else if r.pc.Put? then ReadClaimClock
                          else if r.resumed then Put(0) else ReadQuota))
    {
      publishers := publishers[id := PublisherStep(registry, r, Clear).1];
      LeadsNowhere(old(Now()));
      PublisherTakes(old(Now()), old(Now()), Now(), id, Clear);
    }

    // -------------------------------------------------------------- the cleaner's statements

    /** A maintenance pass begins and reads the clock. */
    ghost method BeginPass(id: nat)
      requires id !in cleaners
      modifies `cleaners
      ensures Leads(old(Now()), Now()) && Passing(id, CleanerRun(registry.clock, Select))
    {
      LeadsByStep(Now(), StartCleaner(id));
      cleaners := cleaners[id := CleanerRun(registry.clock, Select)];
    }

    method SelectCandidates(ghost id: nat, now: int, limit: nat) returns (candidates: seq<Candidate>)
      requires Passing(id, CleanerRun(now, Select)) && limit <= MAXIMUM_CLEANUPS
      modifies this
      ensures Leads(old(Now()), Now())
      ensures Passing(id, CleanerRun(now, Next(candidates)))
      ensures OldestExpired(registry, candidates, now, limit)
    {
      hide Leads, Selection, OldestExpired;
      Interleave(0, id);
      ghost var u := Now();
      candidates := Expired(registry, now, limit);
      SelectableWhenExpired(registry, candidates, now, limit);
      cleaners := cleaners[id := CleanerRun(now, Next(candidates))];
      CleanerTakes(old(Now()), u, Now(), id, CleanerInput(Clear, candidates, []));
    }

    /** Quarantines the first candidate, if it is still stale. */
    method Quarantine(ghost id: nat, now: int, candidates: seq<Candidate>)
      requires Passing(id, CleanerRun(now, Next(candidates))) && candidates != [] && candidates[0].phase.Open()
      modifies this
      ensures Leads(old(Now()), Now())
      ensures Passing(id, CleanerRun(now, Next(candidates[1..])))
      ensures Settles(candidates[0], registry, now)
    {
      hide Leads;
      Interleave(0, id);
      ghost var u := Now();
      registry := QuarantineIntent(registry, candidates[0].key, now);
      cleaners := cleaners[id := CleanerRun(now, Next(candidates[1..]))];
      CleanerTakes(old(Now()), u, Now(), id, CleanerInput(Clear, [], []));
    }

    /** Takes the first candidate's cleanup lease, if it has expired. */
    method ClaimForCleanup(ghost id: nat, now: int, candidates: seq<Candidate>)
      returns (claimed: bool, ghost incarnation: nat)
      requires Passing(id, CleanerRun(now, Next(candidates))) && candidates != [] && !candidates[0].phase.Open()
      modifies this
      ensures Leads(old(Now()), Now())
      ensures Passing(id, CleanerRun(now,
        if claimed then ReadKeys(candidates[0].key, incarnation, candidates[1..]) else Next(candidates[1..])))
      ensures Settles(candidates[0], registry, now)
    {
      hide Leads;
      Interleave(0, id);
      ghost var u := Now();
      var key := candidates[0].key;
      claimed := CanClaimCleanup(registry, key, now);
      incarnation := 0;
      cleaners := cleaners[id := CleanerStep(registry, cleaners[id], CleanerInput(Clear, [], [])).1];
      if claimed {
        incarnation := registry.intents[key].incarnation;
        registry := ClaimCleanup(registry, key, now);
      }
      CleanerTakes(old(Now()), u, Now(), id, CleanerInput(Clear, [], []));
    }

    /** The object keys of the claimed intent, unless the query fails. */
    method ReadObjectKeys(ghost id: nat, now: int, key: PublicationKey, ghost incarnation: nat, ghost rest: seq<Candidate>)
      returns (keys: Option<seq<ObjectKey>>)
      requires Passing(id, CleanerRun(now, ReadKeys(key, incarnation, rest)))
      modifies this
      ensures Leads(old(Now()), Now())
      ensures Passing(id, CleanerRun(now, if keys.Some? then DeleteKeys(key, incarnation, keys.value, rest) else Next(rest)))
    {
      hide Leads;
      Interleave(0, id);
      ghost var u := Now();
      var reply: Reply := *;
      var listed := Listed(UploadKeys(registry, key));
      keys := if reply.Clear? then Some(listed) else None;
      cleaners := cleaners[id := CleanerStep(registry, cleaners[id], CleanerInput(reply, [], listed)).1];
      CleanerTakes(old(Now()), u, Now(), id, CleanerInput(reply, [], listed));
    }

    /** Deletes one object; the reply may be lost, and a failed call may have deleted nothing. */
    method DeletePackage(ghost id: nat, now: int, ghost key: PublicationKey, ghost incarnation: nat,
                         keys: seq<ObjectKey>, ghost rest: seq<Candidate>)
      returns (ok: bool)
      requires Passing(id, CleanerRun(now, DeleteKeys(key, incarnation, keys, rest))) && keys != []
      modifies this
      ensures Leads(old(Now()), Now())
      ensures Passing(id, CleanerRun(now, if ok then DeleteKeys(key, incarnation, keys[1..], rest) else Next(rest)))
    {
      hide Leads;
      Interleave(0, id);
      ghost var u := Now();
      var reply: Reply := *;
      ok := reply.Clear?;
      cleaners := cleaners[id := CleanerStep(registry, cleaners[id], CleanerInput(reply, [], [])).1];
      if !reply.Refused? {
        registry := DeleteObject(registry, keys[0]);
      }
      CleanerTakes(old(Now()), u, Now(), id, CleanerInput(reply, [], []));
    }

    /** Deletes the intent if this pass still holds its lease. */
    method Forget(ghost id: nat, now: int, key: PublicationKey, ghost incarnation: nat, ghost rest: seq<Candidate>)
      returns (ok: bool)
      requires Passing(id, CleanerRun(now, DeleteKeys(key, incarnation, [], rest)))
      modifies this
      ensures Leads(old(Now()), Now())
      ensures Passing(id, CleanerRun(now, Next(rest)))
      ensures ok ==> !Leased(registry, key, now)
    {
      hide Leads, ForgetIntent, Leased;
      Interleave(0, id);
      ghost var u := Now();
      var reply: Reply := *;
      ok := reply.Clear?;
      cleaners := cleaners[id := CleanerRun(now, Next(rest))];
      if !reply.Refused? {
        ForgottenIsUnleased(registry, key, now);
        registry := ForgetIntent(registry, key, now);
      }
      CleanerTakes(old(Now()), u, Now(), id, CleanerInput(reply, [], []));
    }

    ghost method EndPass(id: nat, now: int)
      requires Passing(id, CleanerRun(now, Next([])))
      modifies `cleaners
      ensures Leads(old(Now()), Now()) && Passing(id, CleanerRun(now, Finished))
    {
      cleaners := cleaners[id := CleanerRun(now, Finished)];
      LeadsNowhere(old(Now()));
      CleanerTakes(old(Now()), old(Now()), Now(), id, CleanerInput(Clear, [], []));
    }
  }

  /** The first `limit` intents whose upload or lease has expired, in the order of their last touch. */
  method Expired(t: Registry, now: int, limit: nat) returns (candidates: seq<Candidate>)
    requires limit <= MAXIMUM_CLEANUPS
    ensures OldestExpired(t, candidates, now, limit)
  {
    candidates := [];
    var left := set key | key in t.intents.Keys && (StaleUpload(t.intents[key], now) || ExpiredLease(t.intents[key], now));
    assert left == ExpiredKeys(t, now) - KeysOf([]);
    while left != {} && |candidates| < limit
      invariant left == ExpiredKeys(t, now) - KeysOf(candidates)
      invariant |candidates| <= limit && OldestExpired(t, candidates, now, |candidates|)
    {
      var key := LeastRecent(t, left);
      SelectsOneMore(t, candidates, now, |candidates|, key);
      left := left - {key};
      candidates := candidates + [Candidate(key, t.intents[key].phase)];
    }
    if left == {} { assert KeysOf(candidates) == ExpiredKeys(t, now); }
  }

  method LeastRecent(t: Registry, keys: set<PublicationKey>) returns (key: PublicationKey)
    requires keys != {} && keys <= t.intents.Keys
    ensures key in keys && forall other :: other in keys ==> t.intents[key].touchedAt <= t.intents[other].touchedAt
  {
    key := AnyOf(keys);
    var left := keys;
    while left != {}
      invariant left <= keys && key in keys
      invariant forall other :: other in keys && other !in left ==> t.intents[key].touchedAt <= t.intents[other].touchedAt
    {
      var other := AnyOf(left);
      if t.intents[other].touchedAt < t.intents[key].touchedAt { key := other; }
      left := left - {other};
    }
  }

  method Listed(s: set<ObjectKey>) returns (keys: seq<ObjectKey>)
    ensures Enumerates(keys, s)
  {
    keys := [];
    var left := s;
    while left != {}
      invariant left <= s && Enumerates(keys, s - left)
    {
      var key := AnyOf(left);
      left := left - {key};
      keys := keys + [key];
    }
  }

  method AnyOf<T(==)>(s: set<T>) returns (x: T)
    requires s != {}
    ensures x in s
  {
    x :| x in s;
  }

  method Maximum(s: set<int>) returns (m: int)
    ensures m == MaximumOf(s)
  {
    if s == {} { return 0; }
    m := AnyOf(s);
    var left := s;
    while left != {}
      invariant left <= s && m in s
      invariant forall x :: x in s && x !in left ==> x <= m
    {
      var x := AnyOf(left);
      if m < x { m := x; }
      left := left - {x};
    }
  }
}

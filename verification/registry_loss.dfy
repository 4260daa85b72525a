/**
 The guard of `RegistryStorage` is exact. A reservation that takes the key of a published version can
 always be followed, without any further reservation, by a run that deletes the published object; and
 such a reservation does happen, when the same artifacts are published under two idempotency keys.
 */
module RegistryLoss {
  import opened Options
  import opened RegistryTables
  import opened RegistryRuns
  import opened RegistryLedger
  import opened RegistryStatements
  import opened RegistryInvariant
  import opened RegistryTiming
  import opened RegistryTimedSteps
  import opened RegistryStorage

  /** Reachable by a timely run whose reservations all respect the guard. */
  ghost predicate Reaches(limits: Limits, s: System, u: System) {
    exists labels :: GoodRun(limits, s, labels) && Run(s, labels) == u
  }

  ghost predicate GoodRun(limits: Limits, s: System, labels: seq<Label>) {
    Executable(s, labels) && TimelyRun(limits, s, labels) && GuardedRun(s, labels)
  }

  lemma {:induction false} GoodRunsConcatenate(limits: Limits, s: System, first: seq<Label>, second: seq<Label>)
    requires GoodRun(limits, s, first) && GoodRun(limits, Run(s, first), second)
    ensures GoodRun(limits, s, first + second) && Run(s, first + second) == Run(Run(s, first), second)
    decreases |first|
  {
    if first == [] {
      assert first + second == second;
    } else {
      assert (first + second)[0] == first[0] && (first + second)[1..] == first[1..] + second;
      GoodRunsConcatenate(limits, Apply(s, first[0]), first[1..], second);
    }
  }

  lemma ReachesTransitive(limits: Limits, s: System, u: System, v: System)
    requires Reaches(limits, s, u) && Reaches(limits, u, v)
    ensures Reaches(limits, s, v)
  {
    var first :| GoodRun(limits, s, first) && Run(s, first) == u;
    var second :| GoodRun(limits, u, second) && Run(u, second) == v;
    GoodRunsConcatenate(limits, s, first, second);
  }

  /** Every live run started at this very second. */
  ghost predicate Instant(s: System) {
    && (forall id :: id in s.publishers && s.publishers[id].Live() ==> s.publishers[id].startedAt == s.registry.clock)
    && (forall id :: id in s.cleaners && s.cleaners[id].Live() ==> s.cleaners[id].now == s.registry.clock)
  }

  lemma OneStep(limits: Limits, s: System, l: Label)
    requires WithinLifetimes(limits, s) && Enabled(s, l) && GuardedStep(s, l) && WithinLifetimes(limits, Apply(s, l))
    ensures Reaches(limits, s, Apply(s, l))
  {
    var u := Apply(s, l);
    assert TimelyRun(limits, u, []) && Executable(u, []) && GuardedRun(u, []) && Run(u, []) == u;
    assert [l][1..] == [];
    assert GoodRun(limits, s, [l]) && Run(s, [l]) == u;
  }

  lemma InstantStep(limits: Limits, s: System, l: Label)
    requires Instant(s) && Enabled(s, l) && GuardedStep(s, l) && Instant(Apply(s, l))
    ensures Reaches(limits, s, Apply(s, l))
  {
    OneStep(limits, s, l);
  }

  // ---------------------------------------------------------------- stopping every run

  ghost predicate Idle(publishers: map<nat, PublisherRun>) {
    forall id :: id in publishers ==> !publishers[id].Live()
  }

  /** No run is live, except possibly the cleaner `id`. */
  ghost predicate QuietBut(s: System, id: nat) {
    Idle(s.publishers) && forall q :: q in s.cleaners && q != id ==> !s.cleaners[q].Live()
  }

  ghost predicate Quiet(s: System) {
    Idle(s.publishers) && forall q :: q in s.cleaners ==> !s.cleaners[q].Live()
  }

  ghost function LivePublishers(s: System): set<nat> {
    set id | id in s.publishers && s.publishers[id].Live()
  }

  ghost function LiveCleaners(s: System): set<nat> {
    set id | id in s.cleaners && s.cleaners[id].Live()
  }

  lemma {:induction false} StopEverything(limits: Limits, s: System) returns (u: System)
    requires WithinLifetimes(limits, s)
    ensures Reaches(limits, s, u) && u.registry == s.registry && Quiet(u)
    decreases |LivePublishers(s)| + |LiveCleaners(s)|
  {
    if id :| id in s.publishers && s.publishers[id].Live() {
      var l := StopPublisher(id);
      assert LivePublishers(Apply(s, l)) == LivePublishers(s) - {id};
      assert LiveCleaners(Apply(s, l)) == LiveCleaners(s);
      OneStep(limits, s, l);
      u := StopEverything(limits, Apply(s, l));
      ReachesTransitive(limits, s, Apply(s, l), u);
    } else if id :| id in s.cleaners && s.cleaners[id].Live() {
      var l := StopCleaner(id);
      assert LivePublishers(Apply(s, l)) == LivePublishers(s);
      assert LiveCleaners(Apply(s, l)) == LiveCleaners(s) - {id};
      OneStep(limits, s, l);
      u := StopEverything(limits, Apply(s, l));
      ReachesTransitive(limits, s, Apply(s, l), u);
    } else {
      assert GoodRun(limits, s, []) && Run(s, []) == s;
      u := s;
    }
  }

  // ---------------------------------------------------------------- one cleanup pass on a quiet system

  /** Some number exceeds every run id in use. */
  lemma {:induction false} FreshAbove(ids: set<nat>) returns (bound: nat)
    ensures forall id :: id in ids ==> id < bound
    decreases |ids|
  {
    if ids == {} {
      bound := 0;
    } else {
      var id :| id in ids;
      var rest := FreshAbove(ids - {id});
      bound := if rest <= id then id + 1 else rest;
      forall x | x in ids ensures x < bound {
        assert x == id || x in ids - {id};
      }
    }
  }

  /** The pass `id` is the only live run and started at this very second. */
  ghost predicate OnlyPass(s: System, id: nat) {
    QuietBut(s, id) && id in s.cleaners && s.cleaners[id].now == s.registry.clock
  }

  lemma PassStep(limits: Limits, s: System, id: nat, input: CleanerInput) returns (u: System)
    requires OnlyPass(s, id) && CleanerCan(s.registry, s.cleaners[id], input)
    ensures Reaches(limits, s, u) && OnlyPass(u, id)
    ensures (u.registry, u.cleaners[id]) == CleanerStep(s.registry, s.cleaners[id], input)
    ensures u.cleaners.Keys == s.cleaners.Keys
  {
    hide CleanerStep;
    var l := StepCleaner(id, input);
    u := Apply(s, l);
    CleanerStepKeepsClock(s.registry, s.cleaners[id], input);
    InstantStep(limits, s, l);
  }

  lemma CleanerStepKeepsClock(t: Registry, c: CleanerRun, input: CleanerInput)
    requires c.Live()
    ensures CleanerStep(t, c, input).0.clock == t.clock && CleanerStep(t, c, input).1.now == c.now
  {
  }

  lemma StartPass(limits: Limits, s: System, seconds: nat) returns (u: System, id: nat)
    requires Quiet(s)
    ensures Reaches(limits, s, u) && OnlyPass(u, id) && u.cleaners[id].pc == Select
    ensures u.registry == s.registry.(clock := s.registry.clock + seconds)
  {
    var ticked := Apply(s, Tick(seconds));
    InstantStep(limits, s, Tick(seconds));
    id := FreshAbove(s.cleaners.Keys);
    u := Apply(ticked, StartCleaner(id));
    InstantStep(limits, ticked, StartCleaner(id));
    ReachesTransitive(limits, s, ticked, u);
  }

  /** The pass selects one intent and comes to it. */
  lemma SelectOne(limits: Limits, s: System, key: PublicationKey, seconds: nat) returns (u: System, id: nat)
    requires Quiet(s) && key in s.registry.intents
    requires var now := s.registry.clock + seconds;
             StaleUpload(s.registry.intents[key], now) || ExpiredLease(s.registry.intents[key], now)
    ensures Reaches(limits, s, u) && OnlyPass(u, id)
    ensures u.registry == s.registry.(clock := s.registry.clock + seconds)
    ensures u.cleaners[id].pc == Next([Candidate(key, s.registry.intents[key].phase)])
  {
    hide Reaches;
    var v;
    v, id := StartPass(limits, s, seconds);
    u := PassStep(limits, v, id, CleanerInput(Clear, [Candidate(key, s.registry.intents[key].phase)], []));
    ReachesTransitive(limits, s, v, u);
  }

  lemma FinishPass(limits: Limits, s: System, id: nat) returns (u: System)
    requires OnlyPass(s, id) && s.cleaners[id].pc == Next([])
    ensures Reaches(limits, s, u) && Quiet(u) && u.registry == s.registry
  {
    hide Reaches;
    u := PassStep(limits, s, id, CleanerInput(Clear, [], []));
  }

  lemma QuarantineOne(limits: Limits, s: System, id: nat, key: PublicationKey) returns (u: System)
    requires OnlyPass(s, id) && key in s.registry.intents && StaleUpload(s.registry.intents[key], s.registry.clock)
    requires s.cleaners[id].pc == Next([Candidate(key, s.registry.intents[key].phase)])
    ensures Reaches(limits, s, u) && OnlyPass(u, id) && u.cleaners[id].pc == Next([])
    ensures u.registry == QuarantineIntent(s.registry, key, s.registry.clock)
  {
    hide Reaches;
    u := PassStep(limits, s, id, CleanerInput(Clear, [], []));
  }

  lemma QuarantineFacts(t: Registry, key: PublicationKey, now: int)
    requires key in t.intents && StaleUpload(t.intents[key], now)
    ensures
      var u := QuarantineIntent(t, key, now);
      && u.versions == t.versions && u.uploads == t.uploads
      && key in u.intents && u.intents[key].phase.Quarantine? && u.intents[key].leaseStartedAt.Some?
  {
  }

  /** A first pass closes an open intent. */
  lemma CloseIntent(limits: Limits, s: System, key: PublicationKey) returns (u: System)
    requires Quiet(s) && key in s.registry.intents && s.registry.intents[key].phase.Open()
    ensures Reaches(limits, s, u) && Quiet(u)
    ensures u.registry.versions == s.registry.versions && u.registry.uploads == s.registry.uploads
    ensures key in u.registry.intents && u.registry.intents[key].phase.Quarantine?
    ensures u.registry.intents[key].leaseStartedAt.Some?
  {
    hide Reaches, OnlyPass, Quiet, QuarantineIntent;
    var due := s.registry.intents[key].touchedAt + INTENT_TTL_SECONDS + 1 - s.registry.clock;
    var v, id := SelectOne(limits, s, key, if due < 0 then 0 else due);
    QuarantineFacts(v.registry, key, v.registry.clock);
    var w := QuarantineOne(limits, v, id, key);
    ReachesTransitive(limits, s, v, w);
    u := FinishPass(limits, w, id);
    ReachesTransitive(limits, s, w, u);
  }

  lemma {:induction false} SetIsEnumerable(s: set<ObjectKey>) returns (keys: seq<ObjectKey>)
    ensures Enumerates(keys, s)
    decreases |s|
  {
    if s == {} {
      keys := [];
    } else {
      var k :| k in s;
      var rest := SetIsEnumerable(s - {k});
      keys := [k] + rest;
    }
  }

  lemma {:induction false} DeleteAll(limits: Limits, s: System, id: nat, o: ObjectKey) returns (u: System)
    requires OnlyPass(s, id) && s.cleaners[id].pc.DeleteKeys? && o in s.cleaners[id].pc.keys
    ensures Reaches(limits, s, u) && u.registry.versions == s.registry.versions && o !in u.registry.objects
    decreases |s.cleaners[id].pc.keys|
  {
    var keys := s.cleaners[id].pc.keys;
    u := PassStep(limits, s, id, CleanerInput(Clear, [], []));
    if o != keys[0] {
      assert keys == [keys[0]] + keys[1..];
      var v := u;
      u := DeleteAll(limits, v, id, o);
      ReachesTransitive(limits, s, v, u);
    }
  }

  lemma ClaimOne(limits: Limits, s: System, id: nat, key: PublicationKey) returns (u: System)
    requires OnlyPass(s, id) && CanClaimCleanup(s.registry, key, s.registry.clock)
    requires s.cleaners[id].pc == Next([Candidate(key, s.registry.intents[key].phase)])
    ensures Reaches(limits, s, u) && OnlyPass(u, id)
    ensures u.cleaners[id].pc == ReadKeys(key, s.registry.intents[key].incarnation, [])
    ensures u.registry.versions == s.registry.versions && u.registry.uploads == s.registry.uploads
  {
    hide Reaches;
    u := PassStep(limits, s, id, CleanerInput(Clear, [], []));
  }

  lemma ReadAndDelete(limits: Limits, s: System, id: nat, o: ObjectKey) returns (u: System)
    requires OnlyPass(s, id) && s.cleaners[id].pc.ReadKeys? && o in UploadKeys(s.registry, s.cleaners[id].pc.key)
    ensures Reaches(limits, s, u) && u.registry.versions == s.registry.versions && o !in u.registry.objects
  {
    hide Reaches;
    var keys := SetIsEnumerable(UploadKeys(s.registry, s.cleaners[id].pc.key));
    var v := PassStep(limits, s, id, CleanerInput(Clear, [], keys));
    u := DeleteAll(limits, v, id, o);
    ReachesTransitive(limits, s, v, u);
  }

  /** A pass over a closed intent deletes every object its upload rows name. */
  lemma DeleteClosedIntent(limits: Limits, s: System, key: PublicationKey, c: Coordinate) returns (u: System)
    requires Quiet(s) && key in s.registry.intents && !s.registry.intents[key].phase.Open()
    requires s.registry.intents[key].leaseStartedAt.Some?
    requires c in s.registry.uploads && s.registry.uploads[c].owner == key
    ensures Reaches(limits, s, u) && u.registry.versions == s.registry.versions
    ensures ObjectKey(c, s.registry.uploads[c].digest) !in u.registry.objects
  {
    hide Reaches, OnlyPass, Quiet, Enabled, Apply, Run, Executable;
    var due := s.registry.intents[key].leaseStartedAt.value + INTENT_TTL_SECONDS + 1 - s.registry.clock;
    var v, id := SelectOne(limits, s, key, if due < 0 then 0 else due);
    var w := ClaimOne(limits, v, id, key);
    ReachesTransitive(limits, s, v, w);
    u := ReadAndDelete(limits, w, id, ObjectKey(c, s.registry.uploads[c].digest));
    ReachesTransitive(limits, s, w, u);
  }

  /** Once an upload row shadows a published version, its object can be lost. */
  lemma ShadowLosesObject(limits: Limits, s: System, c: Coordinate) returns (u: System)
    requires LedgerOk(s) && WithinLifetimes(limits, s) && Shadows(s.registry, c)
    ensures Reaches(limits, s, u) && !HasObject(u.registry, c)
  {
    var key := s.registry.uploads[c].owner;
    assert RowOwned(s.registry.uploads, s.registry.intents, c);
    assert IntentOk(s.registry.intents[key], s.registry.incarnations);
    var v := StopEverything(limits, s);
    if v.registry.intents[key].phase.Open() {
      var w := CloseIntent(limits, v, key);
      ReachesTransitive(limits, s, v, w);
      v := w;
    }
    u := DeleteClosedIntent(limits, v, key, c);
    ReachesTransitive(limits, s, v, u);
  }

  /**
   After a reachable step, "published implies stored" survives every timely and guarded continuation
   exactly when the step was not a reservation of a published object key.
   */
  lemma GuardIsExact(limits: Limits, labels: seq<Label>, l: Label)
    requires limits.Sufficient() && GoodRun(limits, START, labels)
    requires Enabled(Run(START, labels), l) && WithinLifetimes(limits, Apply(Run(START, labels), l))
    ensures GuardedStep(Run(START, labels), l) <==>
              forall u :: Reaches(limits, Apply(Run(START, labels), l), u) ==> PublishedImpliesStored(u.registry)
  {
    var s := Run(START, labels);
    StartIsOk();
    RunKeepsTiming(limits, START, labels);
    RunKeepsStorage(limits, START, labels);
    TimelyIsExecutable(limits, START, labels);
    StepKeepsLedger(s, l);
    if GuardedStep(s, l) {
      StepKeepsTiming(limits, s, l);
      StepKeepsStorage(limits, s, l);
      forall u | Reaches(limits, Apply(s, l), u) ensures PublishedImpliesStored(u.registry) {
        var more :| GoodRun(limits, Apply(s, l), more) && Run(Apply(s, l), more) == u;
        RunKeepsStorage(limits, Apply(s, l), more);
      }
    } else {
      var c := UnguardedReservationShadows(s, l);
      var u := ShadowLosesObject(limits, Apply(s, l), c);
      assert !HasObject(u.registry, c);
    }
  }

  lemma UnguardedReservationShadows(s: System, l: Label) returns (c: Coordinate)
    requires LedgerOk(s) && Enabled(s, l) && !GuardedStep(s, l)
    ensures Shadows(Apply(s, l).registry, c)
  {
    hide TablesOk, Reserve;
    var r := s.publishers[l.id];
    assert PublisherOk(s.registry, r);
    var i :| 0 <= i < |r.bundle.artifacts| && Published(s.registry.versions, r.bundle.artifacts[i].Key());
    ReservationShadows(s.registry, r.Key(), r.bundle, r.result, r.now, i);
    c := r.bundle.artifacts[i].coordinate;
  }

  lemma ReservationShadows(t: Registry, key: PublicationKey, bundle: Bundle, result: PublishResult, now: int, i: nat)
    requires bundle.Valid() && i < |bundle.artifacts| && Published(t.versions, bundle.artifacts[i].Key())
    ensures Shadows(Reserve(t, key, bundle, result, now), bundle.artifacts[i].coordinate)
  {
    UploadRowsAt(key, bundle);
    assert HasRows(UploadRows(key, bundle), key, bundle);
  }
}

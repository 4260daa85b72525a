/**
 A touch between a pass's selection and its quarantine update.

 A publisher touches with a time it read earlier, so a touch may write an old time. Under bounded lifetimes
 it is never old enough to matter: the touch defeats the quarantine. Without them it can come with a time
 that does not, and the exact condition is on that time.
 */
module RegistryTouch {
  import opened Options
  import opened RegistryTables
  import opened RegistryRuns
  import opened RegistryLedger
  import opened RegistryInvariant
  import opened RegistryTiming
  import opened RegistryTimedSteps
  import opened RegistryLoss
  import opened RegistryRace
  import opened RegistryService

  /** The step is a touch or a claim that finds the key's intent. */
  ghost predicate Touches(s: System, l: Label, key: PublicationKey) {
    && l.StepPublisher? && l.id in s.publishers
    && var r := s.publishers[l.id];
       r.Key() == key && Resumable(s.registry, key, r.bundle) && (r.pc.TouchPending? || r.pc.TouchAfterConflict? || r.pc.Claim?)
  }

  /** The time such a step writes: the run's reading of the clock, or that of its claim. */
  function TouchTime(r: PublisherRun): int {
    if r.pc.Claim? then r.pc.at else r.now
  }

  /** The pass has selected the key's open intent and not yet come to it. */
  predicate Selected(c: CleanerRun, key: PublicationKey) {
    c.pc.Next? && exists i :: 0 <= i < |c.pc.candidates| && c.pc.candidates[i].key == key && c.pc.candidates[i].phase.Open()
  }

  /** The pass's next statement is the quarantine update of the key's intent. */
  predicate Facing(c: CleanerRun, key: PublicationKey) {
    c.pc.Next? && c.pc.candidates != [] && c.pc.candidates[0].key == key && c.pc.candidates[0].phase.Open()
  }

  /** The pass selects the key, a step touches it, other steps follow, and the pass comes to the key. */
  ghost predicate TouchedMeanwhile(s: System, l: Label, after: seq<Label>, id: nat, key: PublicationKey) {
    && id in s.cleaners && Selected(s.cleaners[id], key)
    && Enabled(s, l) && Touches(s, l, key)
    && Executable(Apply(s, l), after)
    && var u := Run(Apply(s, l), after);
       id in u.cleaners && Facing(u.cleaners[id], key)
  }

  /** The quarantine update that the pass makes changes nothing. */
  ghost predicate Defeated(u: System, id: nat, input: CleanerInput)
    requires id in u.cleaners && u.cleaners[id].Live()
  {
    CleanerStep(u.registry, u.cleaners[id], input).0 == u.registry
  }

  // ---------------------------------------------------------------- under bounded lifetimes

  /** The key's intent, while open, was last touched with this time or a later one. */
  ghost predicate TouchedSince(t: Registry, key: PublicationKey, since: int) {
    key in t.intents && t.intents[key].phase.Open() ==> since <= t.intents[key].touchedAt
  }

  lemma WritesKeepTouched(t: Registry, own: PublicationKey, bundle: Bundle, now: int, key: PublicationKey, since: int)
    requires since <= now && TouchedSince(t, key, since)
    ensures TouchedSince(Touch(t, own, bundle, now), key, since)
    ensures TouchedSince(ClaimFinalization(t, own, bundle, now), key, since)
  {
  }

  lemma BatchesKeepTouched(t: Registry, r: PublisherRun, key: PublicationKey, since: int)
    requires since <= r.now && TouchedSince(t, key, since)
    ensures TouchedSince(Reserve(t, r.Key(), r.bundle, r.result, r.now), key, since)
    ensures TouchedSince(Commit(t, r.Key(), r.bundle, r.result), key, since)
  {
    hide UploadRows, VersionRows, DependencyRows, Demand;
  }

  lemma OwnReadings(t: Registry, r: PublisherRun)
    requires PublisherOk(t, r)
    ensures r.startedAt <= r.now && (r.pc.Claim? ==> r.startedAt <= r.pc.at)
  {
  }

  lemma PublisherKeepsTouched(t: Registry, r: PublisherRun, reply: Reply, key: PublicationKey, since: int)
    requires PublisherOk(t, r) && r.Live() && since <= r.startedAt && TouchedSince(t, key, since)
    ensures TouchedSince(PublisherStep(t, r, reply).0, key, since)
  {
    hide PublisherOk, CanReserve, CanCommit, Touch, ClaimFinalization, PutIfAbsent, Reserve, Commit, TouchedSince;
    hide Resume, Prepare, AfterLookup, AfterVersionCheck, AfterDependencyCheck, AfterHead, Demand;
    OwnReadings(t, r);
    match r.pc
    case TouchPending => WritesKeepTouched(t, r.Key(), r.bundle, r.now, key, since);
    case TouchAfterConflict => WritesKeepTouched(t, r.Key(), r.bundle, r.now, key, since);
    case Claim(at) => WritesKeepTouched(t, r.Key(), r.bundle, at, key, since);
    case ReserveBatch => BatchesKeepTouched(t, r, key, since);
    case CommitBatch => BatchesKeepTouched(t, r, key, since);
    case Put(i) => if i < |r.bundle.artifacts| { PutKeepsTouched(t, r.bundle.artifacts[i], key, since); }
    case _ =>
  }

  lemma PutKeepsTouched(t: Registry, a: Artifact, key: PublicationKey, since: int)
    requires TouchedSince(t, key, since)
    ensures TouchedSince(PutIfAbsent(t, a), key, since)
  {
  }

  lemma LeasesKeepTouched(t: Registry, own: PublicationKey, now: int, key: PublicationKey, since: int)
    requires TouchedSince(t, key, since)
    ensures TouchedSince(QuarantineIntent(t, own, now), key, since) && TouchedSince(ForgetIntent(t, own, now), key, since)
    ensures CanClaimCleanup(t, own, now) ==> TouchedSince(ClaimCleanup(t, own, now), key, since)
  {
  }

  lemma DeleteKeepsTouched(t: Registry, o: ObjectKey, key: PublicationKey, since: int)
    requires TouchedSince(t, key, since)
    ensures TouchedSince(DeleteObject(t, o), key, since)
  {
  }

  lemma CleanerKeepsTouched(t: Registry, c: CleanerRun, input: CleanerInput, key: PublicationKey, since: int)
    requires c.Live() && TouchedSince(t, key, since)
    ensures TouchedSince(CleanerStep(t, c, input).0, key, since)
  {
    hide QuarantineIntent, ForgetIntent, DeleteObject, ClaimCleanup, CanClaimCleanup, TouchedSince;
    match c.pc
    case Next(candidates) => if candidates != [] { LeasesKeepTouched(t, candidates[0].key, c.now, key, since); }
    case DeleteKeys(own, _, keys, _) =>
      LeasesKeepTouched(t, own, c.now, key, since);
      if keys != [] { DeleteKeepsTouched(t, keys[0], key, since); }
    case _ =>
  }

  lemma StepKeepsTouched(limits: Limits, s: System, l: Label, key: PublicationKey, since: int)
    requires LedgerOk(s) && WithinLifetimes(limits, s) && Enabled(s, l)
    requires since + limits.publisher <= s.registry.clock && TouchedSince(s.registry, key, since)
    ensures TouchedSince(Apply(s, l).registry, key, since)
  {
    hide PublisherStep, CleanerStep, PublisherOk, CleanerOk, TablesOk;
    if l.StepPublisher? {
      var r := s.publishers[l.id];
      assert PublisherInTime(limits, s.registry.clock, r);
      PublisherKeepsTouched(s.registry, r, l.reply, key, since);
    } else if l.StepCleaner? {
      CleanerKeepsTouched(s.registry, s.cleaners[l.id], l.input, key, since);
    }
  }

  lemma {:induction false} RunKeepsTouched(limits: Limits, s: System, labels: seq<Label>, key: PublicationKey, since: int)
    requires LedgerOk(s) && TimelyRun(limits, s, labels) && Executable(s, labels)
    requires since + limits.publisher <= s.registry.clock && TouchedSince(s.registry, key, since)
    ensures TouchedSince(Run(s, labels).registry, key, since)
    decreases |labels|
  {
    if labels != [] {
      StepKeepsTouched(limits, s, labels[0], key, since);
      StepKeepsLedger(s, labels[0]);
      RunKeepsTouched(limits, Apply(s, labels[0]), labels[1..], key, since);
    }
  }

  lemma StepKeepsReading(s: System, l: Label, id: nat)
    requires Enabled(s, l) && id in s.cleaners
    ensures id in Apply(s, l).cleaners && Apply(s, l).cleaners[id].now == s.cleaners[id].now
  {
    hide PublisherStep;
  }

  /** A pass works with one clock reading. */
  lemma {:induction false} RunKeepsReading(s: System, labels: seq<Label>, id: nat)
    requires Executable(s, labels) && id in s.cleaners
    ensures id in Run(s, labels).cleaners && Run(s, labels).cleaners[id].now == s.cleaners[id].now
    decreases |labels|
  {
    if labels != [] {
      StepKeepsReading(s, labels[0], id);
      RunKeepsReading(Apply(s, labels[0]), labels[1..], id);
    }
  }

  lemma TouchWrites(s: System, l: Label, key: PublicationKey)
    requires Enabled(s, l) && Touches(s, l, key)
    ensures key in Apply(s, l).registry.intents
    ensures Apply(s, l).registry.intents[key].touchedAt == TouchTime(s.publishers[l.id])
    ensures Apply(s, l).registry.intents[key].phase.Open()
  {
  }

  lemma DefeatedExactly(u: System, id: nat, key: PublicationKey, input: CleanerInput)
    requires id in u.cleaners && Facing(u.cleaners[id], key)
    ensures Defeated(u, id, input) <==>
              !(key in u.registry.intents && StaleUpload(u.registry.intents[key], u.cleaners[id].now))
  {
    var c := u.cleaners[id];
    if key in u.registry.intents && StaleUpload(u.registry.intents[key], c.now) {
      assert CleanerStep(u.registry, c, input).0.intents[key].phase.Quarantine?;
    }
  }

  /**
   Under bounded lifetimes a touch between the selection and the quarantine update defeats the quarantine,
   whatever other runs do in between.
   */
  lemma TouchDefeatsQuarantine(limits: Limits, before: seq<Label>, l: Label, after: seq<Label>, id: nat,
                               key: PublicationKey, input: CleanerInput)
    requires limits.Sufficient() && Executable(START, before) && TimelyRun(limits, START, before)
    requires TouchedMeanwhile(Run(START, before), l, after, id, key)
    requires TimelyRun(limits, Apply(Run(START, before), l), after)
    ensures Defeated(Run(Apply(Run(START, before), l), after), id, input)
  {
    var s := Run(START, before);
    var v := Apply(s, l);
    var since := s.cleaners[id].now - limits.publisher;
    TimelyIsExecutable(limits, START, before);
    StartIsOk();
    RunKeepsLedger(START, before);
    StepKeepsLedger(s, l);
    TouchWrites(s, l, key);
    TouchIsRecent(limits, s, l, id);
    hide PublisherStep, CleanerStep, LedgerOk, WithinLifetimes, TimelyRun;
    StepKeepsReading(s, l, id);
    RunKeepsReading(v, after, id);
    RunKeepsTouched(limits, v, after, key, since);
    DefeatedExactly(Run(v, after), id, key, input);
  }

  /** A publisher in time touches with a reading at most its lifetime before that of any pass under way. */
  lemma TouchIsRecent(limits: Limits, s: System, l: Label, id: nat)
    requires LedgerOk(s) && WithinLifetimes(limits, s) && Enabled(s, l) && l.StepPublisher? && id in s.cleaners
    ensures s.cleaners[id].now - limits.publisher <= TouchTime(s.publishers[l.id])
    ensures s.cleaners[id].now <= s.registry.clock
  {
    var r := s.publishers[l.id];
    assert PublisherOk(s.registry, r) && PublisherInTime(limits, s.registry.clock, r) && CleanerOk(s.registry, s.cleaners[id]);
  }

  // ---------------------------------------------------------------- in every run

  /**
   With no hypothesis on time: while the intent stands as the touch left it, the touch defeats the quarantine
   exactly when the time it wrote is at most 3600 seconds before the pass's reading of the clock.
   */
  lemma TouchDefeatsExactly(s: System, l: Label, after: seq<Label>, id: nat, key: PublicationKey, input: CleanerInput)
    requires TouchedMeanwhile(s, l, after, id, key)
    requires
      var v, u := Apply(s, l), Run(Apply(s, l), after);
      key in u.registry.intents && u.registry.intents[key] == v.registry.intents[key]
    ensures Defeated(Run(Apply(s, l), after), id, input)
       <==> TouchTime(s.publishers[l.id]) >= s.cleaners[id].now - 3600
  {
    TouchWrites(s, l, key);
    hide PublisherStep, CleanerStep, Defeated;
    StepKeepsReading(s, l, id);
    RunKeepsReading(Apply(s, l), after, id);
    DefeatedExactly(Run(Apply(s, l), after), id, key, input);
  }

  // ---------------------------------------------------------------- a touch that comes too late

  const LATE_KEY := PublicationKey(7, "first")

  /** Both runs carry the same request; the one has reserved, the other is about to touch with its reading 0. */
  lemma ReadyToTouch() returns (s: System)
    ensures Reaches(Limits(0, 0), START, s)
    ensures s.cleaners == map[] && 1 in s.publishers && s.publishers[1] == FirstRun("first").At(TouchPending)
    ensures s.registry == Reserve(EMPTY_REGISTRY, LATE_KEY, RecipeBundle("first"), RunAt("first", ReserveBatch).result, 0)
  {
    hide Reaches, Instant, CanCommit, Commit, Reserve;
    var limits := Limits(0, 0);
    var a := BothStarted(limits, "first", "first");
    var b := ReadsOnEmpty(limits, a, 0, "first");
    ReachesTransitive(limits, START, a, b);
    var c := Advance(limits, b, 1);
    ReachesTransitive(limits, START, b, c);
    var d := Advance(limits, c, 1);
    ReachesTransitive(limits, START, c, d);
    assert d.registry == EMPTY_REGISTRY && d.publishers[1] == FirstRun("first").At(TouchPending);
    assert d.publishers[0] == RunAt("first", ReserveBatch);
    assert TotalBytes([RECIPE]) == 1;
    s := Advance(limits, d, 0);
    ReachesTransitive(limits, START, d, s);
  }

  /** The pass starts 3601 seconds later and selects the intent. */
  lemma SelectLate(s: System) returns (u: System)
    requires s.cleaners == map[] && s.registry.clock == 0
    requires s.registry.intents == map[LATE_KEY := Intent(RecipeBundle("first"), RunAt("first", ReserveBatch).result, 0, Uploading, None, 0)]
    ensures Leads(s, u) && u.publishers == s.publishers && u.registry == s.registry.(clock := 3601)
    ensures u.cleaners == map[0 := CleanerRun(3601, Next([Candidate(LATE_KEY, Uploading)]))]
  {
    hide Leads;
    var a := Apply(s, Tick(3601));
    LeadsByStep(s, Tick(3601));
    var b := Apply(a, StartCleaner(0));
    LeadsByStep(a, StartCleaner(0));
    LeadsAcross(s, a, b);
    var input := CleanerInput(Clear, [Candidate(LATE_KEY, Uploading)], []);
    assert Selection(b.registry, input.selected, 3601);
    u := Apply(b, StepCleaner(0, input));
    LeadsByStep(b, StepCleaner(0, input));
    LeadsAcross(s, b, u);
    assert u.cleaners == map[0 := CleanerRun(3601, Next(input.selected))];
  }

  /** Outside the lifetimes a run touches between selection and update, and the intent is quarantined all the same. */
  lemma StaleTouchComesTooLate() returns (s: System, l: Label)
    ensures Leads(START, s) && TouchedMeanwhile(s, l, [], 0, LATE_KEY)
    ensures forall input :: !Defeated(Apply(s, l), 0, input)
  {
    hide Leads, Reaches, Reserve;
    var a := ReadyToTouch();
    ReserveFacts("first");
    LeadsWhenReached(a);
    s := SelectLate(a);
    LeadsAcross(START, a, s);
    l := StepPublisher(1, Clear);
    assert s.cleaners[0].pc.candidates[0] == Candidate(LATE_KEY, Uploading);
    assert Touches(s, l, LATE_KEY);
    StepKeepsReading(s, l, 0);
    assert Run(Apply(s, l), []) == Apply(s, l);
    forall input ensures !Defeated(Apply(s, l), 0, input) {
      TouchDefeatsExactly(s, l, [], 0, LATE_KEY, input);
    }
  }

  lemma LeadsWhenReached(s: System)
    requires Reaches(Limits(0, 0), START, s)
    ensures Leads(START, s)
  {
    var labels :| GoodRun(Limits(0, 0), START, labels) && Run(START, labels) == s;
  }
}

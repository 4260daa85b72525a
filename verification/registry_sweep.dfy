/**
 What a maintenance pass leaves when no other run interferes with it and its calls are all answered: the
 oldest expired intents, up to the limit, are quarantined or removed with their rows and objects.
 */
module RegistrySweep {
  import opened Options
  import opened RegistryTables
  import opened RegistryRuns

  // ---------------------------------------------------------------- what has expired

  /** An upload nobody has touched for an hour. */
  predicate Abandoned(i: Intent, now: int) {
    (i.phase == Uploading || i.phase == Finalizing) && i.touchedAt < now - 3600
  }

  /** A quarantine or cleanup that began over an hour ago. */
  predicate Lapsed(i: Intent, now: int) {
    (i.phase == Quarantine || i.phase == Cleanup) && i.leaseStartedAt.Some? && i.leaseStartedAt.value < now - 3600
  }

  ghost function ExpiredKeys(t: Registry, now: int): set<PublicationKey> {
    set key | key in t.intents && (Abandoned(t.intents[key], now) || Lapsed(t.intents[key], now))
  }

  lemma ExpiredIsSelected(i: Intent, now: int)
    ensures StaleUpload(i, now) <==> Abandoned(i, now)
    ensures ExpiredLease(i, now) <==> Lapsed(i, now)
  {
  }

  function KeysOf(candidates: seq<Candidate>): set<PublicationKey> {
    set i | 0 <= i < |candidates| :: candidates[i].key
  }

  ghost predicate Distinct(candidates: seq<Candidate>) {
    forall i, j :: 0 <= i < j < |candidates| ==> candidates[i].key != candidates[j].key
  }

  /** None that is left out was touched before one that is chosen. */
  ghost predicate OldestOf(t: Registry, chosen: set<PublicationKey>, left: set<PublicationKey>) {
    forall key, other :: key in chosen && other in left && key in t.intents && other in t.intents ==>
      t.intents[key].touchedAt <= t.intents[other].touchedAt
  }

  ghost predicate TouchOrdered(t: Registry, candidates: seq<Candidate>) {
    forall i, j :: 0 <= i < j < |candidates| && candidates[i].key in t.intents && candidates[j].key in t.intents ==>
      t.intents[candidates[i].key].touchedAt <= t.intents[candidates[j].key].touchedAt
  }

  ghost predicate PhasesMatch(t: Registry, candidates: seq<Candidate>) {
    forall i :: 0 <= i < |candidates| ==>
      candidates[i].key in t.intents && candidates[i].phase == t.intents[candidates[i].key].phase
  }

  /** The selection query: expired intents in the order of their last touch, all of them or the first `limit`. */
  ghost predicate OldestExpired(t: Registry, candidates: seq<Candidate>, now: int, limit: nat) {
    && Distinct(candidates) && PhasesMatch(t, candidates) && TouchOrdered(t, candidates)
    && KeysOf(candidates) <= ExpiredKeys(t, now)
    && |candidates| <= limit
    && (|candidates| < limit ==> KeysOf(candidates) == ExpiredKeys(t, now))
    && OldestOf(t, KeysOf(candidates), ExpiredKeys(t, now) - KeysOf(candidates))
  }

  // ---------------------------------------------------------------- what a pass does to the tables

  ghost predicate Removed(t: Registry, now: int, done: set<PublicationKey>, key: PublicationKey) {
    key in done && key in t.intents && Lapsed(t.intents[key], now)
  }

  /** The object is listed by an intent that was removed. */
  ghost predicate ObjectRemoved(t: Registry, now: int, done: set<PublicationKey>, k: ObjectKey) {
    && k.coordinate in t.uploads && t.uploads[k.coordinate].digest == k.digest
    && Removed(t, now, done, t.uploads[k.coordinate].owner)
  }

  function Quarantined(i: Intent, now: int): Intent {
    i.(phase := Quarantine, leaseStartedAt := Some(now))
  }

  /** The tables once the pass is done with these intents. */
  ghost function Swept(t: Registry, now: int, done: set<PublicationKey>): Registry {
    t.(intents := map key | key in t.intents && !Removed(t, now, done, key) ::
         if key in done && Abandoned(t.intents[key], now) then Quarantined(t.intents[key], now) else t.intents[key],
       uploads := map c | c in t.uploads && !Removed(t, now, done, t.uploads[c].owner) :: t.uploads[c],
       objects := map k | k in t.objects && !ObjectRemoved(t, now, done, k) :: t.objects[k])
  }

  lemma NothingSwept(t: Registry, now: int)
    ensures Swept(t, now, {}) == t
  {
    var u := Swept(t, now, {});
    assert u.intents == t.intents;
    assert u.uploads == t.uploads;
    assert u.objects == t.objects;
  }

  lemma QuarantineSweeps(t: Registry, now: int, done: set<PublicationKey>, key: PublicationKey)
    requires key in t.intents && key !in done && Abandoned(t.intents[key], now)
    ensures QuarantineIntent(Swept(t, now, done), key, now) == Swept(t, now, done + {key})
  {
    var u, v := QuarantineIntent(Swept(t, now, done), key, now), Swept(t, now, done + {key});
    assert forall k :: Removed(t, now, done + {key}, k) <==> Removed(t, now, done, k);
    assert u.intents == v.intents;
    assert u.uploads == v.uploads;
    assert u.objects == v.objects;
  }

  /** While the claimed intent is being cleaned, some of its objects are gone already. */
  ghost function Cleaning(t: Registry, now: int, done: set<PublicationKey>, key: PublicationKey, gone: set<ObjectKey>): Registry
    requires key in t.intents
  {
    var u := Swept(t, now, done);
    u.(intents := u.intents[key := t.intents[key].(phase := Cleanup, leaseStartedAt := Some(now))],
       objects := u.objects - gone)
  }

  lemma ClaimSweeps(t: Registry, now: int, done: set<PublicationKey>, key: PublicationKey)
    requires key in t.intents && key !in done && Lapsed(t.intents[key], now)
    ensures
      var u := Swept(t, now, done);
      && CanClaimCleanup(u, key, now)
      && ClaimCleanup(u, key, now) == Cleaning(t, now, done, key, {})
  {
    assert Swept(t, now, done).objects - {} == Swept(t, now, done).objects;
  }

  lemma KeysStayListed(t: Registry, now: int, done: set<PublicationKey>, key: PublicationKey)
    requires key in t.intents && key !in done
    ensures UploadKeys(Cleaning(t, now, done, key, {}), key) == UploadKeys(t, key)
  {
    var u := Cleaning(t, now, done, key, {});
    forall c | c in t.uploads && t.uploads[c].owner == key ensures c in u.uploads && u.uploads[c] == t.uploads[c] {
      assert !Removed(t, now, done, key);
    }
  }

  lemma DeleteSweeps(t: Registry, now: int, done: set<PublicationKey>, key: PublicationKey, gone: set<ObjectKey>, k: ObjectKey)
    requires key in t.intents
    ensures DeleteObject(Cleaning(t, now, done, key, gone), k) == Cleaning(t, now, done, key, gone + {k})
  {
    var u := Swept(t, now, done);
    assert u.objects - gone - {k} == u.objects - (gone + {k});
  }

  lemma RemovedNext(t: Registry, now: int, done: set<PublicationKey>, key: PublicationKey)
    requires key in t.intents && Lapsed(t.intents[key], now)
    ensures forall k :: Removed(t, now, done + {key}, k) <==> k == key || Removed(t, now, done, k)
    ensures forall k :: ObjectRemoved(t, now, done + {key}, k) <==> k in UploadKeys(t, key) || ObjectRemoved(t, now, done, k)
  {
    forall k ensures ObjectRemoved(t, now, done + {key}, k) <==> k in UploadKeys(t, key) || ObjectRemoved(t, now, done, k) {
      ListedByOwner(t, key, k);
    }
  }

  lemma ForgetSweeps(t: Registry, now: int, done: set<PublicationKey>, key: PublicationKey)
    requires key in t.intents && key !in done && Lapsed(t.intents[key], now)
    ensures ForgetIntent(Cleaning(t, now, done, key, UploadKeys(t, key)), key, now) == Swept(t, now, done + {key})
  {
    var u, v := ForgetIntent(Cleaning(t, now, done, key, UploadKeys(t, key)), key, now), Swept(t, now, done + {key});
    RemovedNext(t, now, done, key);
    hide Removed, ObjectRemoved, UploadKeys, Abandoned, Lapsed;
    assert u.intents == v.intents;
    assert u.uploads == v.uploads;
    assert u.objects == v.objects;
  }

  lemma ListedByOwner(t: Registry, key: PublicationKey, k: ObjectKey)
    ensures k in UploadKeys(t, key) <==>
              k.coordinate in t.uploads && t.uploads[k.coordinate].digest == k.digest && t.uploads[k.coordinate].owner == key
  {
  }

  // ---------------------------------------------------------------- along an undisturbed pass

  ghost predicate DistinctKeys(keys: seq<ObjectKey>) {
    forall i, j :: 0 <= i < j < |keys| ==> keys[i] != keys[j]
  }

  function KeySet(keys: seq<ObjectKey>): set<ObjectKey> {
    set i | 0 <= i < |keys| :: keys[i]
  }

  /** The candidates still to come are as they were selected. */
  ghost predicate ToCome(t: Registry, now: int, chosen: set<PublicationKey>, candidates: seq<Candidate>) {
    && Distinct(candidates) && PhasesMatch(t, candidates)
    && KeysOf(candidates) <= chosen <= ExpiredKeys(t, now)
  }

  ghost predicate InHand(t: Registry, now: int, chosen: set<PublicationKey>, key: PublicationKey, rest: seq<Candidate>) {
    && ToCome(t, now, chosen, rest)
    && key in chosen && key !in KeysOf(rest) && key in t.intents && Lapsed(t.intents[key], now)
  }

  /** Where the pass stands, what it has done to the tables `t` it selected from. */
  ghost predicate Along(t: Registry, now: int, chosen: set<PublicationKey>, u: Registry, pc: CleanerPc) {
    match pc
    case Select => false
    case Next(rest) => ToCome(t, now, chosen, rest) && u == Swept(t, now, chosen - KeysOf(rest))
    case ReadKeys(key, _, rest) =>
      && InHand(t, now, chosen, key, rest)
      && u == Cleaning(t, now, chosen - KeysOf(rest) - {key}, key, {})
    case DeleteKeys(key, _, keys, rest) =>
      && InHand(t, now, chosen, key, rest)
      && DistinctKeys(keys) && KeySet(keys) <= UploadKeys(t, key)
      && u == Cleaning(t, now, chosen - KeysOf(rest) - {key}, key, UploadKeys(t, key) - KeySet(keys))
    case Finished => u == Swept(t, now, chosen)
  }

  lemma FirstOfCandidates(t: Registry, now: int, chosen: set<PublicationKey>, candidates: seq<Candidate>)
    requires ToCome(t, now, chosen, candidates) && candidates != []
    ensures
      var key, rest := candidates[0].key, candidates[1..];
      && ToCome(t, now, chosen, rest)
      && key in chosen && key !in KeysOf(rest) && key in t.intents && candidates[0].phase == t.intents[key].phase
      && (Abandoned(t.intents[key], now) || Lapsed(t.intents[key], now))
      && chosen - KeysOf(candidates) == chosen - KeysOf(rest) - {key}
      && chosen - KeysOf(rest) == chosen - KeysOf(candidates) + {key}
  {
    var key, rest := candidates[0].key, candidates[1..];
    assert key in KeysOf(candidates);
    forall k ensures k in KeysOf(candidates) <==> k == key || k in KeysOf(rest) {
      if k in KeysOf(candidates) {
        var i :| 0 <= i < |candidates| && candidates[i].key == k;
        if i > 0 { assert rest[i - 1].key == k; }
      }
      if k in KeysOf(rest) {
        var i :| 0 <= i < |rest| && rest[i].key == k;
        assert candidates[i + 1].key == k;
      }
    }
  }

  lemma NextStaysAlong(t: Registry, now: int, chosen: set<PublicationKey>, u: Registry, candidates: seq<Candidate>, input: CleanerInput)
    requires Along(t, now, chosen, u, Next(candidates))
    ensures
      var (v, c) := CleanerStep(u, CleanerRun(now, Next(candidates)), input);
      c.now == now && Along(t, now, chosen, v, c.pc)
  {
    hide Swept, Cleaning;
    if candidates == [] {
      assert chosen - KeysOf([]) == chosen;
    } else {
      hide ToCome;
      var key, rest := candidates[0].key, candidates[1..];
      FirstOfCandidates(t, now, chosen, candidates);
      var done := chosen - KeysOf(candidates);
      if Abandoned(t.intents[key], now) {
        QuarantineSweeps(t, now, done, key);
      } else {
        ClaimSweeps(t, now, done, key);
        hide CanClaimCleanup, ClaimCleanup, Lapsed;
      }
    }
  }

  lemma FirstOfKeys(keys: seq<ObjectKey>, all: set<ObjectKey>)
    requires DistinctKeys(keys) && KeySet(keys) <= all && keys != []
    ensures DistinctKeys(keys[1..]) && KeySet(keys[1..]) <= all
    ensures all - KeySet(keys[1..]) == all - KeySet(keys) + {keys[0]}
  {
    assert keys[0] in KeySet(keys);
    forall k ensures k in KeySet(keys) <==> k == keys[0] || k in KeySet(keys[1..]) {
      if k in KeySet(keys) {
        var i :| 0 <= i < |keys| && keys[i] == k;
        if i > 0 { assert keys[1..][i - 1] == k; }
      }
      if k in KeySet(keys[1..]) {
        var i :| 0 <= i < |keys[1..]| && keys[1..][i] == k;
        assert keys[i + 1] == k;
      }
    }
    assert keys[0] !in KeySet(keys[1..]);
  }

  lemma ReadStaysAlong(t: Registry, now: int, chosen: set<PublicationKey>, u: Registry, pc: CleanerPc, input: CleanerInput)
    requires pc.ReadKeys? && Along(t, now, chosen, u, pc) && CleanerCan(u, CleanerRun(now, pc), input) && input.reply.Clear?
    ensures
      var (v, c) := CleanerStep(u, CleanerRun(now, pc), input);
      c.now == now && Along(t, now, chosen, v, c.pc)
  {
    hide Swept, ToCome, Cleaning;
    var done := chosen - KeysOf(pc.candidates) - {pc.key};
    KeysStayListed(t, now, done, pc.key);
    hide UploadKeys;
    assert KeySet(input.keys) == UploadKeys(t, pc.key);
    assert UploadKeys(t, pc.key) - KeySet(input.keys) == {};
  }

  lemma DeleteStaysAlong(t: Registry, now: int, chosen: set<PublicationKey>, u: Registry, pc: CleanerPc, input: CleanerInput)
    requires pc.DeleteKeys? && Along(t, now, chosen, u, pc) && input.reply.Clear?
    ensures
      var (v, c) := CleanerStep(u, CleanerRun(now, pc), input);
      c.now == now && Along(t, now, chosen, v, c.pc)
  {
    hide Swept, ToCome, Cleaning, UploadKeys;
    var done := chosen - KeysOf(pc.candidates) - {pc.key};
    if pc.keys == [] {
      assert UploadKeys(t, pc.key) - KeySet([]) == UploadKeys(t, pc.key);
      ForgetSweeps(t, now, done, pc.key);
      assert done + {pc.key} == chosen - KeysOf(pc.candidates);
    } else {
      FirstOfKeys(pc.keys, UploadKeys(t, pc.key));
      DeleteSweeps(t, now, done, pc.key, UploadKeys(t, pc.key) - KeySet(pc.keys), pc.keys[0]);
    }
  }

  lemma StepStaysAlong(t: Registry, now: int, chosen: set<PublicationKey>, u: Registry, pc: CleanerPc, input: CleanerInput)
    requires Along(t, now, chosen, u, pc) && CleanerCan(u, CleanerRun(now, pc), input) && input.reply.Clear?
    ensures
      var (v, c) := CleanerStep(u, CleanerRun(now, pc), input);
      c.now == now && Along(t, now, chosen, v, c.pc)
  {
    hide Along, CleanerStep;
    match pc
    case Next(candidates) => NextStaysAlong(t, now, chosen, u, candidates, input);
    case ReadKeys(_, _, _) => ReadStaysAlong(t, now, chosen, u, pc, input);
    case DeleteKeys(_, _, _, _) => DeleteStaysAlong(t, now, chosen, u, pc, input);
    case Select => SelectIsBefore(t, now, chosen, u);
    case Finished =>
  }

  lemma SelectIsBefore(t: Registry, now: int, chosen: set<PublicationKey>, u: Registry)
    ensures !Along(t, now, chosen, u, Select)
  {
  }

  // ---------------------------------------------------------------- undisturbed passes

  /** Only this pass takes steps, every call is answered, and the selection is what its query promises. */
  ghost predicate OwnSweep(s: System, id: nat, labels: seq<Label>)
    decreases |labels|
  {
    labels == [] ||
    (&& labels[0].StepCleaner? && labels[0].id == id && Enabled(s, labels[0]) && labels[0].input.reply.Clear?
     && (s.cleaners[id].pc.Select? ==>
           OldestExpired(s.registry, labels[0].input.selected, s.cleaners[id].now, MAXIMUM_CLEANUPS))
     && OwnSweep(Apply(s, labels[0]), id, labels[1..]))
  }

  ghost predicate UndisturbedPass(s: System, id: nat, labels: seq<Label>) {
    labels != [] && labels[0] == StartCleaner(id) && Enabled(s, labels[0]) && OwnSweep(Apply(s, labels[0]), id, labels[1..])
  }

  lemma {:induction false} SweepIsExecutable(s: System, id: nat, labels: seq<Label>)
    requires OwnSweep(s, id, labels)
    ensures Executable(s, labels)
    decreases |labels|
  {
    hide Apply, Enabled;
    if labels != [] {
      SweepIsExecutable(Apply(s, labels[0]), id, labels[1..]);
    }
  }

  ghost predicate PassFinished(s: System, id: nat) {
    id in s.cleaners && s.cleaners[id].pc.Finished?
  }

  lemma {:induction false} SweepStaysAlong(t: Registry, chosen: set<PublicationKey>, s: System, id: nat, labels: seq<Label>)
    requires id in s.cleaners && OwnSweep(s, id, labels) && Executable(s, labels)
    requires Along(t, s.cleaners[id].now, chosen, s.registry, s.cleaners[id].pc)
    ensures id in Run(s, labels).cleaners
    ensures Along(t, s.cleaners[id].now, chosen, Run(s, labels).registry, Run(s, labels).cleaners[id].pc)
    decreases |labels|
  {
    hide Along, CleanerStep, CleanerCan;
    if labels != [] {
      StepStaysAlong(t, s.cleaners[id].now, chosen, s.registry, s.cleaners[id].pc, labels[0].input);
      SweepStaysAlong(t, chosen, Apply(s, labels[0]), id, labels[1..]);
    }
  }

  /** The 25 oldest of the expired intents, or all of them. */
  ghost predicate Chosen(t: Registry, now: int, chosen: set<PublicationKey>) {
    && chosen <= ExpiredKeys(t, now)
    && |chosen| <= 25
    && (chosen != ExpiredKeys(t, now) ==> |chosen| == 25)
    && OldestOf(t, chosen, ExpiredKeys(t, now) - chosen)
  }

  lemma {:induction false} CountDistinct(candidates: seq<Candidate>)
    requires Distinct(candidates)
    ensures |KeysOf(candidates)| == |candidates|
    decreases |candidates|
  {
    if candidates != [] {
      var n := |candidates| - 1;
      CountDistinct(candidates[..n]);
      assert candidates[n].key !in KeysOf(candidates[..n]);
      forall k ensures k in KeysOf(candidates) <==> k == candidates[n].key || k in KeysOf(candidates[..n]) {
        if k in KeysOf(candidates[..n]) {
          var i :| 0 <= i < n && candidates[..n][i].key == k;
          assert candidates[i].key == k;
        }
        if k in KeysOf(candidates) {
          var i :| 0 <= i < |candidates| && candidates[i].key == k;
          if i < n { assert candidates[..n][i].key == k; }
        }
        assert candidates[n].key in KeysOf(candidates);
      }
      assert KeysOf(candidates) == KeysOf(candidates[..n]) + {candidates[n].key};
    } else {
      assert KeysOf(candidates) == {};
    }
  }

  lemma SelectedIsChosen(t: Registry, candidates: seq<Candidate>, now: int)
    requires OldestExpired(t, candidates, now, MAXIMUM_CLEANUPS)
    ensures Chosen(t, now, KeysOf(candidates))
    ensures Along(t, now, KeysOf(candidates), t, Next(candidates))
  {
    CountDistinct(candidates);
    NothingSwept(t, now);
    assert KeysOf(candidates) - KeysOf(candidates) == {};
  }

  lemma PassSelects(s: System, id: nat, labels: seq<Label>) returns (chosen: set<PublicationKey>)
    requires id in s.cleaners && s.cleaners[id].pc.Select? && OwnSweep(s, id, labels) && Executable(s, labels)
    requires PassFinished(Run(s, labels), id)
    ensures Chosen(s.registry, s.cleaners[id].now, chosen)
    ensures Run(s, labels).registry == Swept(s.registry, s.cleaners[id].now, chosen)
  {
    var selected, now := labels[0].input.selected, s.cleaners[id].now;
    chosen := KeysOf(selected);
    SelectedIsChosen(s.registry, selected, now);
    hide Chosen, OldestExpired, Swept;
    SweepStaysAlong(s.registry, chosen, Apply(s, labels[0]), id, labels[1..]);
  }

  /**
   An undisturbed pass deals with the 25 oldest of the expired intents, or with all of them, and with no other:
   the abandoned are quarantined, and the lapsed are removed with their rows and their objects.
   */
  lemma PassSweepsChosen(s: System, id: nat, labels: seq<Label>) returns (chosen: set<PublicationKey>)
    requires UndisturbedPass(s, id, labels) && Executable(s, labels) && PassFinished(Run(s, labels), id)
    ensures Chosen(s.registry, s.registry.clock, chosen)
    ensures Run(s, labels).registry == Swept(s.registry, s.registry.clock, chosen)
  {
    chosen := PassSelects(Apply(s, labels[0]), id, labels[1..]);
  }

  predicate HasLapsed(t: Registry, key: PublicationKey, now: int) {
    key in t.intents && Lapsed(t.intents[key], now)
  }

  ghost predicate ListedByLapsed(t: Registry, k: ObjectKey, now: int) {
    exists key :: HasLapsed(t, key, now) && k in UploadKeys(t, key)
  }

  /** With at most 25 expired intents none is left: every one of them was dealt with. */
  lemma PassSweepsAll(s: System, id: nat, labels: seq<Label>)
    requires UndisturbedPass(s, id, labels) && Executable(s, labels) && PassFinished(Run(s, labels), id)
    requires |ExpiredKeys(s.registry, s.registry.clock)| <= 25
    ensures
      var t, u, now := s.registry, Run(s, labels).registry, s.registry.clock;
      && (forall key :: key in u.intents <==> key in t.intents && !Lapsed(t.intents[key], now))
      && (forall key :: key in u.intents ==>
            u.intents[key] == if Abandoned(t.intents[key], now)
                              then t.intents[key].(phase := Quarantine, leaseStartedAt := Some(now)) else t.intents[key])
      && (forall key :: key in t.intents && Lapsed(t.intents[key], now) ==>
            UploadKeys(u, key) == {} && UploadKeys(t, key) !! u.objects.Keys)
      && (forall c :: c in t.uploads && !HasLapsed(t, t.uploads[c].owner, now) ==> c in u.uploads && u.uploads[c] == t.uploads[c])
      && (forall k :: k in t.objects && !ListedByLapsed(t, k, now) ==> k in u.objects && u.objects[k] == t.objects[k])
      && ExpiredKeys(u, now) == {}
  {
    var t, now := s.registry, s.registry.clock;
    var chosen := PassSweepsChosen(s, id, labels);
    if chosen != ExpiredKeys(t, now) { SubsetOfSize(chosen, ExpiredKeys(t, now)); }
    SweptAll(t, now);
  }

  lemma SubsetOfSize<T>(a: set<T>, b: set<T>)
    requires a < b
    ensures |a| < |b|
  {
    assert b == a + (b - a) && b - a != {};
  }

  lemma SweptAll(t: Registry, now: int)
    ensures
      var u := Swept(t, now, ExpiredKeys(t, now));
      && (forall key :: key in u.intents <==> key in t.intents && !Lapsed(t.intents[key], now))
      && (forall key :: key in u.intents ==>
            u.intents[key] == if Abandoned(t.intents[key], now)
                              then t.intents[key].(phase := Quarantine, leaseStartedAt := Some(now)) else t.intents[key])
      && (forall key :: key in t.intents && Lapsed(t.intents[key], now) ==>
            UploadKeys(u, key) == {} && UploadKeys(t, key) !! u.objects.Keys)
      && (forall c :: c in t.uploads && !HasLapsed(t, t.uploads[c].owner, now) ==> c in u.uploads && u.uploads[c] == t.uploads[c])
      && (forall k :: k in t.objects && !ListedByLapsed(t, k, now) ==> k in u.objects && u.objects[k] == t.objects[k])
      && ExpiredKeys(u, now) == {}
  {
    var u := Swept(t, now, ExpiredKeys(t, now));
    forall key | key in t.intents && Lapsed(t.intents[key], now)
      ensures UploadKeys(u, key) == {} && UploadKeys(t, key) !! u.objects.Keys
    {
      assert Removed(t, now, ExpiredKeys(t, now), key);
      assert forall c :: c in u.uploads ==> u.uploads[c].owner != key;
      forall k | k in UploadKeys(t, key) ensures k !in u.objects {
        assert ObjectRemoved(t, now, ExpiredKeys(t, now), k);
      }
    }
  }

  // ---------------------------------------------------------------- passes can be carried to their end

  lemma Oldest(t: Registry, keys: set<PublicationKey>) returns (key: PublicationKey)
    requires keys != {} && keys <= t.intents.Keys
    ensures key in keys && forall other :: other in keys ==> t.intents[key].touchedAt <= t.intents[other].touchedAt
    decreases |keys|
  {
    var first := Pick(keys);
    var rest := keys - {first};
    key := first;
    if rest != {} {
      var older := Oldest(t, rest);
      if t.intents[older].touchedAt < t.intents[first].touchedAt { key := older; }
      assert forall other :: other in keys ==> other == first || other in rest;
    } else {
      assert forall other :: other in keys ==> other == first || other in rest;
    }
  }

  /** One more candidate: the oldest of those left. */
  lemma SelectsOneMore(t: Registry, candidates: seq<Candidate>, now: int, n: nat, key: PublicationKey)
    requires OldestExpired(t, candidates, now, n) && |candidates| == n
    requires key in ExpiredKeys(t, now) - KeysOf(candidates)
    requires forall other :: other in ExpiredKeys(t, now) - KeysOf(candidates) ==> t.intents[key].touchedAt <= t.intents[other].touchedAt
    ensures OldestExpired(t, candidates + [Candidate(key, t.intents[key].phase)], now, n + 1)
    ensures KeysOf(candidates + [Candidate(key, t.intents[key].phase)]) == KeysOf(candidates) + {key}
  {
    var more := candidates + [Candidate(key, t.intents[key].phase)];
    forall k ensures k in KeysOf(more) <==> k == key || k in KeysOf(candidates) {
      assert more[n].key == key;
      if k in KeysOf(candidates) {
        var i :| 0 <= i < n && candidates[i].key == k;
        assert more[i].key == k;
      }
    }
    forall i | 0 <= i < n ensures candidates[i].key in KeysOf(candidates) {
    }
  }

  lemma {:induction false} SelectionExists(t: Registry, now: int, limit: nat) returns (candidates: seq<Candidate>)
    ensures OldestExpired(t, candidates, now, limit)
    decreases limit
  {
    candidates := [];
    if limit == 0 {
      assert KeysOf([]) == {};
    } else {
      candidates := SelectionExists(t, now, limit - 1);
      var left := ExpiredKeys(t, now) - KeysOf(candidates);
      if |candidates| == limit - 1 && left != {} {
        var key := Oldest(t, left);
        SelectsOneMore(t, candidates, now, limit - 1, key);
        candidates := candidates + [Candidate(key, t.intents[key].phase)];
      }
    }
  }

  lemma {:induction false} EnumerationExists(s: set<ObjectKey>) returns (keys: seq<ObjectKey>)
    ensures Enumerates(keys, s)
    decreases |s|
  {
    keys := [];
    if s != {} {
      var k := Pick(s);
      var rest := EnumerationExists(s - {k});
      keys := [k] + rest;
    }
  }

  function Remaining(pc: CleanerPc): nat {
    match pc
    case Next(rest) => |rest|
    case ReadKeys(_, _, rest) => |rest|
    case DeleteKeys(_, _, _, rest) => |rest|
    case _ => 0
  }

  function Part(pc: CleanerPc): nat {
    if pc.DeleteKeys? then 1 + |pc.keys| else 0
  }

  function Turn(pc: CleanerPc): nat {
    if pc.Select? then 2 else if pc.Finished? then 0 else 1
  }

  lemma SelectableWhenExpired(t: Registry, candidates: seq<Candidate>, now: int, limit: nat)
    requires OldestExpired(t, candidates, now, limit) && limit <= MAXIMUM_CLEANUPS
    ensures Selection(t, candidates, now)
  {
    forall i | 0 <= i < |candidates| ensures Selectable(t, candidates[i], now) {
      assert candidates[i].key in KeysOf(candidates);
    }
  }

  ghost predicate Descends(a: CleanerPc, b: CleanerPc) {
    || Turn(b) < Turn(a)
    || (Turn(b) == Turn(a) && (
          || Remaining(b) < Remaining(a)
          || (Remaining(b) == Remaining(a) && (
                || (a.ReadKeys? && !b.ReadKeys?)
                || (a.ReadKeys? == b.ReadKeys? && Part(b) < Part(a))))))
  }

  lemma SweepDescends(t: Registry, c: CleanerRun, input: CleanerInput)
    requires c.Live() && input.reply.Clear?
    ensures Descends(c.pc, CleanerStep(t, c, input).1.pc)
  {
    hide QuarantineIntent, ClaimCleanup, CanClaimCleanup, ForgetIntent, DeleteObject;
  }

  /** An answer the environment can give to the pass's next step. */
  lemma InputExists(t: Registry, c: CleanerRun) returns (input: CleanerInput)
    requires c.Live()
    ensures CleanerCan(t, c, input) && input.reply.Clear?
    ensures c.pc.Select? ==> OldestExpired(t, input.selected, c.now, MAXIMUM_CLEANUPS)
  {
    hide OldestExpired, Selection, Enumerates;
    var selected := SelectionExists(t, c.now, MAXIMUM_CLEANUPS);
    SelectableWhenExpired(t, selected, c.now, MAXIMUM_CLEANUPS);
    var keys := [];
    if c.pc.ReadKeys? { keys := EnumerationExists(UploadKeys(t, c.pc.key)); }
    input := CleanerInput(Clear, selected, keys);
  }

  lemma {:induction false} OwnSweepEnds(s: System, id: nat) returns (labels: seq<Label>)
    requires id in s.cleaners
    ensures OwnSweep(s, id, labels) && Executable(s, labels) && PassFinished(Run(s, labels), id)
    decreases Turn(s.cleaners[id].pc), Remaining(s.cleaners[id].pc), s.cleaners[id].pc.ReadKeys?, Part(s.cleaners[id].pc)
  {
    hide CleanerStep, CleanerCan, OldestExpired, Turn, Remaining, Part;
    labels := [];
    if s.cleaners[id].Live() {
      var input := InputExists(s.registry, s.cleaners[id]);
      var first := StepCleaner(id, input);
      SweepDescends(s.registry, s.cleaners[id], input);
      var rest := OwnSweepEnds(Apply(s, first), id);
      labels := [first] + rest;
      assert labels[1..] == rest;
    }
  }

  /** An undisturbed pass can always be carried to its end. */
  lemma UndisturbedPassEnds(s: System, id: nat) returns (labels: seq<Label>)
    requires id !in s.cleaners
    ensures UndisturbedPass(s, id, labels) && Executable(s, labels) && PassFinished(Run(s, labels), id)
  {
    var first := StartCleaner(id);
    var rest := OwnSweepEnds(Apply(s, first), id);
    labels := [first] + rest;
    assert labels[1..] == rest;
  }
}

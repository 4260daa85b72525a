/**
 Each statement, batch and R2 call keeps the facts about the tables and only advances them.
 */
module RegistryStatements {
  import opened Options
  import opened RegistryTables
  import opened RegistryRuns
  import opened RegistryLedger

  lemma UploadRowsAt(key: PublicationKey, bundle: Bundle)
    requires bundle.Valid()
    ensures HasRows(UploadRows(key, bundle), key, bundle)
    ensures forall c :: c in UploadRows(key, bundle) ==>
              UploadRows(key, bundle)[c].owner == key && Contains(bundle, ObjectKey(c, UploadRows(key, bundle)[c].digest))
  {
    forall i | 0 <= i < |bundle.artifacts|
      ensures bundle.artifacts[i].coordinate in UploadRows(key, bundle)
      ensures UploadRows(key, bundle)[bundle.artifacts[i].coordinate] == UploadRow(key, bundle.artifacts[i].digest)
    {
      ArtifactAtIndex(bundle, i);
    }
    forall c | c in UploadRows(key, bundle)
      ensures Contains(bundle, ObjectKey(c, UploadRows(key, bundle)[c].digest))
    {
      var i :| 0 <= i < |bundle.artifacts| && bundle.artifacts[i].coordinate == c;
      ArtifactAtIndex(bundle, i);
    }
  }

  lemma VersionRowsAt(bundle: Bundle)
    requires bundle.Valid()
    ensures forall i :: 0 <= i < |bundle.artifacts| ==>
              && bundle.artifacts[i].coordinate in VersionRows(bundle)
              && VersionRows(bundle)[bundle.artifacts[i].coordinate].digest == bundle.artifacts[i].digest
    ensures forall c :: c in VersionRows(bundle) ==> Contains(bundle, ObjectKey(c, VersionRows(bundle)[c].digest))
  {
    forall i | 0 <= i < |bundle.artifacts|
      ensures bundle.artifacts[i].coordinate in VersionRows(bundle)
      ensures VersionRows(bundle)[bundle.artifacts[i].coordinate].digest == bundle.artifacts[i].digest
    {
      ArtifactAtIndex(bundle, i);
    }
    forall c | c in VersionRows(bundle)
      ensures Contains(bundle, ObjectKey(c, VersionRows(bundle)[c].digest))
    {
      var i :| 0 <= i < |bundle.artifacts| && bundle.artifacts[i].coordinate == c;
      ArtifactAtIndex(bundle, i);
    }
  }

  // ---------------------------------------------------------------- touch and claim

  lemma IntentUpdateKeepsUploads(uploads: map<Coordinate, UploadRow>, intents: map<PublicationKey, Intent>,
                                 key: PublicationKey, j: Intent)
    requires UploadsOk(uploads, intents) && key in intents && j.bundle == intents[key].bundle
    ensures UploadsOk(uploads, intents[key := j])
  {
    forall c | c in uploads ensures RowOwned(uploads, intents[key := j], c) {
      assert RowOwned(uploads, intents, c);
    }
    forall k | k in intents ensures HasRows(uploads, k, intents[key := j][k].bundle) {
      assert HasRows(uploads, k, intents[k].bundle);
    }
  }

  lemma IntentUpdateKeepsIntents(intents: map<PublicationKey, Intent>, incarnations: nat, key: PublicationKey, j: Intent)
    requires IntentsOk(intents, incarnations) && key in intents
    requires j.incarnation == intents[key].incarnation && LeaseOk(j) && IntentAdvances(intents[key], j)
    ensures IntentsOk(intents[key := j], incarnations)
  {
    assert IntentOk(intents[key], incarnations);
  }

  /** An update of one intent that keeps its request, incarnation and rows. */
  lemma IntentUpdateKeepsTables(t: Registry, key: PublicationKey, j: Intent)
    requires TablesOk(t) && key in t.intents
    requires j.incarnation == t.intents[key].incarnation && LeaseOk(j)
    requires IntentAdvances(t.intents[key], j)
    ensures TablesOk(t.(intents := t.intents[key := j]))
    ensures Advances(t, t.(intents := t.intents[key := j]))
  {
    IntentUpdateKeepsUploads(t.uploads, t.intents, key, j);
    IntentUpdateKeepsIntents(t.intents, t.incarnations, key, j);
    IntentUpdateAdvances(t, key, j);
  }

  lemma IntentUpdateAdvances(t: Registry, key: PublicationKey, j: Intent)
    requires key in t.intents && j.incarnation == t.intents[key].incarnation
    requires IntentAdvances(t.intents[key], j)
    ensures Advances(t, t.(intents := t.intents[key := j]))
  {
    var u := t.(intents := t.intents[key := j]);
    forall k | k in u.intents ensures KeyAdvances(t, u, k) {
    }
  }

  lemma TouchKeepsTables(t: Registry, key: PublicationKey, bundle: Bundle, now: int)
    requires TablesOk(t)
    ensures TablesOk(Touch(t, key, bundle, now)) && Advances(t, Touch(t, key, bundle, now))
  {
    if Resumable(t, key, bundle) {
      assert IntentOk(t.intents[key], t.incarnations);
      IntentUpdateKeepsTables(t, key, t.intents[key].(touchedAt := now));
    }
  }

  lemma ClaimKeepsTables(t: Registry, key: PublicationKey, bundle: Bundle, now: int)
    requires TablesOk(t)
    ensures TablesOk(ClaimFinalization(t, key, bundle, now)) && Advances(t, ClaimFinalization(t, key, bundle, now))
  {
    if Resumable(t, key, bundle) {
      IntentUpdateKeepsTables(t, key, t.intents[key].(touchedAt := now, phase := Finalizing, leaseStartedAt := None));
    }
  }

  lemma QuarantineKeepsTables(t: Registry, key: PublicationKey, now: int)
    requires TablesOk(t)
    ensures TablesOk(QuarantineIntent(t, key, now)) && Advances(t, QuarantineIntent(t, key, now))
  {
    if key in t.intents && StaleUpload(t.intents[key], now) {
      IntentUpdateKeepsTables(t, key, t.intents[key].(phase := Quarantine, leaseStartedAt := Some(now)));
    }
  }

  lemma ClaimCleanupKeepsTables(t: Registry, key: PublicationKey, now: int)
    requires TablesOk(t) && CanClaimCleanup(t, key, now)
    ensures TablesOk(ClaimCleanup(t, key, now)) && Advances(t, ClaimCleanup(t, key, now))
    ensures t.intents[key].touchedAt + 2 * INTENT_TTL_SECONDS < now
  {
    assert IntentOk(t.intents[key], t.incarnations);
    IntentUpdateKeepsTables(t, key, t.intents[key].(phase := Cleanup, leaseStartedAt := Some(now)));
  }

  // ---------------------------------------------------------------- objects

  lemma ObjectChangeKeepsTables(t: Registry, objects: map<ObjectKey, string>)
    requires TablesOk(t) && ObjectsOk(objects)
    ensures TablesOk(t.(objects := objects)) && Advances(t, t.(objects := objects))
  {
  }

  lemma PutKeepsTables(t: Registry, a: Artifact)
    requires TablesOk(t)
    ensures TablesOk(PutIfAbsent(t, a)) && Advances(t, PutIfAbsent(t, a))
  {
    if a.Key() !in t.objects { ObjectChangeKeepsTables(t, t.objects[a.Key() := a.digest]); }
  }

  lemma DeleteObjectKeepsTables(t: Registry, key: ObjectKey)
    requires TablesOk(t)
    ensures TablesOk(DeleteObject(t, key)) && Advances(t, DeleteObject(t, key))
  {
    ObjectChangeKeepsTables(t, DeleteObject(t, key).objects);
  }

  lemma TickKeepsTables(t: Registry, seconds: nat)
    requires TablesOk(t)
    ensures TablesOk(t.(clock := t.clock + seconds)) && Advances(t, t.(clock := t.clock + seconds))
  {
  }

  // ---------------------------------------------------------------- deleting an intent

  lemma DeleteIntentKeepsUploads(t: Registry, key: PublicationKey)
    requires UploadsOk(t.uploads, t.intents)
    ensures UploadsOk(DeleteIntent(t, key).uploads, DeleteIntent(t, key).intents)
  {
    var u := DeleteIntent(t, key);
    forall c | c in u.uploads ensures RowOwned(u.uploads, u.intents, c) {
      assert RowOwned(t.uploads, t.intents, c);
    }
    forall k | k in u.intents ensures HasRows(u.uploads, k, u.intents[k].bundle) {
      assert HasRows(t.uploads, k, t.intents[k].bundle);
    }
  }

  lemma DeleteIntentKeepsTables(t: Registry, key: PublicationKey)
    requires TablesOk(t)
    ensures TablesOk(DeleteIntent(t, key)) && Advances(t, DeleteIntent(t, key))
  {
    DeleteIntentKeepsUploads(t, key);
    var u := DeleteIntent(t, key);
  }

  lemma ForgetKeepsTables(t: Registry, key: PublicationKey, now: int)
    requires TablesOk(t)
    ensures TablesOk(ForgetIntent(t, key, now)) && Advances(t, ForgetIntent(t, key, now))
  {
    DeleteIntentKeepsTables(t, key);
  }

  // ---------------------------------------------------------------- reservation

  lemma HistoryTotal(history: seq<Event>, e: Event, k: UsageKey)
    ensures ReservedTotal(history + [e], k) ==
              if e.Reserved? && e.usageKey == k then Plus(ReservedTotal(history, k), e.usage) else ReservedTotal(history, k)
  {
    assert (history + [e])[..|history|] == history;
  }

  lemma HistoryCommits(history: seq<Event>, e: Event, k: PublicationKey)
    ensures Commits(history + [e], k) == Commits(history, k) + (if e == Committed(k) then 1 else 0)
  {
    assert (history + [e])[..|history|] == history;
  }

  lemma ReserveKeepsUsage(usage: map<UsageKey, Usage>, history: seq<Event>, key: UsageKey, demand: Usage)
    requires UsageConserved(usage, history)
    requires WithinQuota(Plus(if key in usage then usage[key] else Usage(0, 0), demand))
    ensures UsageConserved(usage[key := Plus(if key in usage then usage[key] else Usage(0, 0), demand)],
                           history + [Reserved(key, demand)])
  {
    var usage' := usage[key := Plus(if key in usage then usage[key] else Usage(0, 0), demand)];
    var history' := history + [Reserved(key, demand)];
    forall k ensures UsageOk(usage', history', k) {
      assert UsageOk(usage, history, k);
      HistoryTotal(history, Reserved(key, demand), k);
    }
  }

  lemma ReserveKeepsCommits(mutations: map<PublicationKey, Mutation>, history: seq<Event>, key: UsageKey, demand: Usage)
    requires CommitsOk(mutations, history)
    ensures CommitsOk(mutations, history + [Reserved(key, demand)])
  {
    forall k ensures CommittedOnce(mutations, history + [Reserved(key, demand)], k) {
      assert CommittedOnce(mutations, history, k);
      HistoryCommits(history, Reserved(key, demand), k);
    }
  }

  lemma ReserveKeepsUploads(uploads: map<Coordinate, UploadRow>, intents: map<PublicationKey, Intent>,
                            key: PublicationKey, i: Intent)
    requires UploadsOk(uploads, intents) && i.bundle.Valid() && key !in intents
    requires forall n :: 0 <= n < |i.bundle.artifacts| ==> i.bundle.artifacts[n].coordinate !in uploads
    ensures UploadsOk(uploads + UploadRows(key, i.bundle), intents[key := i])
  {
    var rows := UploadRows(key, i.bundle);
    UploadRowsAt(key, i.bundle);
    forall c | c in uploads + rows ensures RowOwned(uploads + rows, intents[key := i], c) {
      if c !in rows { assert RowOwned(uploads, intents, c); }
    }
    forall k | k in intents ensures HasRows(uploads + rows, k, intents[k].bundle) {
      ReserveKeepsOtherRows(uploads, rows, k, intents[k].bundle);
    }
    ReservedRows(uploads, rows, key, i.bundle);
  }

  lemma ReserveKeepsOtherRows(uploads: map<Coordinate, UploadRow>, rows: map<Coordinate, UploadRow>,
                              k: PublicationKey, bundle: Bundle)
    requires HasRows(uploads, k, bundle)
    requires forall c :: c in rows ==> c !in uploads
    ensures HasRows(uploads + rows, k, bundle)
  {
  }

  lemma ReservedRows(uploads: map<Coordinate, UploadRow>, rows: map<Coordinate, UploadRow>,
                     k: PublicationKey, bundle: Bundle)
    requires HasRows(rows, k, bundle)
    ensures HasRows(uploads + rows, k, bundle)
  {
  }

  lemma ReserveKeepsTables(t: Registry, key: PublicationKey, bundle: Bundle, result: PublishResult, now: int)
    requires TablesOk(t) && bundle.Valid() && Faithful(result, bundle) && CanReserve(t, key, bundle, Day(now))
    ensures TablesOk(Reserve(t, key, bundle, result, now)) && Advances(t, Reserve(t, key, bundle, result, now))
  {
    var u := Reserve(t, key, bundle, result, now);
    ReserveKeepsUsage(t.usage, t.history, UsageKey(key.githubUserId, Day(now)), Demand(bundle));
    ReserveKeepsCommits(t.mutations, t.history, UsageKey(key.githubUserId, Day(now)), Demand(bundle));
    ReserveKeepsUploads(t.uploads, t.intents, key, u.intents[key]);
    forall k | k in u.intents ensures IntentOk(u.intents[k], u.incarnations) && KeyAdvances(t, u, k) {
      if k != key { assert IntentOk(t.intents[k], t.incarnations); }
    }
  }

  // ---------------------------------------------------------------- commit

  lemma CommitKeepsContiguity(versions: map<Coordinate, Version>, bundle: Bundle)
    requires VersionsContiguous(versions) && bundle.Valid()
    requires Unpublished(versions, bundle)
    requires VersionsChecked(versions, bundle, |bundle.artifacts|)
    ensures VersionsContiguous(versions + VersionRows(bundle))
    ensures Extends(versions, versions + VersionRows(bundle))
  {
    forall c | c in versions + VersionRows(bundle) ensures HasPredecessor(versions + VersionRows(bundle), c) {
      if c !in versions {
        var i :| 0 <= i < |bundle.artifacts| && bundle.artifacts[i].coordinate == c;
        assert HasPredecessor(versions, bundle.artifacts[i].coordinate);
      } else {
        assert HasPredecessor(versions, c);
      }
    }
  }

  /** After the insert exactly the old rows and the bundle's artifacts are published. */
  lemma CommitPublishes(versions: map<Coordinate, Version>, bundle: Bundle, key: ObjectKey)
    requires bundle.Valid()
    requires Unpublished(versions, bundle)
    ensures Published(versions + VersionRows(bundle), key) <==> Published(versions, key) || Contains(bundle, key)
  {
    VersionRowsAt(bundle);
    if Contains(bundle, key) {
      var i :| 0 <= i < |bundle.artifacts| && bundle.artifacts[i].Key() == key;
      assert bundle.artifacts[i].coordinate in VersionRows(bundle);
    }
  }

  lemma CommitPublishesBundle(versions: map<Coordinate, Version>, bundle: Bundle)
    requires bundle.Valid()
    requires Unpublished(versions, bundle)
    ensures PublishedBundle(versions + VersionRows(bundle), bundle)
  {
    forall i | 0 <= i < |bundle.artifacts|
      ensures Published(versions + VersionRows(bundle), bundle.artifacts[i].Key())
    {
      CommitPublishes(versions, bundle, bundle.artifacts[i].Key());
    }
  }

  lemma CommitClosesDependency(versions: map<Coordinate, Version>, bundle: Bundle, d: Dependency)
    requires bundle.Valid()
    requires Unpublished(versions, bundle)
    requires DependencyMet(versions, bundle, d)
    ensures DependencyClosed(versions + VersionRows(bundle), DependencyKeyOf(bundle, d), DependencyRow(d.version, d.digest))
  {
    CommitPublishes(versions, bundle, ObjectKey(d.Skill(), d.digest));
    CommitPublishes(versions, bundle, bundle.artifacts[|bundle.artifacts| - 1].Key());
  }

  lemma CommitKeepsDependencies(t: Registry, bundle: Bundle)
    requires DependenciesClosed(t.dependencies, t.versions) && bundle.Valid()
    requires Unpublished(t.versions, bundle)
    requires DependenciesChecked(t.versions, bundle, |bundle.dependencies|)
    ensures DependenciesClosed(t.dependencies + DependencyRows(bundle), t.versions + VersionRows(bundle))
  {
    forall k | k in t.dependencies + DependencyRows(bundle)
      ensures DependencyClosed(t.versions + VersionRows(bundle), k, (t.dependencies + DependencyRows(bundle))[k])
    {
      if k in DependencyRows(bundle) {
        var d := DependencyAt(bundle, k);
        CommitClosesDependency(t.versions, bundle, d);
      } else {
        assert DependencyClosed(t.versions, k, t.dependencies[k]);
      }
    }
  }

  lemma CommitKeepsHistory(t: Registry, key: PublicationKey, m: Mutation)
    requires UsageConserved(t.usage, t.history) && CommitsOk(t.mutations, t.history)
    requires key !in t.mutations
    ensures UsageConserved(t.usage, t.history + [Committed(key)])
    ensures CommitsOk(t.mutations[key := m], t.history + [Committed(key)])
  {
    forall k ensures UsageOk(t.usage, t.history + [Committed(key)], k) {
      assert UsageOk(t.usage, t.history, k);
      HistoryTotal(t.history, Committed(key), k);
    }
    var mutations', history' := t.mutations[key := m], t.history + [Committed(key)];
    forall k ensures CommittedOnce(mutations', history', k) {
      assert CommittedOnce(t.mutations, t.history, k);
      HistoryCommits(t.history, Committed(key), k);
    }
  }

  lemma CommitKeepsMutations(t: Registry, key: PublicationKey, m: Mutation)
    requires MutationsOk(t.mutations, t.versions) && m.bundle.Valid() && Faithful(m.result, m.bundle)
    requires Unpublished(t.versions, m.bundle)
    ensures MutationsOk(t.mutations[key := m], t.versions + VersionRows(m.bundle))
  {
    var versions := t.versions + VersionRows(m.bundle);
    CommitPublishesBundle(t.versions, m.bundle);
    forall k | k in t.mutations ensures MutationOk(t.mutations[k], versions) {
      MutationStable(t.mutations[k], t.versions, versions);
    }
  }

  lemma MutationStable(m: Mutation, versions: map<Coordinate, Version>, versions': map<Coordinate, Version>)
    requires MutationOk(m, versions)
    requires forall c :: c in versions ==> c in versions' && versions'[c] == versions[c]
    ensures MutationOk(m, versions')
  {
    forall i | 0 <= i < |m.bundle.artifacts| ensures Published(versions', m.bundle.artifacts[i].Key()) {
      assert Published(versions, m.bundle.artifacts[i].Key());
    }
  }

  lemma PublishRowsKeepTables(t: Registry, key: PublicationKey, bundle: Bundle, result: PublishResult)
    requires TablesOk(t) && bundle.Valid() && Faithful(result, bundle)
    requires Unpublished(t.versions, bundle) && key !in t.mutations
    requires VersionsChecked(t.versions, bundle, |bundle.artifacts|)
    requires DependenciesChecked(t.versions, bundle, |bundle.dependencies|)
    ensures TablesOk(PublishRows(t, key, bundle, result))
  {
    CommitKeepsContiguity(t.versions, bundle);
    CommitKeepsDependencies(t, bundle);
    CommitKeepsHistory(t, key, Mutation(bundle, result));
    CommitKeepsMutations(t, key, Mutation(bundle, result));
  }

  lemma PublishRowsAdvance(t: Registry, key: PublicationKey, bundle: Bundle, result: PublishResult)
    requires IntentsOk(t.intents, t.incarnations) && CanCommit(t, key, bundle)
    ensures Advances(t, PublishRows(t, key, bundle, result))
  {
    DependencyRowsAreNew(t, key, bundle);
  }

  lemma CommitKeepsTables(t: Registry, key: PublicationKey, bundle: Bundle, result: PublishResult)
    requires TablesOk(t) && bundle.Valid() && Faithful(result, bundle) && CanCommit(t, key, bundle)
    requires VersionsChecked(t.versions, bundle, |bundle.artifacts|)
    requires DependenciesChecked(t.versions, bundle, |bundle.dependencies|)
    ensures TablesOk(Commit(t, key, bundle, result)) && Advances(t, Commit(t, key, bundle, result))
  {
    var published := PublishRows(t, key, bundle, result);
    PublishRowsKeepTables(t, key, bundle, result);
    PublishRowsAdvance(t, key, bundle, result);
    DeleteIntentKeepsTables(published, key);
    AdvancesTransitive(t, published, DeleteIntent(published, key));
  }

  lemma DependencyRowsAreNew(t: Registry, key: PublicationKey, bundle: Bundle)
    requires CanCommit(t, key, bundle)
    ensures Extends(t.dependencies, t.dependencies + DependencyRows(bundle))
  {
  }
}

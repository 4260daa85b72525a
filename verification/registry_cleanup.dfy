/**
 `cleanupExpiredPublishIntents` and the maintenance pass around it, over the statements of `RegistryService`.
 */
module RegistryCleanup {
  import opened Options
  import opened RegistryTables
  import opened RegistryRuns
  import opened RegistryService
  import opened RegistrySweep

  /** Deletes what the claimed intent stored and then the intent; any failure leaves the lease to expire. */
  method CleanClaimed(world: World, ghost id: nat, now: int, key: PublicationKey, ghost incarnation: nat, ghost rest: seq<Candidate>)
    returns (ok: bool)
    requires world.Passing(id, CleanerRun(now, ReadKeys(key, incarnation, rest)))
    modifies world
    ensures Leads(old(world.Now()), world.Now())
    ensures world.Passing(id, CleanerRun(now, Next(rest)))
    ensures ok ==> !Leased(world.registry, key, now)
  {
    hide Leads;
    var found := world.ReadObjectKeys(id, now, key, incarnation, rest);
    if found.None? { return false; }
    var keys := found.value;
    for i := 0 to |keys|
      invariant Leads(old(world.Now()), world.Now())
      invariant world.Passing(id, CleanerRun(now, DeleteKeys(key, incarnation, keys[i..], rest)))
    {
      assert keys[i..][1..] == keys[i + 1..] && keys[i..][0] == keys[i];
      ghost var u := world.Now();
      ok := world.DeletePackage(id, now, key, incarnation, keys[i..], rest);
      LeadsAcross(old(world.Now()), u, world.Now());
      if !ok { return false; }
    }
    ghost var u := world.Now();
    ok := world.Forget(id, now, key, incarnation, rest);
    LeadsAcross(old(world.Now()), u, world.Now());
  }

  /** The maximum a pass is given, kept between 1 and 25. */
  function Bounded(maximum: int): nat {
    if maximum > MAXIMUM_CLEANUPS then MAXIMUM_CLEANUPS else if maximum < 1 then 1 else maximum
  }

  /** What became of a candidate: a state in which it was settled, and one in which it was gone if it was counted. */
  datatype Fate = Fate(settled: System, deleted: Option<System>)

  ghost predicate Passed(start: System, u: System, end: System) {
    Leads(start, u) && Leads(u, end)
  }

  lemma StillPassed(start: System, u: System, end: System, later: System)
    requires Passed(start, u, end) && Leads(end, later)
    ensures Passed(start, u, later)
  {
    hide Leads;
    LeadsAcross(u, end, later);
  }

  ghost predicate Happened(start: System, end: System, c: Candidate, f: Fate, now: int) {
    && Passed(start, f.settled, end) && Settles(c, f.settled.registry, now)
    && (f.deleted.Some? ==> Passed(start, f.deleted.value, end) && !Leased(f.deleted.value.registry, c.key, now))
  }

  ghost predicate AllHappened(start: System, end: System, candidates: seq<Candidate>, fates: seq<Fate>, now: int) {
    && |fates| <= |candidates|
    && forall i :: 0 <= i < |fates| ==> Happened(start, end, candidates[i], fates[i], now)
  }

  function Counted(fates: seq<Fate>): nat {
    if fates == [] then 0
    else Counted(fates[..|fates| - 1]) + if fates[|fates| - 1].deleted.Some? then 1 else 0
  }

  lemma HappenedStays(start: System, end: System, later: System, candidates: seq<Candidate>, fates: seq<Fate>, now: int)
    requires AllHappened(start, end, candidates, fates, now) && Leads(end, later)
    ensures AllHappened(start, later, candidates, fates, now)
  {
    hide Leads, Passed;
    forall i | 0 <= i < |fates| ensures Happened(start, later, candidates[i], fates[i], now) {
      assert Happened(start, end, candidates[i], fates[i], now);
      StillPassed(start, fates[i].settled, end, later);
      if fates[i].deleted.Some? { StillPassed(start, fates[i].deleted.value, end, later); }
    }
  }

  lemma HappensNext(start: System, end: System, candidates: seq<Candidate>, fates: seq<Fate>, f: Fate, now: int)
    requires AllHappened(start, end, candidates, fates, now) && |fates| < |candidates|
    requires Happened(start, end, candidates[|fates|], f, now)
    ensures AllHappened(start, end, candidates, fates + [f], now)
    ensures Counted(fates + [f]) == Counted(fates) + if f.deleted.Some? then 1 else 0
  {
    hide Happened;
    assert (fates + [f])[..|fates|] == fates;
  }

  lemma NothingHappened(start: System, end: System, candidates: seq<Candidate>, now: int)
    ensures AllHappened(start, end, candidates, [], now) && Counted([]) == 0
  {
  }

  /** One candidate: quarantined, or claimed and then cleaned. */
  method HandleCandidate(world: World, ghost id: nat, now: int, candidates: seq<Candidate>)
    returns (counted: bool, ghost fate: Fate)
    requires world.Passing(id, CleanerRun(now, Next(candidates))) && candidates != []
    modifies world
    ensures Leads(old(world.Now()), world.Now())
    ensures world.Passing(id, CleanerRun(now, Next(candidates[1..])))
    ensures Happened(old(world.Now()), world.Now(), candidates[0], fate, now)
    ensures counted <==> fate.deleted.Some?
    ensures counted ==> !candidates[0].phase.Open()
  {
    hide Leads, Settles;
    counted := false;
    if candidates[0].phase.Open() {
      world.Quarantine(id, now, candidates);
      LeadsNowhere(world.Now());
      fate := Fate(world.Now(), None);
      return;
    }
    var claimed;
    ghost var incarnation;
    claimed, incarnation := world.ClaimForCleanup(id, now, candidates);
    ghost var u := world.Now();
    LeadsNowhere(u);
    fate := Fate(u, None);
    if claimed {
      counted := CleanClaimed(world, id, now, candidates[0].key, incarnation, candidates[1..]);
      LeadsAcross(old(world.Now()), u, world.Now());
      LeadsNowhere(world.Now());
      fate := Fate(u, if counted then Some(world.Now()) else None);
    }
  }

  /** What a pass has to show: the state it selected in, what it selected, and what became of each. */
  datatype Account = Account(selectedIn: System, candidates: seq<Candidate>, fates: seq<Fate>)

  ghost predicate Accounts(start: System, end: System, account: Account, now: int, limit: nat) {
    && Passed(start, account.selectedIn, end)
    && OldestExpired(account.selectedIn.registry, account.candidates, now, limit)
    && |account.fates| == |account.candidates|
    && AllHappened(start, end, account.candidates, account.fates, now)
  }

  /**
   Whatever the other runs do meanwhile, a pass is one run of the step machine. It selects the oldest expired
   intents, and none of them stays what it was selected for; it counts those it has deleted, or found deleted or
   taken over by another pass.
   */
  method CleanupExpiredPublishIntents(world: World, ghost id: nat, now: int, maximum: int)
    returns (cleaned: nat, ghost account: Account)
    requires world.Passing(id, CleanerRun(now, Select))
    modifies world
    ensures Leads(old(world.Now()), world.Now())
    ensures world.Passing(id, CleanerRun(now, Finished))
    ensures Accounts(old(world.Now()), world.Now(), account, now, Bounded(maximum))
    ensures cleaned == Counted(account.fates) <= Bounded(maximum)
  {
    hide Leads, AllHappened, Happened, OldestExpired, Counted;
    ghost var start := world.Now();
    var candidates := world.SelectCandidates(id, now, Bounded(maximum));
    ghost var selectedIn := world.Now();
    LeadsNowhere(selectedIn);
    ghost var fates := [];
    cleaned := 0;
    NothingHappened(start, selectedIn, candidates, now);
    for i := 0 to |candidates|
      invariant Leads(start, world.Now()) && Leads(selectedIn, world.Now())
      invariant world.Passing(id, CleanerRun(now, Next(candidates[i..])))
      invariant |fates| == i && AllHappened(start, world.Now(), candidates, fates, now)
      invariant cleaned == Counted(fates) <= i
    {
      assert candidates[i..][1..] == candidates[i + 1..] && candidates[i..][0] == candidates[i];
      ghost var u := world.Now();
      var counted;
      ghost var fate;
      counted, fate := HandleCandidate(world, id, now, candidates[i..]);
      LeadsAcross(start, u, world.Now());
      LeadsAcross(selectedIn, u, world.Now());
      HappenedStays(start, u, world.Now(), candidates, fates, now);
      HappenedSince(start, u, world.Now(), candidates[i], fate, now);
      HappensNext(start, world.Now(), candidates, fates, fate, now);
      fates := fates + [fate];
      if counted { cleaned := cleaned + 1; }
    }
    ghost var u := world.Now();
    assert candidates[|candidates|..] == [];
    world.EndPass(id, now);
    LeadsAcross(start, u, world.Now());
    LeadsAcross(selectedIn, u, world.Now());
    HappenedStays(start, u, world.Now(), candidates, fates, now);
    AtMost(selectedIn.registry, candidates, now, Bounded(maximum));
    account := Account(selectedIn, candidates, fates);
  }

  lemma AtMost(t: Registry, candidates: seq<Candidate>, now: int, limit: nat)
    requires OldestExpired(t, candidates, now, limit)
    ensures |candidates| <= limit
  {
  }

  lemma HappenedSince(start: System, u: System, end: System, c: Candidate, f: Fate, now: int)
    requires Leads(start, u) && Happened(u, end, c, f, now)
    ensures Happened(start, end, c, f, now)
  {
    hide Leads;
    LeadsAcross(start, u, f.settled);
    if f.deleted.Some? { LeadsAcross(start, u, f.deleted.value); }
  }

  /** The clock is read once, before anything is selected. */
  method RunRegistryMaintenance(world: World, ghost id: nat) returns (cleaned: nat)
    requires id !in world.cleaners
    modifies world
    ensures Leads(old(world.Now()), world.Now())
    ensures world.Passing(id, CleanerRun(old(world.registry.clock), Finished))
    ensures cleaned <= MAXIMUM_CLEANUPS
  {
    hide Leads;
    var now := world.registry.clock;
    world.BeginPass(id);
    ghost var u := world.Now();
    ghost var account;
    cleaned, account := CleanupExpiredPublishIntents(world, id, now, MAXIMUM_CLEANUPS);
    LeadsAcross(old(world.Now()), u, world.Now());
  }
}

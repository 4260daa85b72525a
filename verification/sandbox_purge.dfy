/**
 Destroying a sandbox and purging its storage, through crashes and redelivered alarms.

 The platform is taken to deliver an alarm until a handler completes, one delivery at a time, and to let no
 other event in while a storage operation is under way; only the wait for the container to stop lets
 events in. A crash ends every invocation and keeps the storage.
 */
module SandboxPurge {
  import opened Options

  const PURGE_PENDING := "crewhelm:purge-pending"
  const RETRY_DELAY: nat := 30_000

  datatype Storage = Storage(tables: set<string>, keys: set<string>, alarm: Option<nat>)

  predicate StartsWith(name: string, prefix: string) {
    |prefix| <= |name| && name[..|prefix|] == prefix
  }

  /** Tables of the database engine and of the platform, which a purge leaves alone. */
  predicate Reserved(name: string) {
    StartsWith(name, "sqlite_") || StartsWith(name, "_cf_")
  }

  function ApplicationTables(s: Storage): set<string> {
    set name | name in s.tables && !Reserved(name)
  }

  /** The first transaction of an attempt. */
  function Mark(s: Storage, now: nat): Storage {
    s.(keys := s.keys + {PURGE_PENDING}, alarm := Some(now + RETRY_DELAY))
  }

  /** The last transaction of an attempt. */
  function Clear(s: Storage, keys: set<string>): Storage {
    s.(keys := s.keys - keys, alarm := None)
  }

  /** Nothing of the application is left. */
  predicate Purged(s: Storage) {
    s.keys == {} && s.alarm.None? && forall name :: name in s.tables ==> Reserved(name)
  }

  // ---------------------------------------------------------------- the code, run to its end

  class SandboxStorage {
    var tables: set<string>
    var keys: set<string>
    var alarm: Option<nat>

    constructor (initial: Storage)
      ensures Now() == initial
    {
      tables, keys, alarm := initial.tables, initial.keys, initial.alarm;
    }

    function Now(): Storage
      reads this
    {
      Storage(tables, keys, alarm)
    }

    /** The query for table names; their order is up to the database. */
    method ListTables() returns (names: seq<string>)
      ensures forall name :: name in names <==> name in ApplicationTables(Now())
    {
      names := [];
      var left := ApplicationTables(Now());
      while left != {}
        invariant left <= ApplicationTables(Now())
        invariant forall name :: name in names <==> name in ApplicationTables(Now()) - left
      {
        var name :| name in left;
        names := names + [name];
        left := left - {name};
      }
    }

    method PurgeSandboxStorage()
      modifies this
      ensures Purged(Now()) && tables == old(tables) - ApplicationTables(old(Now()))
    {
      var names := ListTables();
      for i := 0 to |names|
        invariant keys == old(keys) && alarm == old(alarm)
        invariant tables == old(tables) - set n | n in names[..i]
      {
        tables := tables - {names[i]};
      }
      assert names[..|names|] == names;
      var listed := keys;
      keys := keys - listed;
      alarm := None;
    }

    /** `destroyed` tells whether stopping the container succeeded; if not, the attempt throws. */
    method DestroyAndPurge(now: nat, destroyed: bool) returns (completed: bool)
      modifies this
      ensures completed == destroyed
      ensures completed ==> Purged(Now()) && tables == old(tables) - ApplicationTables(old(Now()))
      ensures !completed ==> Now() == Mark(old(Now()), now)
    {
      keys := keys + {PURGE_PENDING};
      alarm := Some(now + RETRY_DELAY);
      if !destroyed { return false; }
      PurgeSandboxStorage();
      completed := true;
    }

    /** The alarm handler; `ordinary` tells that no purge is pending and the alarm is the container's own. */
    method Alarm(now: nat, destroyed: bool) returns (ordinary: bool, completed: bool)
      modifies this
      ensures ordinary <==> PURGE_PENDING !in old(keys)
      ensures ordinary ==> Now() == old(Now())
      ensures !ordinary && completed ==> Purged(Now())
      ensures !ordinary && !completed ==> Now() == Mark(old(Now()), now)
    {
      if PURGE_PENDING in keys {
        completed := DestroyAndPurge(now, destroyed);
        return false, completed;
      }
      return true, true;
    }
  }

  // ---------------------------------------------------------------- every interleaving

  /** Where an invocation is. */
  datatype Pc =
    | Destroying
    | Dropping(names: set<string>)
    | Clearing(keys: set<string>)

  datatype Invocation = Invocation(pc: Pc, byAlarm: bool)

  /** `delivering`: an alarm was taken off the schedule and its handler has not completed. */
  datatype Sandbox = Sandbox(
    storage: Storage,
    delivering: bool,
    invocations: map<nat, Invocation>,
    /** The invocation whose storage operations keep other events out. */
    gate: Option<nat>
  )

  datatype Label =
    | Request(id: nat, now: nat)
    | AlarmDue
    | Deliver(id: nat, now: nat)
    | Stopped(id: nat, tables: set<string>, keys: set<string>)
    | StopFails(id: nat)
    | Drop(id: nat, name: string)
    | ListKeys(id: nat)
    | Finish(id: nat)
    | Crash
    | Work(tables: set<string>, keys: set<string>, alarm: Option<nat>)

  predicate HandlerRuns(s: Sandbox) {
    exists id :: id in s.invocations && s.invocations[id].byAlarm
  }

  /** With `gated` false, events come in at any time. */
  predicate Enabled(gated: bool, s: Sandbox, l: Label) {
    match l
    case Request(id, _) => (gated ==> s.gate.None?) && id !in s.invocations
    case AlarmDue => (gated ==> s.gate.None?) && s.storage.alarm.Some? && !s.delivering
    case Deliver(id, _) => (gated ==> s.gate.None?) && id !in s.invocations && s.delivering && !HandlerRuns(s)
    case Stopped(id, _, keys) =>
      && (gated ==> s.gate.None?) && id in s.invocations && s.invocations[id].pc.Destroying?
      && (PURGE_PENDING in keys <==> PURGE_PENDING in s.storage.keys)
    case StopFails(id) => (gated ==> s.gate.None?) && id in s.invocations && s.invocations[id].pc.Destroying?
    case Drop(id, name) =>
      (gated ==> s.gate == Some(id)) && id in s.invocations && s.invocations[id].pc.Dropping? && name in s.invocations[id].pc.names
    case ListKeys(id) =>
      (gated ==> s.gate == Some(id)) && id in s.invocations && s.invocations[id].pc.Dropping? && s.invocations[id].pc.names == {}
    case Finish(id) => (gated ==> s.gate == Some(id)) && id in s.invocations && s.invocations[id].pc.Clearing?
    case Crash => true
    // The sandbox's own work writes what it likes, but not the flag, and clears no alarm while the flag is set.
    case Work(_, keys, alarm) =>
      && (gated ==> s.gate.None?)
      && (PURGE_PENDING in keys <==> PURGE_PENDING in s.storage.keys)
      && (PURGE_PENDING in keys ==> alarm.Some? || alarm == s.storage.alarm)
  }

  function Step(s: Sandbox, l: Label): Sandbox
    requires Enabled(false, s, l)
  {
    match l
    case Request(id, now) =>
      s.(storage := Mark(s.storage, now), invocations := s.invocations[id := Invocation(Destroying, false)])
    case AlarmDue => s.(storage := s.storage.(alarm := None), delivering := true)
    case Deliver(id, now) =>
      if PURGE_PENDING in s.storage.keys
      then s.(storage := Mark(s.storage, now), invocations := s.invocations[id := Invocation(Destroying, true)])
      else s.(delivering := false)
    case Stopped(id, tables, keys) =>
      var storage := s.storage.(tables := tables, keys := keys);
      s.(storage := storage, gate := Some(id),
         invocations := s.invocations[id := s.invocations[id].(pc := Dropping(ApplicationTables(storage)))])
    case StopFails(id) => s.(invocations := s.invocations - {id})
    case Drop(id, name) =>
      s.(storage := s.storage.(tables := s.storage.tables - {name}),
         invocations := s.invocations[id := s.invocations[id].(pc := Dropping(s.invocations[id].pc.names - {name}))])
    case ListKeys(id) => s.(invocations := s.invocations[id := s.invocations[id].(pc := Clearing(s.storage.keys))])
    case Finish(id) =>
      s.(storage := Clear(s.storage, s.invocations[id].pc.keys), gate := None,
         delivering := s.delivering && !s.invocations[id].byAlarm, invocations := s.invocations - {id})
    case Crash => s.(invocations := map[], gate := None)
    case Work(tables, keys, alarm) => s.(storage := Storage(tables, keys, alarm))
  }

  predicate Executable(gated: bool, s: Sandbox, labels: seq<Label>)
    decreases |labels|
  {
    labels == [] || (Enabled(gated, s, labels[0]) && Executable(gated, Step(s, labels[0]), labels[1..]))
  }

  function Run(gated: bool, s: Sandbox, labels: seq<Label>): Sandbox
    requires Executable(gated, s, labels)
    decreases |labels|
  {
    if labels == [] then s else Run(gated, Step(s, labels[0]), labels[1..])
  }

  // ---------------------------------------------------------------- what every step keeps

  /** A pending purge will be taken up again: an alarm is scheduled, or a delivery is outstanding. */
  predicate PurgeIsScheduled(s: Sandbox) {
    PURGE_PENDING in s.storage.keys ==> s.storage.alarm.Some? || s.delivering
  }

  ghost predicate Sound(s: Sandbox) {
    && PurgeIsScheduled(s)
    && (forall id :: id in s.invocations && s.invocations[id].byAlarm ==> s.delivering)
    && (forall id :: id in s.invocations && !s.invocations[id].pc.Destroying? ==> s.gate == Some(id))
    && (s.gate.Some? ==> s.gate.value in s.invocations && AtTheGate(s.storage, s.invocations[s.gate.value].pc))
  }

  ghost predicate AtTheGate(storage: Storage, pc: Pc) {
    match pc
    case Destroying => false
    case Dropping(names) => ApplicationTables(storage) == names
    case Clearing(keys) => ApplicationTables(storage) == {} && keys == storage.keys
  }

  /** At most one alarm delivery is handled at a time. */
  ghost predicate OneHandler(s: Sandbox) {
    forall i, j :: i in s.invocations && j in s.invocations && s.invocations[i].byAlarm && s.invocations[j].byAlarm ==> i == j
  }

  /** A sandbox nobody has asked to purge. */
  function Fresh(storage: Storage): Sandbox { Sandbox(storage, false, map[], None) }

  lemma FreshIsSound(storage: Storage)
    requires PURGE_PENDING !in storage.keys
    ensures Sound(Fresh(storage)) && OneHandler(Fresh(storage))
  {
  }

  lemma StepKeepsSound(s: Sandbox, l: Label)
    requires Sound(s) && OneHandler(s) && Enabled(true, s, l)
    ensures Sound(Step(s, l)) && OneHandler(Step(s, l))
  {
  }

  /** Across any crashes, redeliveries and concurrent requests a pending purge stays scheduled. */
  lemma {:induction false} RunKeepsSound(s: Sandbox, labels: seq<Label>)
    requires Sound(s) && OneHandler(s) && Executable(true, s, labels)
    ensures Sound(Run(true, s, labels)) && OneHandler(Run(true, s, labels))
    decreases |labels|
  {
    if labels != [] {
      StepKeepsSound(s, labels[0]);
      RunKeepsSound(Step(s, labels[0]), labels[1..]);
    }
  }

  /** The step that completes an attempt leaves nothing of the application behind. */
  lemma FinishPurges(s: Sandbox, id: nat)
    requires Sound(s) && Enabled(true, s, Finish(id))
    ensures Purged(Step(s, Finish(id)).storage)
  {
    assert forall name :: name in s.storage.tables && !Reserved(name) ==> name in ApplicationTables(s.storage);
  }

  // ---------------------------------------------------------------- a pending purge can always be completed

  /** Neither a crash nor a failure to stop the container. */
  predicate Smooth(labels: seq<Label>) {
    forall i :: 0 <= i < |labels| ==> !labels[i].Crash? && !labels[i].StopFails?
  }

  ghost predicate Completes(s: Sandbox, labels: seq<Label>) {
    Executable(true, s, labels) && Smooth(labels) && Purged(Run(true, s, labels).storage)
  }

  lemma Prepend(s: Sandbox, l: Label, labels: seq<Label>)
    requires Enabled(true, s, l) && !l.Crash? && !l.StopFails? && Completes(Step(s, l), labels)
    ensures Completes(s, [l] + labels)
  {
    assert ([l] + labels)[0] == l && ([l] + labels)[1..] == labels;
  }

  lemma {:induction false} CompleteAtTheGate(s: Sandbox, id: nat) returns (labels: seq<Label>)
    requires Sound(s) && OneHandler(s) && s.gate == Some(id)
    ensures Completes(s, labels) && |labels| <= |ApplicationTables(s.storage)| + 2
    decreases |ApplicationTables(s.storage)|, if s.invocations[id].pc.Clearing? then 0 else 1
  {
    var l: Label;
    if s.invocations[id].pc.Clearing? {
      FinishPurges(s, id);
      l, labels := Finish(id), [];
    } else if s.invocations[id].pc.names == {} {
      l := ListKeys(id);
      StepKeepsSound(s, l);
      FinishPurges(Step(s, l), id);
      assert Completes(Step(Step(s, l), Finish(id)), []);
      Prepend(Step(s, l), Finish(id), []);
      labels := [Finish(id)];
      assert [Finish(id)] + [] == [Finish(id)];
    } else {
      var name :| name in s.invocations[id].pc.names;
      l := Drop(id, name);
      StepKeepsSound(s, l);
      assert ApplicationTables(Step(s, l).storage) == ApplicationTables(s.storage) - {name};
      labels := CompleteAtTheGate(Step(s, l), id);
    }
    Prepend(s, l, labels);
    labels := [l] + labels;
  }

  /** With a bounded number of steps that neither crash nor fail, a pending purge completes. */
  lemma PendingPurgeCompletes(s: Sandbox) returns (labels: seq<Label>)
    requires Sound(s) && OneHandler(s) && PURGE_PENDING in s.storage.keys
    ensures Completes(s, labels) && |labels| <= |ApplicationTables(s.storage)| + 5
  {
    if s.gate.Some? {
      labels := CompleteAtTheGate(s, s.gate.value);
    } else if id :| id in s.invocations {
      labels := CompleteStopping(s, id);
    } else if s.delivering {
      labels := CompleteDelivery(s);
    } else {
      StepKeepsSound(s, AlarmDue);
      labels := CompleteDelivery(Step(s, AlarmDue));
      Prepend(s, AlarmDue, labels);
      labels := [AlarmDue] + labels;
    }
  }

  lemma CompleteStopping(s: Sandbox, id: nat) returns (labels: seq<Label>)
    requires Sound(s) && OneHandler(s) && s.gate.None? && id in s.invocations
    ensures Completes(s, labels) && |labels| <= |ApplicationTables(s.storage)| + 3
  {
    var l := Stopped(id, s.storage.tables, s.storage.keys);
    StepKeepsSound(s, l);
    labels := CompleteAtTheGate(Step(s, l), id);
    Prepend(s, l, labels);
    labels := [l] + labels;
  }

  lemma CompleteDelivery(s: Sandbox) returns (labels: seq<Label>)
    requires Sound(s) && OneHandler(s) && s.gate.None? && s.invocations == map[] && s.delivering
    requires PURGE_PENDING in s.storage.keys
    ensures Completes(s, labels) && |labels| <= |ApplicationTables(s.storage)| + 4
  {
    var l := Deliver(0, 0);
    StepKeepsSound(s, l);
    labels := CompleteStopping(Step(s, l), 0);
    Prepend(s, l, labels);
    labels := [l] + labels;
  }
}

/**
 Every way of carrying on without crash or failure purges: a rank that each step lowers.
 */
module SandboxProgress {
  import opened Options
  import opened SandboxPurge

  /** A step that carries an attempt on: neither a crash, a failure, a new request nor other work. */
  predicate CarriesOn(l: Label) {
    l.AlarmDue? || l.Deliver? || l.Stopped? || l.Drop? || l.ListKeys? || l.Finish?
  }

  ghost predicate AllCarryOn(labels: seq<Label>) {
    forall i :: 0 <= i < |labels| ==> CarriesOn(labels[i])
  }

  predicate Flagged(s: Sandbox) { PURGE_PENDING in s.storage.keys }

  // ---------------------------------------------------------------- the rank

  /** What is still owed by the alarm: while a purge is pending its firing and its handler, otherwise its firing. */
  function Owed(s: Sandbox): nat {
    if Flagged(s) then if !s.delivering then 2 else if HandlerRuns(s) then 0 else 1
    else if s.storage.alarm.Some? then 1 else 0
  }

  /** A delivery that finds no purge pending only ends. */
  function Idle(s: Sandbox): nat {
    if !Flagged(s) && s.delivering then 1 else 0
  }

  function Waiting(s: Sandbox): set<nat> {
    set id | id in s.invocations && s.invocations[id].pc.Destroying?
  }

  /** The storage operations left to the invocation that keeps other events out. */
  function AtGate(s: Sandbox): nat {
    if s.gate.None? || s.gate.value !in s.invocations then 0
    else match s.invocations[s.gate.value].pc
         case Destroying => 0
         case Dropping(names) => 2 + |names|
         case Clearing(_) => 1
  }

  /** Pending purges first, then the alarm, then its delivery, then waiting invocations, then work at the gate. */
  ghost predicate Lower(u: Sandbox, s: Sandbox) {
    (Flagged(s), Owed(s), Idle(s), |Waiting(s)|, AtGate(s)
     decreases to Flagged(u), Owed(u), Idle(u), |Waiting(u)|, AtGate(u))
  }

  lemma WaitingWithout(s: Sandbox, u: Sandbox, id: nat)
    requires id in Waiting(s) && Waiting(u) == Waiting(s) - {id}
    ensures |Waiting(u)| < |Waiting(s)|
  {
  }

  lemma HandlerStays(s: Sandbox, l: Label)
    requires Enabled(true, s, l) && (l.Stopped? || l.Drop? || l.ListKeys?)
    ensures HandlerRuns(Step(s, l)) <==> HandlerRuns(s)
  {
    var u := Step(s, l);
    assert u.invocations.Keys == s.invocations.Keys;
    assert forall id :: id in s.invocations ==> u.invocations[id].byAlarm == s.invocations[id].byAlarm;
    if id :| id in s.invocations && s.invocations[id].byAlarm { assert u.invocations[id].byAlarm; }
    if id :| id in u.invocations && u.invocations[id].byAlarm { assert s.invocations[id].byAlarm; }
  }

  lemma WorkKeepsOwed(s: Sandbox, l: Label)
    requires Enabled(true, s, l) && (l.Stopped? || l.Drop? || l.ListKeys?)
    ensures Flagged(Step(s, l)) == Flagged(s) && Owed(Step(s, l)) == Owed(s) && Idle(Step(s, l)) == Idle(s)
  {
    HandlerStays(s, l);
    hide HandlerRuns;
  }

  lemma StoppedLowers(s: Sandbox, l: Label)
    requires Enabled(true, s, l) && l.Stopped?
    ensures Lower(Step(s, l), s)
  {
    WorkKeepsOwed(s, l);
    hide Owed, Idle, Flagged;
    assert Waiting(Step(s, l)) == Waiting(s) - {l.id};
    WaitingWithout(s, Step(s, l), l.id);
  }

  lemma GateLowers(s: Sandbox, l: Label)
    requires Enabled(true, s, l) && (l.Drop? || l.ListKeys?)
    ensures Lower(Step(s, l), s)
  {
    WorkKeepsOwed(s, l);
    hide Owed, Idle, Flagged;
    assert Waiting(Step(s, l)) == Waiting(s);
  }

  lemma FinishLowers(s: Sandbox, id: nat)
    requires Sound(s) && Enabled(true, s, Finish(id))
    ensures Lower(Step(s, Finish(id)), s)
  {
    assert Waiting(Step(s, Finish(id))) == Waiting(s);
  }

  lemma AlarmLowers(s: Sandbox, l: Label)
    requires Sound(s) && Enabled(true, s, l) && (l.AlarmDue? || l.Deliver?)
    ensures Lower(Step(s, l), s)
  {
    if l.Deliver? && Flagged(s) { assert Step(s, l).invocations[l.id].byAlarm; }
  }

  /** Every step that carries on lowers the rank. */
  lemma StepLowers(s: Sandbox, l: Label)
    requires Sound(s) && Enabled(true, s, l) && CarriesOn(l)
    ensures Lower(Step(s, l), s)
  {
    hide Lower, Sound, Step, Enabled;
    if l.AlarmDue? || l.Deliver? {
      AlarmLowers(s, l);
    } else if l.Finish? {
      FinishLowers(s, l.id);
    } else if l.Stopped? {
      StoppedLowers(s, l);
    } else {
      GateLowers(s, l);
    }
  }

  lemma GateCarriesOn(s: Sandbox) returns (l: Label)
    requires Sound(s) && s.gate.Some?
    ensures CarriesOn(l) && Enabled(true, s, l)
  {
    var id := s.gate.value;
    if s.invocations[id].pc.Clearing? {
      l := Finish(id);
    } else if name :| name in s.invocations[id].pc.names {
      l := Drop(id, name);
    } else {
      l := ListKeys(id);
    }
  }

  /** While a purge is pending some step carries on. */
  lemma SomeStepCarriesOn(s: Sandbox) returns (l: Label)
    requires Sound(s) && Flagged(s)
    ensures CarriesOn(l) && Enabled(true, s, l)
  {
    if s.gate.Some? {
      l := GateCarriesOn(s);
    } else if id :| id in s.invocations {
      l := Stopped(id, s.storage.tables, s.storage.keys);
    } else if s.delivering {
      l := Deliver(0, 0);
    } else {
      l := AlarmDue;
    }
  }

  // ---------------------------------------------------------------- every smooth run

  ghost predicate CarriedOn(s: Sandbox, u: Sandbox) {
    exists l :: CarriesOn(l) && Enabled(true, s, l) && u == Step(s, l)
  }

  /** No run carries on for ever: every endless sequence of states breaks off somewhere. */
  lemma {:induction false} SmoothRunsEnd(run: nat -> Sandbox, n: nat)
    requires Sound(run(n)) && OneHandler(run(n))
    ensures exists k :: k >= n && !CarriedOn(run(k), run(k + 1))
    decreases Flagged(run(n)), Owed(run(n)), Idle(run(n)), |Waiting(run(n))|, AtGate(run(n))
  {
    if CarriedOn(run(n), run(n + 1)) {
      var l :| CarriesOn(l) && Enabled(true, run(n), l) && run(n + 1) == Step(run(n), l);
      StepLowers(run(n), l);
      StepKeepsSound(run(n), l);
      hide Step, Enabled, Sound, OneHandler;
      SmoothRunsEnd(run, n + 1);
    }
  }

  ghost predicate AtRest(s: Sandbox) {
    forall l :: CarriesOn(l) ==> !Enabled(true, s, l)
  }

  /** After a purge the storage stays purged, except while another invocation works at the gate. */
  ghost predicate Cleaned(s: Sandbox) {
    !Flagged(s) && (s.gate.None? ==> Purged(s.storage))
  }

  lemma StepKeepsCleaned(s: Sandbox, l: Label)
    requires Sound(s) && Enabled(true, s, l) && CarriesOn(l) && (Cleaned(s) || l.Finish?)
    ensures Cleaned(Step(s, l))
  {
    if l.Finish? { FinishPurges(s, l.id); }
  }

  lemma {:induction false} RunEndsCleaned(s: Sandbox, labels: seq<Label>)
    requires Sound(s) && OneHandler(s) && (Flagged(s) || Cleaned(s))
    requires Executable(true, s, labels) && AllCarryOn(labels)
    ensures var u := Run(true, s, labels); Sound(u) && OneHandler(u) && (Flagged(u) || Cleaned(u))
    decreases |labels|
  {
    if labels != [] {
      StepKeepsSound(s, labels[0]);
      if Cleaned(s) || labels[0].Finish? { StepKeepsCleaned(s, labels[0]); }
      RunEndsCleaned(Step(s, labels[0]), labels[1..]);
    }
  }

  /** A run that carries on as long as it can ends with the storage purged. */
  lemma MaximalRunsPurge(s: Sandbox, labels: seq<Label>)
    requires Sound(s) && OneHandler(s) && Flagged(s)
    requires Executable(true, s, labels) && AllCarryOn(labels) && AtRest(Run(true, s, labels))
    ensures Purged(Run(true, s, labels).storage)
  {
    RunEndsCleaned(s, labels);
    var u := Run(true, s, labels);
    if Flagged(u) { var l := SomeStepCarriesOn(u); }
    if u.gate.Some? { var l := GateCarriesOn(u); }
  }

  /**
   Whatever crashes, failures, requests and other work a sandbox has been through, a purge pending after them
   is completed by every run that then carries on as long as it can.
   */
  lemma PurgeSurvivesDisturbance(storage: Storage, disturbed: seq<Label>, smooth: seq<Label>)
    requires PURGE_PENDING !in storage.keys && Executable(true, Fresh(storage), disturbed)
    requires
      var s := Run(true, Fresh(storage), disturbed);
      Flagged(s) && Executable(true, s, smooth) && AllCarryOn(smooth) && AtRest(Run(true, s, smooth))
    ensures Purged(Run(true, Run(true, Fresh(storage), disturbed), smooth).storage)
  {
    FreshIsSound(storage);
    RunKeepsSound(Fresh(storage), disturbed);
    MaximalRunsPurge(Run(true, Fresh(storage), disturbed), smooth);
  }
}

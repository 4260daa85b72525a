/**
 What keeping other events out during storage operations is for: without it, a run that forgets a purge.
 */
module SandboxGate {
  import opened Options
  import opened SandboxPurge

  const UNTOUCHED := Sandbox(Storage({}, {}, None), false, map[], None)

  /** One attempt lists the keys after another has cleared them, and clears the alarm of a third. */
  const OVERLAP := [
    Request(0, 0), Request(1, 0), Stopped(0, {}, {PURGE_PENDING}), ListKeys(0), Finish(0),
    Stopped(1, {}, {}), ListKeys(1), Request(2, 0), Finish(1), Crash]

  const WAITING := Invocation(Destroying, false)
  const SET := Storage({}, {PURGE_PENDING}, Some(RETRY_DELAY))
  const GONE := Storage({}, {}, None)

  const STATES := [
    UNTOUCHED,
    Sandbox(SET, false, map[0 := WAITING], None),
    Sandbox(SET, false, map[0 := WAITING, 1 := WAITING], None),
    Sandbox(SET, false, map[0 := Invocation(Dropping({}), false), 1 := WAITING], Some(0)),
    Sandbox(SET, false, map[0 := Invocation(Clearing({PURGE_PENDING}), false), 1 := WAITING], Some(0)),
    Sandbox(GONE, false, map[1 := WAITING], None),
    Sandbox(GONE, false, map[1 := Invocation(Dropping({}), false)], Some(1)),
    Sandbox(GONE, false, map[1 := Invocation(Clearing({}), false)], Some(1)),
    Sandbox(SET, false, map[1 := Invocation(Clearing({}), false), 2 := WAITING], Some(1)),
    Sandbox(Storage({}, {PURGE_PENDING}, None), false, map[2 := WAITING], None),
    Sandbox(Storage({}, {PURGE_PENDING}, None), false, map[], None)]

  lemma FirstHalf(n: nat)
    requires n < 5
    ensures Enabled(false, STATES[n], OVERLAP[n]) && Step(STATES[n], OVERLAP[n]) == STATES[n + 1]
  {
    assert ApplicationTables(SET) == {};
  }

  lemma SecondHalf(n: nat)
    requires 5 <= n < 10
    ensures Enabled(false, STATES[n], OVERLAP[n]) && Step(STATES[n], OVERLAP[n]) == STATES[n + 1]
  {
    assert ApplicationTables(GONE) == {};
  }

  lemma {:induction false} OverlapRuns(n: nat)
    requires n <= 10
    ensures Executable(false, STATES[n], OVERLAP[n..]) && Run(false, STATES[n], OVERLAP[n..]) == STATES[10]
    decreases 10 - n
  {
    if n < 10 {
      if n < 5 { FirstHalf(n); } else { SecondHalf(n); }
      OverlapRuns(n + 1);
      assert OVERLAP[n..][0] == OVERLAP[n] && OVERLAP[n..][1..] == OVERLAP[n + 1..];
    }
  }

  /** If other events came in during storage operations, a pending purge could be forgotten. */
  lemma GateIsNeeded()
    ensures Executable(false, UNTOUCHED, OVERLAP)
    ensures !PurgeIsScheduled(Run(false, UNTOUCHED, OVERLAP))
    ensures Run(false, UNTOUCHED, OVERLAP).invocations == map[]
  {
    OverlapRuns(0);
    assert OVERLAP[0..] == OVERLAP;
  }
}

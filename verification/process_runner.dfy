/**
 Settling the promise of a child process: output, timers, errors and the close event may come in any order.
 */
module ProcessRunner {
  import opened Options

  type Byte = b: int | 0 <= b < 0x100

  type Chunk = seq<Byte>

  const MAXIMUM_OUTPUT := 1_048_576

  datatype Signal = SigTerm | SigKill

  datatype Error = NotStarted | TimedOut | OutputExceeded | Unconfirmed(cause: Error)

  datatype Exit = Exit(code: int, completed: bool, stdout: Chunk, stderr: Chunk)

  datatype Promise = Pending | Resolved(exit: Exit) | Rejected(error: Error)

  datatype Event =
    | Stdout(chunk: Chunk)
    | Stderr(chunk: Chunk)
    | TimeoutFires
    | EscalationFires
    | DeadlineFires
    | ChildError
    | Close(code: Option<int>)

  /** A captured stream: its chunks and the count kept beside them. */
  datatype Capture = Capture(chunks: seq<Chunk>, size: nat)

  datatype State = State(
    promise: Promise,
    unknownOutcome: bool,
    stdout: Capture,
    stderr: Capture,
    timeout: bool,
    escalation: bool,
    deadline: Option<Error>,
    signals: seq<Signal>
  )

  const START := State(Pending, false, Capture([], 0), Capture([], 0), true, false, None, [])

  // ---------------------------------------------------------------- one event

  function Concat(chunks: seq<Chunk>): Chunk {
    if chunks == [] then [] else Concat(chunks[..|chunks| - 1]) + chunks[|chunks| - 1]
  }

  predicate Fits(capture: Capture, chunk: Chunk) { capture.size + |chunk| <= MAXIMUM_OUTPUT }

  function Append(capture: Capture, chunk: Chunk): Capture {
    if Fits(capture, chunk) then Capture(capture.chunks + [chunk], capture.size + |chunk|) else capture
  }

  function Settle(s: State, promise: Promise): State {
    if s.promise.Pending? then s.(promise := promise, timeout := false, escalation := false, deadline := None) else s
  }

  function Terminate(s: State, error: Error): State {
    if !s.promise.Pending? || s.unknownOutcome then s
    else s.(unknownOutcome := true, signals := s.signals + [SigTerm], escalation := true, deadline := Some(error))
  }

  /** What the handlers make of an event; a timer that is not armed does not fire. */
  function Step(s: State, e: Event): State {
    match e
    case Stdout(chunk) =>
      if Fits(s.stdout, chunk) then s.(stdout := Append(s.stdout, chunk)) else Terminate(s, OutputExceeded)
    case Stderr(chunk) =>
      if Fits(s.stderr, chunk) then s.(stderr := Append(s.stderr, chunk)) else Terminate(s, OutputExceeded)
    case TimeoutFires => if s.timeout then Terminate(s.(timeout := false), TimedOut) else s
    case EscalationFires => if s.escalation then s.(escalation := false, signals := s.signals + [SigKill]) else s
    case DeadlineFires =>
      if s.deadline.Some? then Settle(s.(deadline := None), Rejected(Unconfirmed(s.deadline.value))) else s
    case ChildError => Settle(s, Rejected(NotStarted))
    case Close(code) =>
      Settle(s, Resolved(Exit(
        if code.Some? then code.value else 1,
        !s.unknownOutcome,
        Concat(s.stdout.chunks),
        Concat(s.stderr.chunks))))
  }

  function Run(s: State, events: seq<Event>): State
    decreases |events|
  {
    if events == [] then s else Step(Run(s, events[..|events| - 1]), events[|events| - 1])
  }

  // ---------------------------------------------------------------- the handlers

  class Runner {
    var promise: Promise
    var settled: bool
    var unknownOutcome: bool
    var stdout: seq<Chunk>
    var stdoutSize: nat
    var stderr: seq<Chunk>
    var stderrSize: nat
    var timeout: bool
    var escalation: bool
    var deadline: Option<Error>
    var signals: seq<Signal>

    ghost predicate Valid()
      reads this
    {
      settled <==> !promise.Pending?
    }

    ghost function Now(): State
      reads this
    {
      State(promise, unknownOutcome, Capture(stdout, stdoutSize), Capture(stderr, stderrSize),
            timeout, escalation, deadline, signals)
    }

    constructor ()
      ensures Valid() && Now() == START
    {
      promise, settled, unknownOutcome := Pending, false, false;
      stdout, stdoutSize, stderr, stderrSize := [], 0, [], 0;
      timeout, escalation, deadline, signals := true, false, None, [];
    }

    method ClearTimers()
      modifies `timeout, `escalation, `deadline
      ensures !timeout && !escalation && deadline == None
    {
      timeout, escalation, deadline := false, false, None;
    }

    method FinishWithError(error: Error)
      requires Valid()
      modifies this
      ensures Valid() && Now() == Settle(old(Now()), Rejected(error))
    {
      if settled { return; }
      settled := true;
      ClearTimers();
      promise := Rejected(error);
    }

    method TerminateChild(error: Error)
      requires Valid()
      modifies this
      ensures Valid() && Now() == Terminate(old(Now()), error)
    {
      if settled || unknownOutcome { return; }
      unknownOutcome := true;
      signals := signals + [SigTerm];
      escalation := true;
      deadline := Some(error);
    }

    method OnStdout(chunk: Chunk)
      requires Valid()
      modifies this
      ensures Valid() && Now() == Step(old(Now()), Stdout(chunk))
    {
      var nextSize := stdoutSize + |chunk|;
      if nextSize > MAXIMUM_OUTPUT {
        TerminateChild(OutputExceeded);
      } else {
        stdout := stdout + [chunk];
        stdoutSize := nextSize;
      }
    }

    method OnStderr(chunk: Chunk)
      requires Valid()
      modifies this
      ensures Valid() && Now() == Step(old(Now()), Stderr(chunk))
    {
      var nextSize := stderrSize + |chunk|;
      if nextSize > MAXIMUM_OUTPUT {
        TerminateChild(OutputExceeded);
      } else {
        stderr := stderr + [chunk];
        stderrSize := nextSize;
      }
    }

    method OnTimeout()
      requires Valid() && timeout
      modifies this
      ensures Valid() && Now() == Step(old(Now()), TimeoutFires)
    {
      timeout := false;
      TerminateChild(TimedOut);
    }

    method OnEscalation()
      requires Valid() && escalation
      modifies this
      ensures Valid() && Now() == Step(old(Now()), EscalationFires)
    {
      escalation := false;
      signals := signals + [SigKill];
    }

    method OnDeadline()
      requires Valid() && deadline.Some?
      modifies this
      ensures Valid() && Now() == Step(old(Now()), DeadlineFires)
    {
      var error := deadline.value;
      deadline := None;
      FinishWithError(Unconfirmed(error));
    }

    method OnError()
      requires Valid()
      modifies this
      ensures Valid() && Now() == Step(old(Now()), ChildError)
    {
      FinishWithError(NotStarted);
    }

    method OnClose(code: Option<int>)
      requires Valid()
      modifies this
      ensures Valid() && Now() == Step(old(Now()), Close(code))
    {
      if settled { return; }
      settled := true;
      ClearTimers();
      promise := Resolved(Exit(
        if code.Some? then code.value else 1, !unknownOutcome, Concat(stdout), Concat(stderr)));
    }
  }

  // ---------------------------------------------------------------- every run

  ghost predicate Bounded(capture: Capture) {
    capture.size == |Concat(capture.chunks)| <= MAXIMUM_OUTPUT
  }

  /** Signals are sent in order, each at most once, and only once termination was requested. */
  ghost predicate SignalsInOrder(s: State) {
    && (s.signals == [] || s.signals == [SigTerm] || s.signals == [SigTerm, SigKill])
    && (s.signals == [] <==> !s.unknownOutcome)
    && (s.escalation ==> s.signals == [SigTerm])
  }

  /** While the promise is pending a timer that ends the wait is armed; afterwards none is. */
  ghost predicate TimersMatch(s: State) {
    && (s.promise.Pending? ==> if s.unknownOutcome then s.deadline.Some? else s.timeout)
    && (!s.promise.Pending? ==> !s.timeout && !s.escalation && s.deadline.None?)
  }

  ghost predicate Sound(s: State) {
    Bounded(s.stdout) && Bounded(s.stderr) && SignalsInOrder(s) && TimersMatch(s)
  }

  lemma AppendBounds(capture: Capture, chunk: Chunk)
    requires Bounded(capture)
    ensures Bounded(Append(capture, chunk))
  {
    if Fits(capture, chunk) {
      assert (capture.chunks + [chunk])[..|capture.chunks|] == capture.chunks;
    }
  }

  lemma StepIsSound(s: State, e: Event)
    requires Sound(s)
    ensures Sound(Step(s, e))
  {
    if e.Stdout? { AppendBounds(s.stdout, e.chunk); }
    if e.Stderr? { AppendBounds(s.stderr, e.chunk); }
  }

  /** In every run: bounded captures, ordered signals, and a timer that ends the wait. */
  lemma {:induction false} RunIsSound(events: seq<Event>)
    ensures Sound(Run(START, events))
    decreases |events|
  {
    if events == [] {
      assert Concat([]) == [];
    } else {
      RunIsSound(events[..|events| - 1]);
      StepIsSound(Run(START, events[..|events| - 1]), events[|events| - 1]);
    }
  }

  /** The promise settles at most once: no later event changes it. */
  lemma {:induction false} SettledForGood(s: State, events: seq<Event>)
    requires !s.promise.Pending?
    ensures Run(s, events).promise == s.promise
    decreases |events|
  {
    if events != [] { SettledForGood(s, events[..|events| - 1]); }
  }

  lemma {:induction false} RunAppend(s: State, a: seq<Event>, b: seq<Event>)
    ensures Run(s, a + b) == Run(Run(s, a), b)
    decreases |b|
  {
    if b == [] {
      assert a + b == a;
    } else {
      assert (a + b)[..|a + b| - 1] == a + b[..|b| - 1];
      RunAppend(s, a, b[..|b| - 1]);
    }
  }

  /** Whatever happens, the two timers alone settle the promise. */
  lemma TimersSettle(events: seq<Event>)
    ensures !Run(START, events + [TimeoutFires, DeadlineFires]).promise.Pending?
  {
    RunIsSound(events);
    RunAppend(START, events, [TimeoutFires, DeadlineFires]);
    var s := Run(START, events);
    assert [TimeoutFires, DeadlineFires][..1] == [TimeoutFires] && [TimeoutFires][..0] == [];
    assert Run(s, [TimeoutFires]) == Step(Run(s, []), TimeoutFires);
  }

  // ---------------------------------------------------------------- what the outcome says

  function Output(events: seq<Event>): Chunk {
    if events == [] then []
    else Output(events[..|events| - 1])
         + if events[|events| - 1].Stdout? then events[|events| - 1].chunk else []
  }

  function ErrorOutput(events: seq<Event>): Chunk {
    if events == [] then []
    else ErrorOutput(events[..|events| - 1])
         + if events[|events| - 1].Stderr? then events[|events| - 1].chunk else []
  }

  /** The child timed out, or wrote more than a stream may hold. */
  ghost predicate Troubled(events: seq<Event>) {
    TimeoutFires in events || |Output(events)| > MAXIMUM_OUTPUT || |ErrorOutput(events)| > MAXIMUM_OUTPUT
  }

  /** Nothing in the events settles the promise. */
  ghost predicate Unsettling(events: seq<Event>) {
    forall i :: 0 <= i < |events| ==> !events[i].Close? && !events[i].ChildError? && !events[i].DeadlineFires?
  }

  lemma {:induction false} PendingRun(events: seq<Event>)
    requires Unsettling(events)
    ensures Run(START, events).promise.Pending?
    ensures Run(START, events).unknownOutcome <==> Troubled(events)
    ensures !Troubled(events) ==>
      && Concat(Run(START, events).stdout.chunks) == Output(events)
      && Concat(Run(START, events).stderr.chunks) == ErrorOutput(events)
    decreases |events|
  {
    if events == [] {
      assert Concat([]) == [];
    } else {
      var before, e := events[..|events| - 1], events[|events| - 1];
      PendingRun(before);
      RunIsSound(before);
      assert events == before + [e];
      var s := Run(START, before);
      if e.Stdout? { assert (s.stdout.chunks + [e.chunk])[..|s.stdout.chunks|] == s.stdout.chunks; }
      if e.Stderr? { assert (s.stderr.chunks + [e.chunk])[..|s.stderr.chunks|] == s.stderr.chunks; }
    }
  }

  /**
   When the child closes first, the outcome is "completed" exactly when nothing was the matter, and then the
   captures are everything the child wrote; no later event changes that.
   */
  lemma CloseTellsTheOutcome(before: seq<Event>, code: Option<int>, after: seq<Event>)
    requires Unsettling(before)
    ensures
      var promise := Run(START, before + [Close(code)] + after).promise;
      && promise.Resolved?
      && promise.exit.code == (if code.Some? then code.value else 1)
      && (promise.exit.completed <==> !Troubled(before))
      && (promise.exit.completed ==> promise.exit.stdout == Output(before) && promise.exit.stderr == ErrorOutput(before))
      && |promise.exit.stdout| <= MAXIMUM_OUTPUT && |promise.exit.stderr| <= MAXIMUM_OUTPUT
  {
    PendingRun(before);
    RunIsSound(before);
    assert (before + [Close(code)])[..|before|] == before;
    RunAppend(START, before + [Close(code)], after);
    SettledForGood(Run(START, before + [Close(code)]), after);
  }

  lemma PendingStep(s: State, e: Event)
    requires s.promise.Pending? && !e.Close? && !e.ChildError? && !e.DeadlineFires?
    ensures Step(s, e).promise.Pending?
    ensures s.unknownOutcome ==> Step(s, e).unknownOutcome && Step(s, e).deadline == s.deadline
    ensures !s.unknownOutcome && Step(s, e).unknownOutcome ==>
              Step(s, e).deadline == Some(if e.TimeoutFires? then TimedOut else OutputExceeded)
  {
  }

  /** The cause of a termination stays what it first was. */
  lemma {:induction false} CauseStays(s: State, events: seq<Event>)
    requires s.promise.Pending? && s.unknownOutcome && Unsettling(events)
    ensures Run(s, events).promise.Pending? && Run(s, events).unknownOutcome && Run(s, events).deadline == s.deadline
    decreases |events|
  {
    hide Step;
    if events != [] {
      CauseStays(s, events[..|events| - 1]);
      PendingStep(Run(s, events[..|events| - 1]), events[|events| - 1]);
    }
  }

  lemma RunOneMore(s: State, events: seq<Event>, e: Event)
    ensures Run(s, events + [e]) == Step(Run(s, events), e)
  {
    assert (events + [e])[..|events|] == events;
  }

  lemma DeadlineRejects(s: State, cause: Error)
    requires s.promise.Pending? && s.deadline == Some(cause)
    ensures Step(s, DeadlineFires).promise == Rejected(Unconfirmed(cause))
  {
  }

  /** When the deadline passes, the error names the trouble that came first. */
  lemma DeadlineTellsTheCause(calm: seq<Event>, e: Event, more: seq<Event>, after: seq<Event>)
    requires Unsettling(calm) && Unsettling([e]) && Unsettling(more)
    requires !Troubled(calm) && Troubled(calm + [e])
    ensures Run(START, calm + [e] + more + [DeadlineFires] + after).promise
         == Rejected(Unconfirmed(if e.TimeoutFires? then TimedOut else OutputExceeded))
  {
    assert [e][0] == e;
    PendingRun(calm);
    PendingRun(calm + [e]);
    hide Troubled, Step, Run;
    var s := Run(START, calm);
    var waited := calm + [e] + more;
    RunOneMore(START, calm, e);
    PendingStep(s, e);
    RunAppend(START, calm + [e], more);
    CauseStays(Step(s, e), more);
    RunOneMore(START, waited, DeadlineFires);
    DeadlineRejects(Run(START, waited), if e.TimeoutFires? then TimedOut else OutputExceeded);
    RunAppend(START, waited + [DeadlineFires], after);
    SettledForGood(Run(START, waited + [DeadlineFires]), after);
  }

  /** A child that could not be started is reported as such, whatever came before. */
  lemma ErrorTellsNotStarted(before: seq<Event>, after: seq<Event>)
    requires Unsettling(before)
    ensures Run(START, before + [ChildError] + after).promise == Rejected(NotStarted)
  {
    PendingRun(before);
    assert (before + [ChildError])[..|before|] == before;
    RunAppend(START, before + [ChildError], after);
    SettledForGood(Run(START, before + [ChildError]), after);
  }

  /** Until a termination has escalated, its escalation is armed. */
  ghost predicate Escalates(s: State) {
    s.promise.Pending? && s.signals == [SigTerm] ==> s.escalation
  }

  lemma StepEscalates(s: State, e: Event)
    requires Sound(s) && Escalates(s)
    ensures Escalates(Step(s, e))
  {
    hide Concat, Append, Fits;
  }

  lemma {:induction false} RunEscalates(events: seq<Event>)
    ensures Escalates(Run(START, events))
    decreases |events|
  {
    if events != [] {
      RunEscalates(events[..|events| - 1]);
      RunIsSound(events[..|events| - 1]);
      hide Step, Sound, Escalates;
      StepEscalates(Run(START, events[..|events| - 1]), events[|events| - 1]);
    }
  }

  /** While the promise is pending the child is asked to stop exactly on trouble, and killed when the grace ends. */
  lemma TroubledIsKilled(events: seq<Event>)
    requires Unsettling(events)
    ensures Run(START, events).signals == [] <==> !Troubled(events)
    ensures Troubled(events) ==> Run(START, events + [EscalationFires]).signals == [SigTerm, SigKill]
  {
    PendingRun(events);
    RunIsSound(events);
    RunEscalates(events);
    assert (events + [EscalationFires])[..|events|] == events;
  }

  ghost predicate TellsSignals(s: State) {
    s.promise.Resolved? ==> (s.promise.exit.completed <==> s.signals == [])
  }

  lemma StepTellsSignals(s: State, e: Event)
    requires Sound(s) && TellsSignals(s)
    ensures TellsSignals(Step(s, e))
  {
    hide Concat, Append, Fits;
  }

  /** "Completed" means that no termination was requested, whatever came before and after. */
  lemma {:induction false} CompletedWasNotTerminated(events: seq<Event>)
    ensures TellsSignals(Run(START, events))
    decreases |events|
  {
    hide TellsSignals;
    if events == [] {
      assert TellsSignals(START) by { FreshTellsSignals(); }
    } else {
      var before := events[..|events| - 1];
      CompletedWasNotTerminated(before);
      RunIsSound(before);
      hide Step, Sound;
      StepTellsSignals(Run(START, before), events[|events| - 1]);
    }
  }

  lemma FreshTellsSignals()
    ensures TellsSignals(START)
  {
  }
}

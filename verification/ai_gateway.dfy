/**
 Applying an AI Gateway plan against a provider that may answer anything, or not at all.
 */
module AiGateway {
  import opened Options

  datatype Settings = Settings(id: string, dailySpend: real)

  datatype Plan = Plan(settings: Settings, present: bool, needsMutation: bool)

  /** What a response body turns out to hold: nothing usable, a gateway's identity, or its settings too. */
  datatype Body = Unusable | Identity(id: string) | Configured(settings: Settings)

  /** The answer to a request; `Threw` covers lost, oversized and malformed responses. */
  datatype Reply = Threw | Answer(status: nat, success: bool, body: Body)

  datatype Request = Get(id: string) | Put(id: string, body: Settings) | Post(body: Settings)

  datatype Event = Sent(request: Request, reply: Reply) | Recorded(id: string, ok: bool)

  datatype Failure =
    | RequestFailed(index: nat)
    | NameOccupied
    | NotConfigured
    | NotRecorded
    | NotVerified

  datatype Outcome = Done | Failed(failure: Failure)

  // ---------------------------------------------------------------- reading replies

  predicate Shows(reply: Reply, id: string) {
    reply.Answer? && reply.success &&
    match reply.body case Unusable => false case Identity(i) => i == id case Configured(s) => s.id == id
  }

  /** The reply reports the planned settings. */
  predicate Confirms(reply: Reply, settings: Settings) {
    reply.Answer? && reply.success && reply.body == Configured(settings)
  }

  /** A mutation the provider answered for and did not make. */
  predicate Refuses(reply: Reply) {
    reply.Answer? && !reply.success && reply.status < 500
  }

  /** The mutation was neither refused nor acknowledged. */
  predicate Uncertain(reply: Reply) {
    reply.Threw? || (!reply.success && reply.status >= 500)
  }

  // ---------------------------------------------------------------- when a plan succeeds

  /** The first request that has the plan's settings already, or mutates them, is number n. */
  predicate UpdateSucceeds(settings: Settings, replies: nat -> Reply, n: nat) {
    !Refuses(replies(n)) && Confirms(replies(n + 1), settings)
  }

  predicate CreationSucceeds(settings: Settings, replies: nat -> Reply, recordable: bool) {
    && replies(0).Answer? && replies(0).status == 404
    && recordable
    && if Uncertain(replies(1))
       then Shows(replies(2), settings.id) && (Confirms(replies(2), settings) || UpdateSucceeds(settings, replies, 3))
       else !Refuses(replies(1)) && UpdateSucceeds(settings, replies, 2)
  }

  predicate Succeeds(plan: Plan, replies: nat -> Reply, recordable: bool) {
    if !plan.needsMutation then Confirms(replies(0), plan.settings)
    else if plan.present then UpdateSucceeds(plan.settings, replies, 0)
    else CreationSucceeds(plan.settings, replies, recordable)
  }

  // ---------------------------------------------------------------- the requests a plan makes

  /** Unless refused, an update is followed by one read. */
  function UpdateTrace(settings: Settings, replies: nat -> Reply, n: nat): seq<Event> {
    [Sent(Put(settings.id, settings), replies(n))]
    + if Refuses(replies(n)) then [] else [Sent(Get(settings.id), replies(n + 1))]
  }

  function RecordTrace(settings: Settings, recordable: bool, rest: seq<Event>): seq<Event> {
    [Recorded(settings.id, recordable)] + if recordable then rest else []
  }

  function CreationTrace(settings: Settings, replies: nat -> Reply, recordable: bool): seq<Event> {
    [Sent(Get(settings.id), replies(0)), Sent(Post(settings), replies(1))]
    + if Refuses(replies(1)) then []
      else if !Uncertain(replies(1)) then RecordTrace(settings, recordable, UpdateTrace(settings, replies, 2))
      else [Sent(Get(settings.id), replies(2))]
           + if !Shows(replies(2), settings.id) then []
             else RecordTrace(settings, recordable,
               if Confirms(replies(2), settings) then [] else UpdateTrace(settings, replies, 3))
  }

  function Trace(plan: Plan, replies: nat -> Reply, recordable: bool): seq<Event> {
    if !plan.needsMutation || (!plan.present && !(replies(0).Answer? && replies(0).status == 404))
    then [Sent(Get(plan.settings.id), replies(0))]
    else if plan.present then UpdateTrace(plan.settings, replies, 0)
    else CreationTrace(plan.settings, replies, recordable)
  }

  // ---------------------------------------------------------------- what a log must look like

  predicate IsPost(e: Event) { e.Sent? && e.request.Post? }

  predicate IsPut(e: Event) { e.Sent? && e.request.Put? }

  predicate Mutates(e: Event) { IsPost(e) || IsPut(e) }

  /** Every request is for this plan, with this plan's settings. */
  ghost predicate AsPlanned(plan: Plan, log: seq<Event>) {
    forall i :: 0 <= i < |log| ==>
      match log[i]
      case Recorded(id, _) => id == plan.settings.id
      case Sent(Get(id), _) => id == plan.settings.id
      case Sent(Put(id, body), _) => id == plan.settings.id && body == plan.settings && plan.needsMutation
      case Sent(Post(body), _) => body == plan.settings && plan.needsMutation && !plan.present
  }

  /** One creation and one update at most, and nothing follows a refused mutation. */
  ghost predicate MutatesSparingly(log: seq<Event>) {
    forall i, j :: 0 <= i < j < |log| ==>
      && !(IsPost(log[i]) && IsPost(log[j]))
      && !(IsPut(log[i]) && IsPut(log[j]))
      && !(IsPut(log[i]) && IsPost(log[j]))
      && !(Mutates(log[i]) && Refuses(log[i].reply))
  }

  /** A gateway is created only when the request just before found its name free. */
  ghost predicate CreatesOnFreeName(log: seq<Event>) {
    forall i :: 0 <= i < |log| && IsPost(log[i]) ==>
      i > 0 && log[i - 1].Sent? && log[i - 1].request.Get? && log[i - 1].reply.Answer? && log[i - 1].reply.status == 404
  }

  /** Between creating and updating a gateway, its creation is recorded. */
  ghost predicate RecordsCreation(plan: Plan, log: seq<Event>) {
    forall i, j :: 0 <= i < j < |log| && IsPost(log[i]) && IsPut(log[j]) ==>
      log[j - 1] == Recorded(plan.settings.id, true) && i < j - 1
  }

  ghost predicate Disciplined(plan: Plan, log: seq<Event>) {
    AsPlanned(plan, log) && MutatesSparingly(log) && CreatesOnFreeName(log) && RecordsCreation(plan, log)
  }

  /** The last request reads the planned settings back, and every mutation and record precedes it. */
  ghost predicate EndsConfirmed(plan: Plan, log: seq<Event>) {
    exists n :: 0 <= n < |log|
      && log[n].Sent? && log[n].request.Get? && Confirms(log[n].reply, plan.settings)
      && forall i :: n < i < |log| ==> log[i].Recorded?
  }

  lemma RepliesAreOneThing(reply: Reply, settings: Settings)
    ensures !(Refuses(reply) && Uncertain(reply))
    ensures Confirms(reply, settings) ==> reply.Answer? && Shows(reply, settings.id)
  {
  }

  /** Whatever the provider answers, the requests keep the discipline. */
  lemma RequestsAreDisciplined(plan: Plan, replies: nat -> Reply, recordable: bool)
    ensures Disciplined(plan, Trace(plan, replies, recordable))
  {
    var settings := plan.settings;
    if plan.needsMutation && !plan.present && replies(0).Answer? && replies(0).status == 404 {
      CreationIsDisciplined(plan, replies, recordable);
    }
  }

  /** The creation comes second, and the update, if any, at the given place after its record. */
  ghost predicate Placed(plan: Plan, replies: nat -> Reply, log: seq<Event>, update: nat) {
    (0 < update < |log| ==> log[update - 1] == Recorded(plan.settings.id, true)) &&
    forall i :: 0 <= i < |log| ==>
      if i == 0 then log[i] == Sent(Get(plan.settings.id), replies(0))
      else if i == 1 then log[i] == Sent(Post(plan.settings), replies(1)) && (Refuses(replies(1)) ==> i == |log| - 1)
      else if i == update then
        && log[i] == Sent(Put(plan.settings.id, plan.settings), replies(i - 1))
        && (Refuses(replies(i - 1)) ==> i == |log| - 1)
      else !Mutates(log[i]) && match log[i] case Recorded(id, _) => id == plan.settings.id
                                            case Sent(r, _) => r == Get(plan.settings.id)
  }

  lemma CreationPlaces(plan: Plan, replies: nat -> Reply, recordable: bool)
    ensures Placed(plan, replies, CreationTrace(plan.settings, replies, recordable), if Uncertain(replies(1)) then 4 else 3)
  {
  }

  lemma PlacedIsSparing(plan: Plan, replies: nat -> Reply, log: seq<Event>, update: nat)
    requires update > 1 && Placed(plan, replies, log, update)
    ensures MutatesSparingly(log)
  {
    assert forall i :: 0 <= i < |log| ==> (IsPost(log[i]) <==> i == 1) && (IsPut(log[i]) <==> i == update);
    assert forall i :: 0 <= i < |log| - 1 ==> !(Mutates(log[i]) && Refuses(log[i].reply));
    hide Placed, IsPost, IsPut, Refuses;
  }

  lemma PlacedIsRecorded(plan: Plan, replies: nat -> Reply, log: seq<Event>, update: nat)
    requires update > 2 && Placed(plan, replies, log, update)
    requires plan.needsMutation && !plan.present && replies(0).Answer? && replies(0).status == 404
    ensures AsPlanned(plan, log) && CreatesOnFreeName(log) && RecordsCreation(plan, log)
  {
    if |log| > 0 { assert log[0] == Sent(Get(plan.settings.id), replies(0)); }
    assert forall i :: 0 <= i < |log| ==> (IsPost(log[i]) <==> i == 1) && (IsPut(log[i]) <==> i == update);
  }

  lemma CreationIsDisciplined(plan: Plan, replies: nat -> Reply, recordable: bool)
    requires plan.needsMutation && !plan.present && replies(0).Answer? && replies(0).status == 404
    ensures Disciplined(plan, CreationTrace(plan.settings, replies, recordable))
  {
    hide CreationTrace, Placed, AsPlanned, MutatesSparingly, CreatesOnFreeName, RecordsCreation;
    var update := if Uncertain(replies(1)) then 4 else 3;
    CreationPlaces(plan, replies, recordable);
    PlacedIsSparing(plan, replies, CreationTrace(plan.settings, replies, recordable), update);
    PlacedIsRecorded(plan, replies, CreationTrace(plan.settings, replies, recordable), update);
  }

  /** A plan that succeeds has read its settings back after its last mutation. */
  lemma SuccessIsConfirmed(plan: Plan, replies: nat -> Reply, recordable: bool)
    requires Succeeds(plan, replies, recordable)
    ensures EndsConfirmed(plan, Trace(plan, replies, recordable))
  {
    var log := Trace(plan, replies, recordable);
    var n := if log[|log| - 1].Recorded? then |log| - 2 else |log| - 1;
    assert log[n].Sent? && log[n].request.Get? && Confirms(log[n].reply, plan.settings);
  }

  // ---------------------------------------------------------------- what makes a plan fail

  predicate IsGet(e: Event) { e.Sent? && e.request.Get? }

  /** The provider answers with success and with these settings. */
  predicate Reports(reply: Reply, settings: Settings) {
    reply.Answer? && reply.success && reply.body == Configured(settings)
  }

  /** The provider answers with success and with a gateway of this name. */
  predicate Names(reply: Reply, id: string) {
    reply.Answer? && reply.success &&
    (reply.body == Identity(id) || (reply.body.Configured? && reply.body.settings.id == id))
  }

  /** The event after a mutation is a read that shows it: an update by its settings, a creation by its name. */
  predicate ReadBack(plan: Plan, mutation: Request, e: Event) {
    IsGet(e) && if mutation.Put? then Reports(e.reply, plan.settings) else Names(e.reply, plan.settings.id)
  }

  /** The mutation was refused, or nobody knows and the read that follows does not show it. */
  ghost predicate MutationFails(plan: Plan, log: seq<Event>, i: nat) {
    i < |log| && Mutates(log[i]) &&
    match log[i].reply
    case Answer(status, success, _) =>
      !success && (status < 500 || !(i + 1 < |log| && ReadBack(plan, log[i].request, log[i + 1])))
    case Threw => !(i + 1 < |log| && ReadBack(plan, log[i].request, log[i + 1]))
  }

  /** The read threw, found the name of a new gateway taken, or is the last one and does not report the settings. */
  ghost predicate ReadFails(plan: Plan, log: seq<Event>, i: nat) {
    i < |log| && IsGet(log[i]) &&
    (|| log[i].reply.Threw?
     || (i == 0 && plan.needsMutation && !plan.present && log[i].reply.status != 404)
     || ((forall j :: i < j < |log| ==> !IsGet(log[j])) && !Reports(log[i].reply, plan.settings)))
  }

  ghost predicate Fails(plan: Plan, log: seq<Event>, i: nat) {
    MutationFails(plan, log, i) || ReadFails(plan, log, i) || (i < |log| && log[i].Recorded? && !log[i].ok)
  }

  ghost predicate NothingFails(plan: Plan, log: seq<Event>) {
    forall i :: 0 <= i < |log| ==> !Fails(plan, log, i)
  }

  lemma OneByOne(plan: Plan, log: seq<Event>)
    requires |log| <= 6
    ensures NothingFails(plan, log) <==>
      && (|log| > 0 ==> !Fails(plan, log, 0)) && (|log| > 1 ==> !Fails(plan, log, 1)) && (|log| > 2 ==> !Fails(plan, log, 2))
      && (|log| > 3 ==> !Fails(plan, log, 3)) && (|log| > 4 ==> !Fails(plan, log, 4)) && (|log| > 5 ==> !Fails(plan, log, 5))
  {
    hide Fails;
  }

  lemma CreationFailsEarly(plan: Plan, replies: nat -> Reply, recordable: bool)
    requires plan.needsMutation && !plan.present && replies(0).Answer? && replies(0).status == 404
    requires Refuses(replies(1)) || (Uncertain(replies(1)) && !Shows(replies(2), plan.settings.id))
    ensures !Succeeds(plan, replies, recordable) && !NothingFails(plan, Trace(plan, replies, recordable))
  {
    var log := Trace(plan, replies, recordable);
    assert log[1] == Sent(Post(plan.settings), replies(1));
    if Refuses(replies(1)) {
      assert Fails(plan, log, 1);
    } else {
      assert log[2] == Sent(Get(plan.settings.id), replies(2));
      assert Fails(plan, log, 1);
    }
  }

  lemma UnrecordedFails(plan: Plan, replies: nat -> Reply, log: seq<Event>, i: nat)
    requires i < |log| && log[i] == Recorded(plan.settings.id, false)
    ensures !NothingFails(plan, log)
  {
    assert Fails(plan, log, i);
  }

  /** The whole log of a creation that was recorded, and what decides it. */
  lemma CreatedSucceedsExactly(plan: Plan, replies: nat -> Reply, recordable: bool)
    requires plan.needsMutation && !plan.present && replies(0).Answer? && replies(0).status == 404
    requires !Refuses(replies(1)) && !Uncertain(replies(1))
    ensures Succeeds(plan, replies, recordable) <==> NothingFails(plan, Trace(plan, replies, recordable))
  {
    var log, settings := Trace(plan, replies, recordable), plan.settings;
    var start := [Sent(Get(settings.id), replies(0)), Sent(Post(settings), replies(1)), Recorded(settings.id, recordable)];
    OneByOne(plan, log);
    if !recordable {
      assert log == start;
      UnrecordedFails(plan, replies, log, 2);
    } else if Refuses(replies(2)) {
      assert log == start + [Sent(Put(settings.id, settings), replies(2))];
      assert Fails(plan, log, 3);
    } else {
      assert log == start + [Sent(Put(settings.id, settings), replies(2)), Sent(Get(settings.id), replies(3))];
      assert IsGet(log[4]);
    }
  }

  lemma RecoveredSucceedsExactly(plan: Plan, replies: nat -> Reply, recordable: bool)
    requires plan.needsMutation && !plan.present && replies(0).Answer? && replies(0).status == 404
    requires Uncertain(replies(1)) && Shows(replies(2), plan.settings.id)
    ensures Succeeds(plan, replies, recordable) <==> NothingFails(plan, Trace(plan, replies, recordable))
  {
    var log, settings := Trace(plan, replies, recordable), plan.settings;
    var start := [Sent(Get(settings.id), replies(0)), Sent(Post(settings), replies(1)), Sent(Get(settings.id), replies(2)),
                  Recorded(settings.id, recordable)];
    OneByOne(plan, log);
    if !recordable {
      assert log == start;
      UnrecordedFails(plan, replies, log, 3);
    } else if Confirms(replies(2), settings) {
      assert log == start;
      assert IsGet(log[2]);
    } else if Refuses(replies(3)) {
      assert log == start + [Sent(Put(settings.id, settings), replies(3))];
      assert Fails(plan, log, 4);
    } else {
      assert log == start + [Sent(Put(settings.id, settings), replies(3)), Sent(Get(settings.id), replies(4))];
      assert IsGet(log[5]);
    }
  }

  /** A plan succeeds exactly when nothing in its log fails. */
  lemma SucceedsExactly(plan: Plan, replies: nat -> Reply, recordable: bool)
    ensures Succeeds(plan, replies, recordable) <==> NothingFails(plan, Trace(plan, replies, recordable))
  {
    if plan.needsMutation && !plan.present && replies(0).Answer? && replies(0).status == 404 {
      if Refuses(replies(1)) || (Uncertain(replies(1)) && !Shows(replies(2), plan.settings.id)) {
        CreationFailsEarly(plan, replies, recordable);
      } else if Uncertain(replies(1)) {
        RecoveredSucceedsExactly(plan, replies, recordable);
      } else {
        CreatedSucceedsExactly(plan, replies, recordable);
      }
    } else {
      OneByOne(plan, Trace(plan, replies, recordable));
    }
  }

  /**
   When the provider acknowledges every mutation, the name of a new gateway is free, the record is written and the
   last read reports the settings, the plan succeeds.
   */
  lemma AcknowledgedPlanSucceeds(plan: Plan, replies: nat -> Reply, recordable: bool)
    requires
      var log := Trace(plan, replies, recordable);
      forall i :: 0 <= i < |log| && Mutates(log[i]) ==> log[i].reply.Answer? && log[i].reply.success
    requires plan.needsMutation && !plan.present ==> recordable && replies(0).Answer? && replies(0).status == 404
    requires Reports(replies(if !plan.needsMutation then 0 else if plan.present then 1 else 3), plan.settings)
    ensures Succeeds(plan, replies, recordable)
  {
    var log := Trace(plan, replies, recordable);
    if plan.needsMutation && !plan.present {
      assert Mutates(log[1]) && log[1].reply == replies(1);
      assert log[2] == Recorded(plan.settings.id, recordable) && Mutates(log[3]) && log[3].reply == replies(2);
    } else if plan.needsMutation {
      assert Mutates(log[0]) && log[0].reply == replies(0);
    }
  }

  /** What the failure says is what was seen. */
  ghost predicate Explains(failure: Failure, plan: Plan, replies: nat -> Reply, recordable: bool, log: seq<Event>) {
    match failure
    case RequestFailed(index) => replies(index).Threw?
    case NameOccupied => plan.needsMutation && !plan.present && replies(0).Answer? && replies(0).status != 404
    case NotConfigured => exists i :: 0 <= i < |log| && Unacknowledged(log[i])
    case NotRecorded => !recordable
    case NotVerified => log != [] && log[|log| - 1].Sent? && log[|log| - 1].reply.Answer? && !Confirms(log[|log| - 1].reply, plan.settings)
  }

  predicate Unacknowledged(e: Event) {
    Mutates(e) && e.reply.Answer? && !e.reply.success
  }

  lemma ThrewExplains(plan: Plan, replies: nat -> Reply, recordable: bool, log: seq<Event>, index: nat)
    requires replies(index).Threw?
    ensures Explains(RequestFailed(index), plan, replies, recordable, log)
  {
  }

  lemma OccupiedExplains(plan: Plan, replies: nat -> Reply, recordable: bool, log: seq<Event>)
    requires plan.needsMutation && !plan.present && replies(0).Answer? && replies(0).status != 404
    ensures Explains(NameOccupied, plan, replies, recordable, log)
  {
  }

  lemma UnrecordedExplains(plan: Plan, replies: nat -> Reply, log: seq<Event>)
    ensures Explains(NotRecorded, plan, replies, false, log)
  {
  }

  /** The failure of the mutation whose event is number i. */
  lemma MutationExplains(plan: Plan, replies: nat -> Reply, recordable: bool, log: seq<Event>, i: nat, failure: Failure)
    requires i < |log| && Mutates(log[i])
    requires match failure
             case RequestFailed(index) => replies(index).Threw?
             case NotConfigured => log[i].reply.Answer? && !log[i].reply.success
             case _ => false
    ensures Explains(failure, plan, replies, recordable, log)
  {
    assert log[i].reply.Answer? && !log[i].reply.success ==> Unacknowledged(log[i]);
  }

  /** The failure of the last read. */
  lemma VerificationExplains(plan: Plan, replies: nat -> Reply, recordable: bool, log: seq<Event>, failure: Failure)
    requires match failure
             case RequestFailed(index) => replies(index).Threw?
             case NotVerified => log != [] && log[|log| - 1].Sent? && log[|log| - 1].reply.Answer? && !Confirms(log[|log| - 1].reply, plan.settings)
             case _ => false
    ensures Explains(failure, plan, replies, recordable, log)
  {
  }

  // ---------------------------------------------------------------- the machine

  class Api {
    const replies: nat -> Reply
    const recordable: bool
    var sent: nat
    var log: seq<Event>

    constructor (replies: nat -> Reply, recordable: bool)
      ensures this.replies == replies && this.recordable == recordable && sent == 0 && log == []
    {
      this.replies, this.recordable, sent, log := replies, recordable, 0, [];
    }

    method Send(request: Request) returns (reply: Reply)
      modifies this
      ensures reply == replies(old(sent)) && sent == old(sent) + 1
      ensures log == old(log) + [Sent(request, reply)]
    {
      reply := replies(sent);
      sent := sent + 1;
      log := log + [Sent(request, reply)];
    }

    /** Reads the gateway back after an uncertain mutation. */
    method RecoverGateway(plan: Plan, requireConfigured: bool) returns (threw: bool, verification: Option<Reply>)
      modifies this
      ensures sent == old(sent) + 1
      ensures log == old(log) + [Sent(Get(plan.settings.id), replies(old(sent)))]
      ensures threw <==> replies(old(sent)).Threw?
      ensures verification.Some? <==>
                if requireConfigured then Confirms(replies(old(sent)), plan.settings)
                else Shows(replies(old(sent)), plan.settings.id)
      ensures verification.Some? ==> verification.value == replies(old(sent))
    {
      var reply := Send(Get(plan.settings.id));
      threw, verification := reply.Threw?, None;
      if !threw && Shows(reply, plan.settings.id) && (!requireConfigured || Confirms(reply, plan.settings)) {
        verification := Some(reply);
      }
    }

    /** Sends a mutation and, when its fate is uncertain, reads the gateway back. */
    method Mutate(plan: Plan, request: Request, requireConfigured: bool)
      returns (failure: Option<Failure>, configured: Option<Reply>)
      modifies this
      ensures
        var response, next := replies(old(sent)), replies(old(sent) + 1);
        && sent == old(sent) + (if Uncertain(response) then 2 else 1)
        && log == old(log) + [Sent(request, response)]
                  + (if Uncertain(response) then [Sent(Get(plan.settings.id), next)] else [])
        && (failure.None? <==>
              && !Refuses(response)
              && (Uncertain(response) ==>
                    if requireConfigured then Confirms(next, plan.settings) else Shows(next, plan.settings.id)))
        && (failure.None? ==> (configured.Some? <==> Uncertain(response) && Confirms(next, plan.settings)))
        && (configured.Some? ==> configured.value == next)
        && (failure.Some? ==> match failure.value
                              case RequestFailed(index) => replies(index).Threw?
                              case NotConfigured => response.Answer? && !response.success
                              case _ => false)
    {
      configured := None;
      var index := sent;
      var response := Send(request);
      if response.Answer? && !response.success && response.status < 500 {
        return Some(NotConfigured), None;
      }
      if response.Threw? || !response.success {
        var threw, recovered := RecoverGateway(plan, requireConfigured);
        if threw { return Some(RequestFailed(index + 1)), None; }
        if recovered.None? {
          return Some(if response.Threw? then RequestFailed(index) else NotConfigured), None;
        }
        configured := if Confirms(recovered.value, plan.settings) then recovered else None;
      }
      failure := None;
    }

    /** Creating a gateway: its name must be free, it is recorded, and it is updated unless it is as planned. */
    method CreateGateway(plan: Plan) returns (failure: Option<Failure>, configured: Option<Reply>)
      requires plan.needsMutation && !plan.present && sent == 0 && log == []
      modifies this
      ensures
        var trace := Trace(plan, replies, recordable);
        && (failure.Some? ==> log == trace && !Succeeds(plan, replies, recordable)
                              && Explains(failure.value, plan, replies, recordable, log))
        && (failure.None? && configured.Some? ==>
              log == trace && Confirms(configured.value, plan.settings) && Succeeds(plan, replies, recordable))
        && (failure.None? && configured.None? ==>
              && log + [Sent(Get(plan.settings.id), replies(sent))] == trace
              && (Confirms(replies(sent), plan.settings) <==> Succeeds(plan, replies, recordable)))
    {
      hide Shows, Confirms, Refuses, Uncertain, Explains;
      forall reply { RepliesAreOneThing(reply, plan.settings); }
      var id := plan.settings.id;
      configured := None;
      var probe := Send(Get(id));
      if probe.Threw? { ThrewExplains(plan, replies, recordable, log, 0); return Some(RequestFailed(0)), None; }
      if probe.status != 404 { OccupiedExplains(plan, replies, recordable, log); return Some(NameOccupied), None; }
      failure, configured := Mutate(plan, Post(plan.settings), false);
      if failure.Some? { MutationExplains(plan, replies, recordable, log, 1, failure.value); return; }
      log := log + [Recorded(id, recordable)];
      if !recordable { UnrecordedExplains(plan, replies, log); return Some(NotRecorded), None; }
      if configured.None? {
        ghost var n := |log|;
        failure, configured := Mutate(plan, Put(id, plan.settings), true);
        if failure.Some? { MutationExplains(plan, replies, recordable, log, n, failure.value); return; }
      }
    }

    method ApplyAiGatewayPlan(plan: Plan) returns (outcome: Outcome)
      requires sent == 0 && log == []
      modifies this
      ensures outcome.Done? <==> Succeeds(plan, replies, recordable)
      ensures log == Trace(plan, replies, recordable)
      ensures outcome.Failed? ==> Explains(outcome.failure, plan, replies, recordable, log)
    {
      hide Shows, Confirms, Refuses, Uncertain, Explains, CreationSucceeds, CreationTrace;
      forall reply { RepliesAreOneThing(reply, plan.settings); }
      var configured: Option<Reply> := None;
      var failure: Option<Failure>;
      if plan.needsMutation {
        if plan.present {
          failure, configured := Mutate(plan, Put(plan.settings.id, plan.settings), true);
          if failure.Some? { MutationExplains(plan, replies, recordable, log, 0, failure.value); }
        } else {
          failure, configured := CreateGateway(plan);
        }
        if failure.Some? { return Failed(failure.value); }
      }
      outcome := Verify(plan, configured);
      if outcome.Failed? {
        assert configured.None?;
        VerificationExplains(plan, replies, recordable, log, outcome.failure);
      }
    }

    /** The read that recovered the gateway verifies it too; otherwise it is read once more. */
    method Verify(plan: Plan, configured: Option<Reply>) returns (outcome: Outcome)
      modifies this
      ensures configured.Some? ==> log == old(log) && (outcome.Done? <==> Confirms(configured.value, plan.settings))
      ensures configured.None? ==>
                && log == old(log) + [Sent(Get(plan.settings.id), replies(old(sent)))]
                && (outcome.Done? <==> Confirms(replies(old(sent)), plan.settings))
                && (outcome.Failed? ==> outcome.failure == if replies(old(sent)).Threw? then RequestFailed(old(sent)) else NotVerified)
    {
      var verified;
      if configured.Some? {
        verified := configured.value;
      } else {
        verified := Send(Get(plan.settings.id));
        if verified.Threw? { return Failed(RequestFailed(sent - 1)); }
      }
      if !Confirms(verified, plan.settings) { return Failed(NotVerified); }
      return Done;
    }
  }
}

/**
 The token ledger of temporary and refreshable owner sessions: what becomes of every token the provider
 issues, whichever of the awaited steps fails.
 */
module OwnerSession {
  import opened Options

  datatype Error = Failure(detail: nat) | BrowserUnavailable | InvalidPayload

  datatype Kind = Access | Refresh

  datatype Issued = Issued(token: string, kind: Kind)

  /** A member of the token response: a usable token is a string of acceptable length. */
  datatype Field = Missing | Unusable | Usable(token: string)

  /** The token response; `termsMatch` covers its lifetime, scope and token type. */
  datatype Payload = NotARecord | Payload(access: Field, refresh: Field, termsMatch: bool)

  datatype Exchange = Lost(error: Error) | Received(payload: Payload)

  /** The outcome of every awaited step: the error it throws, or none. */
  datatype Answers = Answers(
    listen: Option<Error>,
    register: Option<Error>,
    open: Option<Error>,
    authorize: Option<Error>,
    exchange: Exchange,
    originMatches: bool,
    credentialFits: Option<Error>,
    persist: Option<Error>,
    operate: Option<Error>,
    revoke: nat -> Option<Error>,
    confirm: nat -> Option<Error>
  )

  datatype Event =
    | Listening
    | Closed
    | Read(issued: Issued)
    | Persisted(token: string, ok: bool)
    | Operated
    | Revoked(issued: Issued, ok: bool)
    | Confirmed(token: string, ok: bool)

  datatype Step = Granted | Denied(error: Error)
  datatype Operation = NotRun | Completed | OperationFailed(error: Error)
  datatype Revocation = NotIssued | AllRevoked | RevocationFailed(error: Error)
  datatype Report = Report(authorization: Step, operation: Operation, revocation: Revocation)

  // ---------------------------------------------------------------- what a run comes to

  function Tokens(payload: Payload): seq<Issued> {
    if payload.NotARecord? then []
    else
      (if payload.access.Usable? then [Issued(payload.access.token, Access)] else [])
      + (if payload.refresh.Usable? then [Issued(payload.refresh.token, Refresh)] else [])
  }

  /** The response meets the schema: a refresh token exactly when one was asked for. */
  predicate Accepted(payload: Payload, persistent: bool) {
    payload.Payload? && payload.access.Usable? && payload.termsMatch &&
    if persistent then payload.refresh.Usable? else payload.refresh.Missing?
  }

  /** The steps before the token response, in order; the first error wins. */
  function Opening(a: Answers): Exchange {
    if a.listen.Some? then Lost(a.listen.value)
    else if a.register.Some? then Lost(a.register.value)
    else if a.open.Some? then Lost(BrowserUnavailable)
    else if a.authorize.Some? then Lost(a.authorize.value)
    else a.exchange
  }

  function Refreshing(a: Answers): Exchange {
    if a.originMatches then a.exchange else Lost(InvalidPayload)
  }

  /** What follows the token response. */
  function Granting(a: Answers, x: Exchange, persistent: bool): Step {
    if x.Lost? then Denied(x.error)
    else if !Accepted(x.payload, persistent) then Denied(InvalidPayload)
    else if persistent && a.credentialFits.Some? then Denied(a.credentialFits.value)
    else if persistent && a.persist.Some? then Denied(a.persist.value)
    else Granted
  }

  /** The tokens left to revoke. */
  function Outstanding(a: Answers, x: Exchange, persistent: bool): seq<Issued> {
    if x.Lost? then []
    else if persistent && Granting(a, x, persistent).Granted?
    then [Issued(x.payload.access.token, Access)]
    else Tokens(x.payload)
  }

  function Reads(tokens: seq<Issued>): seq<Event> {
    seq(|tokens|, i requires 0 <= i < |tokens| => Read(tokens[i]))
  }

  function Persisting(a: Answers, x: Exchange, persistent: bool): seq<Event> {
    if persistent && x.Received? && Accepted(x.payload, persistent) && a.credentialFits.None?
    then [Persisted(x.payload.refresh.token, a.persist.None?)]
    else []
  }

  function Operating(a: Answers, x: Exchange, persistent: bool): seq<Event> {
    if Granting(a, x, persistent).Granted? then [Operated] else []
  }

  function Revokes(a: Answers, tokens: seq<Issued>): seq<Event> {
    seq(|tokens|, i requires 0 <= i < |tokens| => Revoked(tokens[i], a.revoke(i).None?))
  }

  function Confirms(a: Answers, tokens: seq<Issued>): seq<Event> {
    if tokens == [] then []
    else
      var last := |tokens| - 1;
      Confirms(a, tokens[..last])
      + if tokens[last].kind.Access? then [Confirmed(tokens[last].token, a.confirm(last).None?)] else []
  }

  function First(earlier: Option<Error>, later: Option<Error>): Option<Error> {
    if earlier.Some? then earlier else later
  }

  function RevokeError(a: Answers, n: nat): Option<Error> {
    if n == 0 then None else First(RevokeError(a, n - 1), a.revoke(n - 1))
  }

  function ConfirmError(a: Answers, tokens: seq<Issued>): Option<Error> {
    if tokens == [] then None
    else
      var last := |tokens| - 1;
      First(ConfirmError(a, tokens[..last]), if tokens[last].kind.Access? then a.confirm(last) else None)
  }

  function Revoking(a: Answers, tokens: seq<Issued>): Revocation {
    if tokens == [] then NotIssued
    else match First(RevokeError(a, |tokens|), ConfirmError(a, tokens))
         case None => AllRevoked
         case Some(error) => RevocationFailed(error)
  }

  function ReportOf(a: Answers, x: Exchange, persistent: bool): Report {
    var authorization := Granting(a, x, persistent);
    Report(
      authorization,
      if authorization.Denied? then NotRun
      else match a.operate case None => Completed case Some(error) => OperationFailed(error),
      Revoking(a, Outstanding(a, x, persistent)))
  }

  function Using(a: Answers, x: Exchange, persistent: bool): seq<Event> {
    (if x.Received? then Reads(Tokens(x.payload)) else [])
    + Persisting(a, x, persistent) + Operating(a, x, persistent)
  }

  function Cleaning(a: Answers, tokens: seq<Issued>): seq<Event> {
    Revokes(a, tokens) + Confirms(a, tokens)
  }

  function AuthorizationTrace(a: Answers, persistent: bool): seq<Event> {
    var x := Opening(a);
    (if a.listen.None? then [Listening] else [])
    + Using(a, x, persistent)
    + (if a.listen.None? then [Closed] else [])
    + Cleaning(a, Outstanding(a, x, persistent))
  }

  function RefreshTrace(a: Answers): seq<Event> {
    var x := Refreshing(a);
    Using(a, x, true) + Cleaning(a, Outstanding(a, x, true))
  }

  lemma NothingUsed(a: Answers, x: Exchange, persistent: bool)
    requires x.Lost?
    ensures Using(a, x, persistent) == [] && Outstanding(a, x, persistent) == []
    ensures Granting(a, x, persistent) == Denied(x.error)
  {
  }

  lemma RegisteredWhenReceived(a: Answers)
    requires Opening(a).Received?
    ensures a.listen.None? && a.register.None?
  {
  }

  lemma NothingCleaned(a: Answers)
    ensures Cleaning(a, []) == [] && Revoking(a, []) == NotIssued
  {
  }

  // ---------------------------------------------------------------- the sessions

  class Session {
    const answers: Answers
    var log: seq<Event>
    var revocationTokens: seq<Issued>

    constructor (answers: Answers)
      ensures this.answers == answers && log == [] && revocationTokens == []
    {
      this.answers := answers;
      log, revocationTokens := [], [];
    }

    method ReadTokens(payload: Payload)
      requires revocationTokens == []
      modifies this
      ensures revocationTokens == Tokens(payload)
      ensures log == old(log) + Reads(Tokens(payload))
    {
      if payload.Payload? {
        var fields := [(payload.access, Access), (payload.refresh, Refresh)];
        for i := 0 to 2
          invariant revocationTokens ==
            (if i > 0 && payload.access.Usable? then [Issued(payload.access.token, Access)] else [])
            + (if i > 1 && payload.refresh.Usable? then [Issued(payload.refresh.token, Refresh)] else [])
          invariant log == old(log) + Reads(revocationTokens)
        {
          if fields[i].0.Usable? {
            var issued := Issued(fields[i].0.token, fields[i].1);
            assert Reads(revocationTokens + [issued]) == Reads(revocationTokens) + [Read(issued)];
            revocationTokens := revocationTokens + [issued];
            log := log + [Read(issued)];
          }
        }
      }
    }

    /** Takes the persisted refresh token off the list. */
    method Retain(token: string)
      modifies `revocationTokens
      ensures forall i :: 0 <= i < |old(revocationTokens)| && old(revocationTokens)[i] == Issued(token, Refresh)
                       && Issued(token, Refresh) !in old(revocationTokens)[..i]
                ==> revocationTokens == old(revocationTokens)[..i] + old(revocationTokens)[i + 1..]
      ensures Issued(token, Refresh) !in old(revocationTokens) ==> revocationTokens == old(revocationTokens)
    {
      var found := 0;
      while found < |revocationTokens| && revocationTokens[found] != Issued(token, Refresh)
        invariant found <= |revocationTokens|
        invariant Issued(token, Refresh) !in revocationTokens[..found]
      {
        found := found + 1;
      }
      if found < |revocationTokens| {
        revocationTokens := revocationTokens[..found] + revocationTokens[found + 1..];
      }
    }

    /** From the token response to the end of the operation. */
    method UseResponse(payload: Payload, persistent: bool) returns (authorization: Step, operation: Operation)
      requires revocationTokens == []
      modifies this
      ensures authorization == Granting(answers, Received(payload), persistent)
      ensures operation == ReportOf(answers, Received(payload), persistent).operation
      ensures revocationTokens == Outstanding(answers, Received(payload), persistent)
      ensures log == old(log) + Using(answers, Received(payload), persistent)
    {
      operation := NotRun;
      ReadTokens(payload);
      if !Accepted(payload, persistent) {
        return Denied(InvalidPayload), operation;
      }
      if persistent {
        if answers.credentialFits.Some? {
          return Denied(answers.credentialFits.value), operation;
        }
        log := log + [Persisted(payload.refresh.token, answers.persist.None?)];
        if answers.persist.Some? {
          return Denied(answers.persist.value), operation;
        }
        assert Tokens(payload)[1] == Issued(payload.refresh.token, Refresh);
        Retain(payload.refresh.token);
        assert revocationTokens == [Issued(payload.access.token, Access)];
      }
      authorization := Granted;
      log := log + [Operated];
      operation := match answers.operate case None => Completed case Some(error) => OperationFailed(error);
    }

    method RevokeAll() returns (revocation: Revocation)
      modifies `log
      ensures revocation == Revoking(answers, revocationTokens)
      ensures log == old(log) + Cleaning(answers, revocationTokens)
    {
      var tokens := revocationTokens;
      if tokens == [] {
        assert log == log + Cleaning(answers, tokens);
        return NotIssued;
      }
      var revocationError: Option<Error> := None;
      for i := 0 to |tokens|
        invariant revocationError == RevokeError(answers, i)
        invariant log == old(log) + Revokes(answers, tokens[..i])
      {
        assert Revokes(answers, tokens[..i + 1]) == Revokes(answers, tokens[..i]) + [Revoked(tokens[i], answers.revoke(i).None?)];
        log := log + [Revoked(tokens[i], answers.revoke(i).None?)];
        revocationError := First(revocationError, answers.revoke(i));
      }
      assert tokens[..|tokens|] == tokens;
      for i := 0 to |tokens|
        invariant revocationError == First(RevokeError(answers, |tokens|), ConfirmError(answers, tokens[..i]))
        invariant log == old(log) + (Revokes(answers, tokens) + Confirms(answers, tokens[..i]))
      {
        assert tokens[..i + 1][..i] == tokens[..i];
        if tokens[i].kind.Access? {
          log := log + [Confirmed(tokens[i].token, answers.confirm(i).None?)];
          revocationError := First(revocationError, answers.confirm(i));
        }
      }
      revocation := match revocationError case None => AllRevoked case Some(error) => RevocationFailed(error);
    }

    /** Listener, registration, browser, authorization code and token response, up to the first that fails. */
    method OpenSession() returns (x: Exchange, registered: bool)
      modifies `log
      ensures x == Opening(answers) && registered == (answers.listen.None? && answers.register.None?)
      ensures log == old(log) + (if answers.listen.None? then [Listening] else [])
    {
      registered := false;
      if answers.listen.Some? { return Lost(answers.listen.value), registered; }
      log := log + [Listening];
      if answers.register.Some? { return Lost(answers.register.value), registered; }
      registered := true;
      if answers.open.Some? { return Lost(BrowserUnavailable), registered; }
      if answers.authorize.Some? { return Lost(answers.authorize.value), registered; }
      x := answers.exchange;
    }

    /** Closes the listener, if there is one, and revokes what is left, if a client was registered. */
    method CloseSession(registered: bool) returns (revocation: Revocation)
      requires revocationTokens != [] ==> registered
      modifies `log
      ensures revocation == Revoking(answers, revocationTokens)
      ensures log == old(log) + (if answers.listen.None? then [Closed] else []) + Cleaning(answers, revocationTokens)
    {
      hide Cleaning, Revoking;
      if answers.listen.None? {
        log := log + [Closed];
      }
      if revocationTokens != [] && registered {
        revocation := RevokeAll();
      } else {
        revocation := NotIssued;
        NothingCleaned(answers);
      }
    }

    method RunOwnerAuthorization(persistent: bool) returns (report: Report)
      requires log == [] && revocationTokens == []
      modifies this
      ensures report == ReportOf(answers, Opening(answers), persistent)
      ensures log == AuthorizationTrace(answers, persistent)
    {
      hide Using, Outstanding, Cleaning, Granting, Revoking;
      var operation := NotRun;
      var authorization;
      var x, registered := OpenSession();
      if x.Lost? {
        authorization := Denied(x.error);
        NothingUsed(answers, x, persistent);
      } else {
        RegisteredWhenReceived(answers);
        authorization, operation := UseResponse(x.payload, persistent);
      }
      hide Opening;
      var revocation := CloseSession(registered);
      report := Report(authorization, operation, revocation);
    }

    /** The stored credential is extended, not built, so the check of a new credential has no part here. */
    method RunRefreshableOwnerSession() returns (report: Report)
      requires answers.credentialFits.None?
      requires log == [] && revocationTokens == []
      modifies this
      ensures report == ReportOf(answers, Refreshing(answers), true)
      ensures log == RefreshTrace(answers)
    {
      hide Using, Outstanding, Cleaning, Granting, Revoking;
      var authorization, operation := Denied(InvalidPayload), NotRun;
      var x := if answers.originMatches then answers.exchange else Lost(InvalidPayload);
      if x.Lost? {
        authorization := Denied(x.error);
        NothingUsed(answers, x, true);
      } else {
        authorization, operation := UseResponse(x.payload, true);
      }
      var revocation := NotIssued;
      if revocationTokens != [] {
        revocation := RevokeAll();
      } else {
        NothingCleaned(answers);
      }
      report := Report(authorization, operation, revocation);
    }
  }

  // ---------------------------------------------------------------- the ledger

  type View = Event -> Option<Issued>

  function Collect(view: View, log: seq<Event>): seq<Issued> {
    if log == [] then []
    else (match view(log[0]) case None => [] case Some(issued) => [issued]) + Collect(view, log[1..])
  }

  function WasRead(): View { (e: Event) => if e.Read? then Some(e.issued) else None }

  function WasRevoked(): View { (e: Event) => if e.Revoked? then Some(e.issued) else None }

  /** Refresh tokens whose persistence completed. */
  function WasKept(): View { (e: Event) => if e.Persisted? && e.ok then Some(Issued(e.token, Refresh)) else None }

  lemma {:induction false} CollectAppend(view: View, a: seq<Event>, b: seq<Event>)
    ensures Collect(view, a + b) == Collect(view, a) + Collect(view, b)
    decreases |a|
  {
    if a == [] {
      assert a + b == b;
    } else {
      assert (a + b)[1..] == a[1..] + b;
      CollectAppend(view, a[1..], b);
    }
  }

  /** A stretch of the log in which the view sees nothing. */
  lemma {:induction false} CollectNothing(view: View, log: seq<Event>)
    requires forall i :: 0 <= i < |log| ==> view(log[i]).None?
    ensures Collect(view, log) == []
    decreases |log|
  {
    if log != [] { CollectNothing(view, log[1..]); }
  }

  lemma {:induction false} ReadsAreRead(tokens: seq<Issued>)
    ensures Collect(WasRead(), Reads(tokens)) == tokens
    decreases |tokens|
  {
    if tokens != [] {
      assert Reads(tokens)[1..] == Reads(tokens[1..]);
      ReadsAreRead(tokens[1..]);
    }
  }

  lemma {:induction false} RevokesAreRevoked(a: Answers, tokens: seq<Issued>)
    ensures Collect(WasRevoked(), Revokes(a, tokens)) == tokens
    decreases |tokens|
  {
    if tokens != [] {
      var last := |tokens| - 1;
      assert Revokes(a, tokens) == Revokes(a, tokens[..last]) + [Revoked(tokens[last], a.revoke(last).None?)];
      CollectAppend(WasRevoked(), Revokes(a, tokens[..last]), [Revoked(tokens[last], a.revoke(last).None?)]);
      RevokesAreRevoked(a, tokens[..last]);
      assert tokens == tokens[..last] + [tokens[last]];
    }
  }

  lemma {:induction false} ConfirmsOnly(a: Answers, tokens: seq<Issued>)
    ensures forall i :: 0 <= i < |Confirms(a, tokens)| ==> Confirms(a, tokens)[i].Confirmed?
    decreases |tokens|
  {
    if tokens != [] { ConfirmsOnly(a, tokens[..|tokens| - 1]); }
  }

  lemma CollectParts(view: View, a: Answers, x: Exchange, persistent: bool)
    ensures Collect(view, Using(a, x, persistent))
         == Collect(view, if x.Received? then Reads(Tokens(x.payload)) else [])
            + Collect(view, Persisting(a, x, persistent)) + Collect(view, Operating(a, x, persistent))
  {
    var readings := if x.Received? then Reads(Tokens(x.payload)) else [];
    CollectAppend(view, readings, Persisting(a, x, persistent));
    CollectAppend(view, readings + Persisting(a, x, persistent), Operating(a, x, persistent));
  }

  lemma CollectFromUse(a: Answers, x: Exchange, persistent: bool)
    ensures Collect(WasRead(), Using(a, x, persistent)) == if x.Received? then Tokens(x.payload) else []
    ensures Collect(WasRevoked(), Using(a, x, persistent)) == []
    ensures Collect(WasKept(), Using(a, x, persistent))
         == if persistent && Granting(a, x, persistent).Granted? then [Issued(x.payload.refresh.token, Refresh)] else []
  {
    hide Using, Collect, Granting, Tokens;
    CollectParts(WasRead(), a, x, persistent);
    CollectParts(WasRevoked(), a, x, persistent);
    CollectParts(WasKept(), a, x, persistent);
    var readings := if x.Received? then Reads(Tokens(x.payload)) else [];
    if x.Received? { ReadsAreRead(Tokens(x.payload)); }
    CollectNothing(WasRevoked(), readings);
    CollectNothing(WasKept(), readings);
    CollectNothing(WasRead(), Persisting(a, x, persistent));
    CollectNothing(WasRevoked(), Persisting(a, x, persistent));
    CollectNothing(WasRead(), Operating(a, x, persistent));
    CollectNothing(WasRevoked(), Operating(a, x, persistent));
    CollectNothing(WasKept(), Operating(a, x, persistent));
    KeptByPersisting(a, x, persistent);
  }

  lemma KeptByPersisting(a: Answers, x: Exchange, persistent: bool)
    ensures Collect(WasKept(), Persisting(a, x, persistent))
         == if persistent && Granting(a, x, persistent).Granted? then [Issued(x.payload.refresh.token, Refresh)] else []
  {
    var persists := Persisting(a, x, persistent);
    if persists != [] { assert persists[1..] == []; }
  }

  lemma CollectFromCleaning(a: Answers, tokens: seq<Issued>)
    ensures Collect(WasRead(), Cleaning(a, tokens)) == []
    ensures Collect(WasRevoked(), Cleaning(a, tokens)) == tokens
    ensures Collect(WasKept(), Cleaning(a, tokens)) == []
  {
    ConfirmsOnly(a, tokens);
    RevokesAreRevoked(a, tokens);
    CollectNothing(WasRead(), Cleaning(a, tokens));
    CollectNothing(WasKept(), Cleaning(a, tokens));
    CollectNothing(WasRevoked(), Confirms(a, tokens));
    CollectAppend(WasRevoked(), Revokes(a, tokens), Confirms(a, tokens));
  }

  /** Every token read is revoked once or kept once, and no token is read twice. */
  ghost predicate Balanced(log: seq<Event>) {
    var read := Collect(WasRead(), log);
    && multiset(read) == multiset(Collect(WasRevoked(), log)) + multiset(Collect(WasKept(), log))
    && forall i, j :: 0 <= i < j < |read| ==> read[i] != read[j]
  }

  lemma OutstandingBalances(a: Answers, x: Exchange, persistent: bool)
    requires x.Received?
    ensures
      multiset(Tokens(x.payload)) == multiset(Outstanding(a, x, persistent))
        + if persistent && Granting(a, x, persistent).Granted?
          then multiset{Issued(x.payload.refresh.token, Refresh)} else multiset{}
    ensures
      var tokens := Tokens(x.payload);
      forall i, j :: 0 <= i < j < |tokens| ==> tokens[i] != tokens[j]
  {
  }

  /** A log whose token events are those of using the response and then cleaning up. */
  ghost predicate UsesAndCleans(a: Answers, x: Exchange, persistent: bool, log: seq<Event>) {
    var use, clean := Using(a, x, persistent), Cleaning(a, Outstanding(a, x, persistent));
    && Collect(WasRead(), log) == Collect(WasRead(), use) + Collect(WasRead(), clean)
    && Collect(WasRevoked(), log) == Collect(WasRevoked(), use) + Collect(WasRevoked(), clean)
    && Collect(WasKept(), log) == Collect(WasKept(), use) + Collect(WasKept(), clean)
  }

  lemma CollectAround(view: View, open: seq<Event>, use: seq<Event>, close: seq<Event>, clean: seq<Event>)
    requires Collect(view, open) == [] && Collect(view, close) == []
    ensures Collect(view, open + use + close + clean) == Collect(view, use) + Collect(view, clean)
  {
    hide Collect;
    CollectAppend(view, open, use);
    CollectAppend(view, open + use, close);
    CollectAppend(view, open + use + close, clean);
  }

  lemma UseAndCleaningBalance(a: Answers, x: Exchange, persistent: bool, log: seq<Event>)
    requires UsesAndCleans(a, x, persistent, log)
    ensures Balanced(log)
    ensures Collect(WasKept(), log) != [] <==> persistent && Granting(a, x, persistent).Granted?
    ensures x.Received? ==> Collect(WasRead(), log) == Tokens(x.payload)
    ensures Collect(WasRevoked(), log) == Outstanding(a, x, persistent)
  {
    hide Using, Cleaning, Collect;
    CollectFromUse(a, x, persistent);
    CollectFromCleaning(a, Outstanding(a, x, persistent));
    assert Collect(WasRead(), log) == Collect(WasRead(), Using(a, x, persistent)) + [];
    assert Collect(WasRevoked(), log) == [] + Outstanding(a, x, persistent);
    assert Collect(WasKept(), log) == Collect(WasKept(), Using(a, x, persistent)) + [];
    if x.Received? { OutstandingBalances(a, x, persistent); }
  }

  lemma AuthorizationUsesAndCleans(a: Answers, persistent: bool)
    ensures UsesAndCleans(a, Opening(a), persistent, AuthorizationTrace(a, persistent))
  {
    var x := Opening(a);
    var open := if a.listen.None? then [Listening] else [];
    var use := Using(a, x, persistent);
    var close := if a.listen.None? then [Closed] else [];
    var clean := Cleaning(a, Outstanding(a, x, persistent));
    assert AuthorizationTrace(a, persistent) == open + use + close + clean;
    hide Using, Cleaning, AuthorizationTrace, Collect, Outstanding, Opening;
    ListenerIsUnseen(WasRead(), open, close);
    ListenerIsUnseen(WasRevoked(), open, close);
    ListenerIsUnseen(WasKept(), open, close);
    CollectAround(WasRead(), open, use, close, clean);
    CollectAround(WasRevoked(), open, use, close, clean);
    CollectAround(WasKept(), open, use, close, clean);
  }

  lemma ListenerIsUnseen(view: View, open: seq<Event>, close: seq<Event>)
    requires view(Listening).None? && view(Closed).None?
    requires (open == [] || open == [Listening]) && (close == [] || close == [Closed])
    ensures Collect(view, open) == [] && Collect(view, close) == []
  {
    CollectNothing(view, open);
    CollectNothing(view, close);
  }

  /** However the authorization ends, its ledger balances. */
  lemma AuthorizationLedgerBalances(a: Answers, persistent: bool)
    ensures Balanced(AuthorizationTrace(a, persistent))
    ensures Collect(WasKept(), AuthorizationTrace(a, persistent)) != [] <==>
              persistent && ReportOf(a, Opening(a), persistent).authorization.Granted?
  {
    hide Balanced, Collect, UsesAndCleans, AuthorizationTrace;
    AuthorizationUsesAndCleans(a, persistent);
    UseAndCleaningBalance(a, Opening(a), persistent, AuthorizationTrace(a, persistent));
  }

  lemma RefreshUsesAndCleans(a: Answers)
    ensures UsesAndCleans(a, Refreshing(a), true, RefreshTrace(a))
  {
    hide Collect, Using, Cleaning, Outstanding, Refreshing;
    var use, clean := Using(a, Refreshing(a), true), Cleaning(a, Outstanding(a, Refreshing(a), true));
    CollectAppend(WasRead(), use, clean);
    CollectAppend(WasRevoked(), use, clean);
    CollectAppend(WasKept(), use, clean);
  }

  /** However the refreshed session ends, its ledger balances. */
  lemma RefreshLedgerBalances(a: Answers)
    ensures Balanced(RefreshTrace(a))
    ensures Collect(WasKept(), RefreshTrace(a)) != [] <==> ReportOf(a, Refreshing(a), true).authorization.Granted?
  {
    hide Balanced, Collect, UsesAndCleans, RefreshTrace;
    RefreshUsesAndCleans(a);
    UseAndCleaningBalance(a, Refreshing(a), true, RefreshTrace(a));
  }

  /** The text of the token is sent to revocation, as whatever kind. */
  ghost predicate TextRevoked(log: seq<Event>, token: string) {
    exists kind :: Issued(token, kind) in Collect(WasRevoked(), log)
  }

  lemma OnlyAccessRevoked(log: seq<Event>, payload: Payload)
    requires payload.Payload? && payload.access.Usable? && payload.refresh.Usable?
    requires Collect(WasRevoked(), log) == [Issued(payload.access.token, Access)]
    ensures TextRevoked(log, payload.refresh.token) <==> payload.access.token == payload.refresh.token
  {
    if payload.access.token == payload.refresh.token {
      assert Issued(payload.refresh.token, Access) in Collect(WasRevoked(), log);
    }
  }

  /** The text of the kept refresh token is revoked after all exactly when the access token has the same text. */
  lemma KeptTextRevokedExactly(a: Answers, persistent: bool)
    requires persistent && ReportOf(a, Opening(a), persistent).authorization.Granted?
    ensures
      var payload := Opening(a).payload;
      TextRevoked(AuthorizationTrace(a, persistent), payload.refresh.token) <==> payload.access.token == payload.refresh.token
  {
    hide Balanced, Collect, UsesAndCleans, AuthorizationTrace, TextRevoked;
    AuthorizationUsesAndCleans(a, persistent);
    UseAndCleaningBalance(a, Opening(a), persistent, AuthorizationTrace(a, persistent));
    OnlyAccessRevoked(AuthorizationTrace(a, persistent), Opening(a).payload);
  }

  /** The same in a refreshed session. */
  lemma RefreshedTextRevokedExactly(a: Answers)
    requires ReportOf(a, Refreshing(a), true).authorization.Granted?
    ensures
      var payload := Refreshing(a).payload;
      TextRevoked(RefreshTrace(a), payload.refresh.token) <==> payload.access.token == payload.refresh.token
  {
    hide Balanced, Collect, UsesAndCleans, RefreshTrace, TextRevoked;
    RefreshUsesAndCleans(a);
    UseAndCleaningBalance(a, Refreshing(a), true, RefreshTrace(a));
    OnlyAccessRevoked(RefreshTrace(a), Refreshing(a).payload);
  }

  // ---------------------------------------------------------------- the report on revocation

  lemma {:induction false} NoRevokeError(a: Answers, tokens: seq<Issued>)
    ensures RevokeError(a, |tokens|).None? <==> forall i :: 0 <= i < |tokens| ==> Revoked(tokens[i], true) == Revokes(a, tokens)[i]
    decreases |tokens|
  {
    if tokens != [] {
      var last := |tokens| - 1;
      NoRevokeError(a, tokens[..last]);
      assert forall i :: 0 <= i < last ==> Revokes(a, tokens[..last])[i] == Revokes(a, tokens)[i] && tokens[..last][i] == tokens[i];
      assert Revokes(a, tokens)[last] == Revoked(tokens[last], a.revoke(last).None?);
    }
  }

  lemma {:induction false} NoConfirmError(a: Answers, tokens: seq<Issued>)
    ensures ConfirmError(a, tokens).None? <==>
      forall i :: 0 <= i < |tokens| && tokens[i].kind.Access? ==> a.confirm(i).None?
    decreases |tokens|
  {
    if tokens != [] {
      NoConfirmError(a, tokens[..|tokens| - 1]);
    }
  }

  lemma {:induction false} ConfirmedWhen(a: Answers, tokens: seq<Issued>, i: nat)
    requires i < |tokens| && tokens[i].kind.Access?
    ensures Confirmed(tokens[i].token, a.confirm(i).None?) in Confirms(a, tokens)
    decreases |tokens|
  {
    if i < |tokens| - 1 {
      assert tokens[..|tokens| - 1][i] == tokens[i];
      ConfirmedWhen(a, tokens[..|tokens| - 1], i);
    }
  }

  /** At most one access token is ever outstanding, and it comes first. */
  predicate AccessFirst(tokens: seq<Issued>) {
    forall i :: 0 < i < |tokens| ==> !tokens[i].kind.Access?
  }

  /**
   "Revoked" is reported exactly when there was a token to revoke, every revocation succeeded, and every
   access token was then confirmed to be rejected.
   */
  lemma RevokedReportedExactly(a: Answers, x: Exchange, persistent: bool)
    ensures
      var tokens := Outstanding(a, x, persistent);
      ReportOf(a, x, persistent).revocation.AllRevoked? <==>
        && tokens != []
        && forall i :: 0 <= i < |tokens| ==>
             && Revoked(tokens[i], true) in Cleaning(a, tokens)
             && (tokens[i].kind.Access? ==> Confirmed(tokens[i].token, true) in Cleaning(a, tokens))
  {
    var tokens := Outstanding(a, x, persistent);
    NoRevokeError(a, tokens);
    NoConfirmError(a, tokens);
    ConfirmsOnly(a, tokens);
    if ReportOf(a, x, persistent).revocation.AllRevoked? {
      forall i | 0 <= i < |tokens|
        ensures Revoked(tokens[i], true) in Cleaning(a, tokens)
        ensures tokens[i].kind.Access? ==> Confirmed(tokens[i].token, true) in Cleaning(a, tokens)
      {
        assert Revokes(a, tokens)[i] == Revoked(tokens[i], true);
        if tokens[i].kind.Access? { ConfirmedWhen(a, tokens, i); }
      }
    } else if tokens != [] {
      OutstandingBalances(a, x, persistent);
      FailureShows(a, tokens);
    }
  }

  /** With the tokens apart, a failed request leaves no successful one for the same token. */
  lemma FailureShows(a: Answers, tokens: seq<Issued>)
    requires tokens != [] && AccessFirst(tokens) && Revoking(a, tokens).RevocationFailed?
    requires forall i, j :: 0 <= i < j < |tokens| ==> tokens[i] != tokens[j]
    ensures !forall i :: 0 <= i < |tokens| ==>
      && Revoked(tokens[i], true) in Cleaning(a, tokens)
      && (tokens[i].kind.Access? ==> Confirmed(tokens[i].token, true) in Cleaning(a, tokens))
  {
    NoRevokeError(a, tokens);
    NoConfirmError(a, tokens);
    ConfirmsOnly(a, tokens);
    hide RevokeError, ConfirmError, Confirms;
    if RevokeError(a, |tokens|).Some? {
      var i :| 0 <= i < |tokens| && Revoked(tokens[i], true) != Revokes(a, tokens)[i];
      assert Revoked(tokens[i], true) !in Cleaning(a, tokens);
    } else {
      var i :| 0 <= i < |tokens| && tokens[i].kind.Access? && a.confirm(i).Some?;
      assert i == 0;
      OneConfirm(a, tokens);
      assert Confirmed(tokens[0].token, true) !in Cleaning(a, tokens);
    }
  }

  lemma {:induction false} OneConfirm(a: Answers, tokens: seq<Issued>)
    requires tokens != [] && AccessFirst(tokens) && tokens[0].kind.Access?
    ensures Confirms(a, tokens) == [Confirmed(tokens[0].token, a.confirm(0).None?)]
    decreases |tokens|
  {
    if |tokens| > 1 {
      OneConfirm(a, tokens[..|tokens| - 1]);
    } else {
      assert tokens[..0] == [];
    }
  }

  lemma OperatedInUse(a: Answers, x: Exchange, persistent: bool)
    ensures Operated in Using(a, x, persistent) <==> Granting(a, x, persistent).Granted?
    ensures forall i :: 0 <= i < |Using(a, x, persistent)| ==> !Using(a, x, persistent)[i].Revoked?
  {
    var readings := if x.Received? then Reads(Tokens(x.payload)) else [];
    assert Operated !in readings && Operated !in Persisting(a, x, persistent);
    hide Granting, Tokens;
    var use := readings + Persisting(a, x, persistent) + Operating(a, x, persistent);
    forall i | 0 <= i < |use| ensures !use[i].Revoked? {
      assert use[i] in readings || use[i] in Persisting(a, x, persistent) || use[i] in Operating(a, x, persistent);
    }
  }

  /** The operation runs exactly when access was granted, and then before any token is revoked. */
  lemma OperationPrecedesRevocation(a: Answers, persistent: bool)
    ensures
      var log := AuthorizationTrace(a, persistent);
      && (Operated in log <==> ReportOf(a, Opening(a), persistent).authorization.Granted?)
      && forall i, j :: 0 <= i < |log| && 0 <= j < |log| && log[i].Operated? && log[j].Revoked? ==> i < j
  {
    var x := Opening(a);
    OperatedInUse(a, x, persistent);
    ConfirmsOnly(a, Outstanding(a, x, persistent));
    hide Using, Confirms, Granting, Outstanding, Opening;
    var before := (if a.listen.None? then [Listening] else []) + Using(a, x, persistent)
                  + (if a.listen.None? then [Closed] else []);
    var clean := Cleaning(a, Outstanding(a, x, persistent));
    assert AuthorizationTrace(a, persistent) == before + clean;
    assert forall i :: 0 <= i < |before| ==> !before[i].Revoked?;
    assert forall i :: 0 <= i < |clean| ==> !clean[i].Operated?;
    assert Operated in before <==> Operated in Using(a, x, persistent);
  }
}

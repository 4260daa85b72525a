/**
 When an owner session grants access, what it reports when it does not, and what becomes of each token of the
 response, all read off the outcomes of the awaited steps.
 */
module OwnerSessionOutcomes {
  import opened Options
  import opened OwnerSession

  /** The listener, the registration, the browser and the authorization all came through. */
  predicate Opens(a: Answers) {
    a.listen == None && a.register == None && a.open == None && a.authorize == None
  }

  /** A record with a usable access token of the right lifetime, scope and type, and a refresh token as asked. */
  predicate Suits(x: Exchange, persistent: bool) {
    && x.Received? && x.payload.Payload?
    && x.payload.access.Usable? && x.payload.termsMatch
    && (persistent ==> x.payload.refresh.Usable?)
    && (!persistent ==> x.payload.refresh.Missing?)
  }

  predicate Persists(a: Answers, persistent: bool) {
    persistent ==> a.credentialFits == None && a.persist == None
  }

  /** The report of an operation that ran exactly when access was granted. */
  predicate ReportsOperation(a: Answers, operation: Operation, granted: bool) {
    && (!granted ==> operation == NotRun)
    && (granted && a.operate == None ==> operation == Completed)
    && (granted && a.operate.Some? ==> operation == OperationFailed(a.operate.value))
  }

  /** Access is granted, and the operation runs, exactly when every step before it came through. */
  lemma AuthorizationGrantedExactly(a: Answers, persistent: bool)
    ensures
      var report := ReportOf(a, Opening(a), persistent);
      var granted := Opens(a) && Suits(a.exchange, persistent) && Persists(a, persistent);
      && (report.authorization == Granted <==> granted)
      && (Operated in AuthorizationTrace(a, persistent) <==> granted)
      && ReportsOperation(a, report.operation, granted)
  {
    OperationPrecedesRevocation(a, persistent);
    hide AuthorizationTrace, Outstanding;
  }

  /** The error is that of the first step that failed; a browser that cannot be opened has its own. */
  lemma AuthorizationReportsFirstFailure(a: Answers, persistent: bool)
    ensures
      var authorization := ReportOf(a, Opening(a), persistent).authorization;
      && (a.listen.Some? ==> authorization == Denied(a.listen.value))
      && (a.listen.None? && a.register.Some? ==> authorization == Denied(a.register.value))
      && (a.listen.None? && a.register.None? && a.open.Some? ==> authorization == Denied(BrowserUnavailable))
      && (a.listen.None? && a.register.None? && a.open.None? && a.authorize.Some? ==>
            authorization == Denied(a.authorize.value))
      && (Opens(a) && a.exchange.Lost? ==> authorization == Denied(a.exchange.error))
      && (Opens(a) && a.exchange.Received? && !Suits(a.exchange, persistent) ==> authorization == Denied(InvalidPayload))
      && (Opens(a) && Suits(a.exchange, persistent) && persistent && a.credentialFits.Some? ==>
            authorization == Denied(a.credentialFits.value))
      && (Opens(a) && Suits(a.exchange, persistent) && persistent && a.credentialFits.None? && a.persist.Some? ==>
            authorization == Denied(a.persist.value))
  {
    AuthorizationGrantedExactly(a, persistent);
    hide Outstanding, Revoking;
  }

  /** In a refreshed session the stored credential must be for this installation; nothing else comes before the response. */
  lemma RefreshGrantedExactly(a: Answers)
    requires a.credentialFits == None
    ensures
      var report := ReportOf(a, Refreshing(a), true);
      var granted := a.originMatches && Suits(a.exchange, true) && a.persist == None;
      && (report.authorization == Granted <==> granted)
      && (Operated in RefreshTrace(a) <==> granted)
      && ReportsOperation(a, report.operation, granted)
  {
    var x := Refreshing(a);
    OperatedInUse(a, x, true);
    ConfirmsOnly(a, Outstanding(a, x, true));
    hide Using, Confirms, Outstanding;
    assert forall i :: 0 <= i < |Cleaning(a, Outstanding(a, x, true))| ==> !Cleaning(a, Outstanding(a, x, true))[i].Operated?;
    hide Cleaning;
    assert Operated in RefreshTrace(a) <==> Operated in Using(a, x, true);
  }

  lemma RefreshReportsFirstFailure(a: Answers)
    requires a.credentialFits == None
    ensures
      var authorization := ReportOf(a, Refreshing(a), true).authorization;
      && (!a.originMatches ==> authorization == Denied(InvalidPayload))
      && (a.originMatches && a.exchange.Lost? ==> authorization == Denied(a.exchange.error))
      && (a.originMatches && a.exchange.Received? && !Suits(a.exchange, true) ==> authorization == Denied(InvalidPayload))
      && (a.originMatches && Suits(a.exchange, true) && a.persist.Some? ==> authorization == Denied(a.persist.value))
  {
    RefreshGrantedExactly(a);
    hide Outstanding, Revoking;
  }

  // ---------------------------------------------------------------- every token of the response

  ghost predicate SentToRevocation(log: seq<Event>, issued: Issued) {
    exists ok :: Revoked(issued, ok) in log
  }

  lemma {:induction false} CollectedIsThere(log: seq<Event>, issued: Issued)
    ensures issued in Collect(WasRevoked(), log) ==> SentToRevocation(log, issued)
    ensures issued in Collect(WasKept(), log) ==> Persisted(issued.token, true) in log
    decreases |log|
  {
    if log != [] {
      CollectedIsThere(log[1..], issued);
      if SentToRevocation(log[1..], issued) {
        var ok :| Revoked(issued, ok) in log[1..];
        assert Revoked(issued, ok) in log;
      }
      if log[0].Revoked? && log[0].issued == issued { assert Revoked(issued, log[0].ok) in log; }
    }
  }

  /**
   Whatever else is wrong with the response, an access token in it is sent to revocation, and so is a refresh
   token, unless access was granted with it kept.
   */
  ghost predicate TokensDealtWith(log: seq<Event>, payload: Payload, kept: bool) {
    && (payload.Payload? && payload.access.Usable? ==> SentToRevocation(log, Issued(payload.access.token, Access)))
    && (payload.Payload? && payload.refresh.Usable? ==>
          if kept then Persisted(payload.refresh.token, true) in log
          else SentToRevocation(log, Issued(payload.refresh.token, Refresh)))
  }

  lemma OutstandingHolds(a: Answers, x: Exchange, persistent: bool)
    requires x.Received? && x.payload.Payload?
    ensures x.payload.access.Usable? ==> Issued(x.payload.access.token, Access) in Outstanding(a, x, persistent)
    ensures x.payload.refresh.Usable? && !(persistent && Granting(a, x, persistent).Granted?) ==>
              Issued(x.payload.refresh.token, Refresh) in Outstanding(a, x, persistent)
  {
  }

  lemma UseDealsWithTokens(a: Answers, x: Exchange, persistent: bool, log: seq<Event>)
    requires x.Received? && UsesAndCleans(a, x, persistent, log)
    ensures TokensDealtWith(log, x.payload, persistent && ReportOf(a, x, persistent).authorization == Granted)
  {
    UseAndCleaningBalance(a, x, persistent, log);
    CollectFromUse(a, x, persistent);
    CollectFromCleaning(a, Outstanding(a, x, persistent));
    assert persistent && Granting(a, x, persistent).Granted? ==>
      Issued(x.payload.refresh.token, Refresh) in Collect(WasKept(), log);
    hide UsesAndCleans, Using, Cleaning, Collect, Revoking, Outstanding, Granting, Tokens, Balanced, SentToRevocation;
    if x.payload.Payload? {
      OutstandingHolds(a, x, persistent);
      if x.payload.access.Usable? { CollectedIsThere(log, Issued(x.payload.access.token, Access)); }
      if x.payload.refresh.Usable? { CollectedIsThere(log, Issued(x.payload.refresh.token, Refresh)); }
    }
  }

  lemma AuthorizationDealsWithTokens(a: Answers, persistent: bool)
    requires Opens(a) && a.exchange.Received?
    ensures TokensDealtWith(AuthorizationTrace(a, persistent), a.exchange.payload,
                            persistent && Suits(a.exchange, true) && Persists(a, true))
  {
    AuthorizationGrantedExactly(a, persistent);
    AuthorizationUsesAndCleans(a, persistent);
    hide UsesAndCleans, AuthorizationTrace, TokensDealtWith, Outstanding, Revoking;
    UseDealsWithTokens(a, a.exchange, persistent, AuthorizationTrace(a, persistent));
  }

  lemma RefreshDealsWithTokens(a: Answers)
    requires a.credentialFits == None && a.originMatches && a.exchange.Received?
    ensures TokensDealtWith(RefreshTrace(a), a.exchange.payload, Suits(a.exchange, true) && a.persist == None)
  {
    RefreshGrantedExactly(a);
    RefreshUsesAndCleans(a);
    hide UsesAndCleans, RefreshTrace, TokensDealtWith, Outstanding, Revoking;
    UseDealsWithTokens(a, a.exchange, true, RefreshTrace(a));
  }

  // ---------------------------------------------------------------- the error of a failed revocation

  /** The first of the requests that failed: any revocation, or the confirmation of an access token. */
  ghost predicate FirstFailure(a: Answers, tokens: seq<Issued>, error: Error) {
    || (exists i :: 0 <= i < |tokens| && RevokesFirst(a, i, error))
    || ((forall j :: 0 <= j < |tokens| ==> a.revoke(j).None?)
        && exists i :: 0 <= i < |tokens| && ConfirmsFirst(a, tokens, i, error))
  }

  ghost predicate RevokesFirst(a: Answers, i: nat, error: Error) {
    a.revoke(i) == Some(error) && forall j :: 0 <= j < i ==> a.revoke(j).None?
  }

  ghost predicate ConfirmsFirst(a: Answers, tokens: seq<Issued>, i: nat, error: Error)
    requires i < |tokens|
  {
    && tokens[i].kind.Access? && a.confirm(i) == Some(error)
    && forall j :: 0 <= j < i && tokens[j].kind.Access? ==> a.confirm(j).None?
  }

  lemma {:induction false} RevokeErrorIsFirst(a: Answers, n: nat)
    ensures RevokeError(a, n).None? <==> forall j :: 0 <= j < n ==> a.revoke(j).None?
    ensures RevokeError(a, n).Some? ==> exists i :: 0 <= i < n && RevokesFirst(a, i, RevokeError(a, n).value)
    decreases n
  {
    if n > 0 {
      RevokeErrorIsFirst(a, n - 1);
      if RevokeError(a, n).Some? && RevokeError(a, n - 1).None? { assert RevokesFirst(a, n - 1, RevokeError(a, n).value); }
    }
  }

  lemma {:induction false} ConfirmErrorIsFirst(a: Answers, tokens: seq<Issued>)
    ensures ConfirmError(a, tokens).None? <==> forall j :: 0 <= j < |tokens| && tokens[j].kind.Access? ==> a.confirm(j).None?
    ensures ConfirmError(a, tokens).Some? ==>
              exists i :: 0 <= i < |tokens| && ConfirmsFirst(a, tokens, i, ConfirmError(a, tokens).value)
    decreases |tokens|
  {
    if tokens != [] {
      var n := |tokens| - 1;
      ConfirmErrorIsFirst(a, tokens[..n]);
      if ConfirmError(a, tokens[..n]).Some? {
        var error := ConfirmError(a, tokens[..n]).value;
        var i :| 0 <= i < n && ConfirmsFirst(a, tokens[..n], i, error);
        assert ConfirmsFirst(a, tokens, i, error);
      } else if ConfirmError(a, tokens).Some? {
        assert ConfirmsFirst(a, tokens, n, ConfirmError(a, tokens).value);
      }
    }
  }

  /** A failed revocation reports the first failure, though every token is tried. */
  lemma RevocationReportsFirstFailure(a: Answers, x: Exchange, persistent: bool)
    ensures
      var revocation, tokens := ReportOf(a, x, persistent).revocation, Outstanding(a, x, persistent);
      revocation.RevocationFailed? ==> FirstFailure(a, tokens, revocation.error)
  {
    var tokens := Outstanding(a, x, persistent);
    hide Outstanding;
    RevokeErrorIsFirst(a, |tokens|);
    ConfirmErrorIsFirst(a, tokens);
  }
}

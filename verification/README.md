# Crewhelm in Dafny

This project models the parts of Crewhelm whose correctness does not show in any one function, and proves
what they promise. `dafny verify dfyconfig.toml` checks everything.

**The Registry's publication protocol** (`registry_*.dfy`, `object_keys.dfy`). Any number of `publishBundle`
calls and maintenance passes interleave over a SQL store with atomic batches and an object store with
put-if-absent, head and delete; any of them may stop between two steps, and a batch or a call may apply although its
reply is lost. `RegistryTables` holds the tables, one function per statement and, per batch, a guard made of its keys
and CHECK constraints. `RegistryRuns` makes a step machine of every run, with its program counter and the clock
readings it keeps; a whole run of the system is a list of labels. `RegistryLedger` states the invariants,
`RegistryInvariant` proves them and the results that need no clock, `RegistryTiming` to `RegistryStorage` and
`RegistryTouch` those that need bounded lifetimes, and `RegistryLoss` and `RegistryRace` what is false without a
further guard. `RegistryService`, `RegistryPublish` and `RegistryCleanup` are the two procedures as the program writes them, statement by statement and
loop by loop over shared state; they are proved to be runs of the step machine whatever the other runs do between
their statements, so every result about all runs holds of them; `PublishBundle` states what its caller gains.
`RegistryAcceptance` and `RegistrySweep` say what an undisturbed request and an undisturbed pass come to, with the exact
condition under which a request is accepted.

**Values and text.** `CanonicalJson*` models the canonical printer over UTF-16 code units, with a parser for what it
prints, `CanonicalJsonText` the exact text of its strings and `CanonicalJsonTies` what it makes of keys that compare
equal; `SecretScan` the worklist search; `FileSource*` what exposing file sources does to the arguments a tool's schema
accepts, `FileStaging` and `FileStagingPaths` what staging them does to the arguments; `SearchQueries` and `SearchWords`
what normalising keeps of a query, and `SearchCache` the cache key of a search.

**Machines.** `OwnerSession` with `OwnerSessionOutcomes` (OAuth tokens), `AiGateway` (apply and recover),
`DeploymentStability` (the sampling loop), `ProcessRunner` (a child process and its promise), `SandboxPurge` with
`SandboxProgress` and `SandboxGate` (a purge through crashes and redelivered alarms) and `SqlIdentifiers` (the names it
quotes). Awaited calls, provider replies, timers and the clock are inputs that may take any value.

## Hypotheses and findings

- *Lifetimes.* The results in `RegistryStorage` assume that a publisher lives at most L seconds and a maintenance pass
  at most M, with 2L <= 3600 and M <= 3600 (`Limits.Sufficient`). The results in `RegistryInvariant` assume no timing.
- *Published implies stored fails as the code stands.* `publishBundle` checks versions and reserves in separate
  statements, and nothing in the migrations keeps a reservation off coordinates that were published in between. Two
  requests with the same artifacts under two idempotency keys can leave the loser's intent holding the winner's object
  key, and cleanup then deletes a published object: `RegistryRace.PublishedObjectIsLost` gives the run. The property
  holds exactly when every reservation avoids published object keys: `RegistryStorage.PublishedVersionsAreStored` and
  `RegistryLoss.GuardIsExact`.
- *The quota never overshoots.* The quota is read before the reservation, but `publisher_daily_usage` carries CHECK
  constraints, so the reservation batch itself cannot pass it.
- *A late touch may come with an old time.* A publisher touches its intent with a time it read earlier. Under the
  lifetimes a touch after a pass's selection always defeats the quarantine; without them it does exactly when the time
  it writes is at most 3600 seconds before the pass's own reading, and `RegistryTouch.StaleTouchComesTooLate` is a run
  where it is older.
- *The canonical printer decides equality on a value exactly when no record in it has two keys that compare equal.*
  `localeCompare` compares some distinct strings as equal; such keys keep their input order.
- *Exposing file sources loses arguments* when a mark stands under an odd number of `not`s, when a record of properties
  has a property called `file_uploadable` whose schema is `true`, and when a marked record stands inside a plain
  keyword such as `enum`, which is rewritten too. Each has its witness. The exposed schema's meaning is stated exactly
  for every schema, and without these three kinds of mark no argument is lost.
- *Staging drops members called `__proto__`,* because they are assigned on a plain object. It is the identity on
  source-free values exactly when there is no such member.
- *A kept refresh token is revoked after all* exactly when the provider issued the same text as access token.
- *A purge could be forgotten* if other events were let in during storage operations; the platform's input gate is what
  prevents it.

## Model

| member | source | states |
|---|---|---|
| RegistryInvariant.VersionsAreOneToLatest | apps/registry/src/registry.ts:288-304 | in every reachable state the committed versions of an identity are exactly 1 to the latest, though the check and the insert are separate steps |
| RegistryInvariant.DependenciesNamePublishedSkills | apps/registry/src/registry.ts:306-352 | every dependency row names a published skill with the same coordinates and digest, bundled or published earlier |
| RegistryInvariant.CommitsHappenOnce | apps/registry/src/registry.ts:619-655 | at most one commit per user and idempotency key; exactly the committed keys have a stored result, and its artifacts are all published |
| RegistryInvariant.ReturnsAgree | apps/registry/src/registry.ts:218-243 | two successful returns for one key, anywhere in a run and on any return path, carry the same request and the same result |
| RegistryInvariant.UsageIsReservedAndBounded | apps/registry/src/registry.ts:364-399 | recorded daily usage is the sum of the reservations that applied, and never passes 50 artifacts or 10 MiB |
| RegistryInvariant.ResumptionNeverConflicts | apps/registry/src/registry.ts:495-511 | a run that finds its pending intent takes over its stored result without conflict and adds no usage |
| RegistryInvariant.PhasesNeverGoBack | apps/registry/src/registry.ts:695-706 | over any stretch of any run one incarnation of an intent never returns to an earlier phase |
| RegistryInvariant.StepKeepsLedger | apps/registry/src/registry.ts:479-737 | every step of every run, with any reply, keeps the ledger of all tables and runs |
| RegistryInvariant.CleanersActLongAfterTouch | apps/registry/src/registry.ts:702-731 | with no timing hypothesis, while the incarnation a pass claimed exists, its last touch is over 7200 seconds before the pass's reading |
| RegistryStatements.ReserveKeepsTables | apps/registry/src/registry.ts:354-418 | the reservation batch keeps every table invariant and moves no incarnation back |
| RegistryStatements.CommitKeepsTables | apps/registry/src/registry.ts:581-656 | the commit batch keeps every table invariant, given the facts its run has checked |
| RegistryStorage.StoredObjectsAreAccounted | apps/registry/src/registry.ts:708-731 | under bounded lifetimes each stored object is published or listed by an existing intent, at whatever step runs stopped |
| RegistryStorage.PublishedVersionsAreStored | apps/registry/src/registry.ts:420-456 | under bounded lifetimes, when no reservation takes a published key, every published version has its object with its digest |
| RegistryStorage.LivePublishersKeepTheirIntent | apps/registry/src/registry.ts:436-456 | under bounded lifetimes a live publisher past its reservation has its artifacts published or its own intent still open |
| RegistryStorage.CleanersDeleteOnlyTheirIncarnation | apps/registry/src/registry.ts:702-731 | a deleting cleaner alone holds the lease and incarnation it claimed, over 7200 seconds after the last touch, and deletes only that intent's keys |
| RegistryTouch.TouchDefeatsQuarantine | apps/registry/src/registry.ts:245-273 | under bounded lifetimes a touch or claim between a pass's selection and its quarantine update of that key defeats the update, whatever other steps come between |
| RegistryTouch.TouchDefeatsExactly | apps/registry/src/registry.ts:695-700 | in every run, while the intent stands as the touch left it, the touch defeats the update exactly when the time it wrote is at most 3600 seconds before the pass's reading |
| RegistryTouch.StaleTouchComesTooLate | apps/registry/src/registry.ts:403-414 | a run, outside the lifetimes, in which a touch with an old reading comes between selection and update and the intent is quarantined all the same |
| RegistryTimedSteps.StepKeepsTiming | apps/registry/src/maintenance.ts:12-23 | under bounded lifetimes every step keeps the holders of intents, the leases of cleaners and the account of stored objects |
| RegistryLoss.GuardIsExact | apps/registry/src/registry.ts:512-548 | after any good run, a step keeps published-implies-stored through every timely guarded continuation exactly when it is not a reservation of a published key |
| RegistryRace.UnguardedReservationHappens | apps/registry/src/registry.ts:512-548 | a timely run reaches a state in which such a reservation is the next step |
| RegistryRace.PublishedObjectIsLost | apps/registry/src/registry.ts:512-548 | bounded lifetimes alone do not give published-implies-stored: a run that deletes a published object |
| RegistryPublish.PublishBundle | apps/registry/src/registry.ts:479-657 | under any interference a publication is one run of the step machine; when it returns, its key was committed once, with this result, all artifacts are published, and every run that has returned for the key has returned the same; when it fails, the tables its last statement saw justify the error |
| RegistryAcceptance.AcceptedExactly | apps/registry/src/registry.ts:479-657 | from every reachable state an undisturbed request returns exactly when its key was committed with the same bundle, or every version is one above the highest, every content new, every dependency bundled or published with its digest, and its own intent is pending or key, coordinates and quota are free; it returns one envelope per artifact and leaves exactly its versions, dependencies, objects and usage; refused, it publishes nothing |
| RegistryAcceptance.UndisturbedEnds | apps/registry/src/registry.ts:479-657 | every such request can be carried to its end |
| RegistryService.World.DependencyIsAvailable | apps/registry/src/registry.ts:319-350 | a dependency is available exactly when it names this registry and its skill is bundled with that digest, or not bundled and published with it |
| RegistryPublish.AssertVersions | apps/registry/src/registry.ts:288-304 | the version loop takes only steps of its run, and fails only when the tables show a version that is not one above the latest; what all runs keep holds after it |
| RegistryPublish.AssertDependencies | apps/registry/src/registry.ts:306-352 | the dependency loop takes only steps of its run; each dependency was bundled, or published with its digest, in a state passed on the way, and the loop fails at the first that was neither |
| RegistryPublish.ReservePublication | apps/registry/src/registry.ts:514-561 | quota read, reservation and recovery by touch take only steps of the run, ending at its first put, or stopped with an error the tables justify |
| RegistryPublish.StoreObjects | apps/registry/src/registry.ts:420-434 | the put and head loop takes only steps of its run, and fails only on a key without an object of its digest |
| RegistryPublish.Finalize | apps/registry/src/registry.ts:563-656 | claim, commit and both recoveries take only steps of the run, ending in its return, or stopped with an error the tables justify |
| RegistryCleanup.CleanClaimed | apps/registry/src/registry.ts:708-734 | deleting a claimed intent's objects and then the intent, with any call failing, takes only steps of the pass |
| RegistryCleanup.CleanupExpiredPublishIntents | apps/registry/src/registry.ts:659-737 | under any interference a pass is one run of the cleaner machine; it selects the oldest expired intents of a state it passed, none of them stays what it was selected for, and its count, at most the maximum kept between 1 and 25, is of those that had left the pass |
| RegistryService.Expired | apps/registry/src/registry.ts:667-691 | the selection holds distinct expired intents in the order of their last touch: all of them, or the first ones up to the limit |
| RegistrySweep.PassSweepsChosen | apps/registry/src/registry.ts:659-737 | an undisturbed pass deals with the 25 oldest expired intents, or all, and no other: abandoned uploads are quarantined at its reading, lapsed intents are gone with their rows and objects, and nothing else changes |
| RegistrySweep.PassSweepsAll | apps/registry/src/registry.ts:659-737 | with at most 25 expired intents none is left: every abandoned one is in quarantine, every lapsed one is gone with its rows and objects, all others and their objects stay |
| RegistrySweep.UndisturbedPassEnds | apps/registry/src/registry.ts:659-737 | every such pass can be carried to its end |
| RegistryCleanup.RunRegistryMaintenance | apps/registry/src/maintenance.ts:12-23 | the pass works with the one clock reading taken before anything is selected |
| ObjectKeys.RenderIsInjective | apps/registry/src/packages.ts:38-41 | object keys of slash-free coordinates are equal as text exactly when kind, namespace, name, version and digest are |
| CanonicalJson.PrintIsRender | packages/composio/src/trigger-instances.ts:145-167 | the printer either throws or prints the plain rendering of the key-sorted value |
| CanonicalJsonParser.ValueRoundTrip | packages/composio/src/trigger-instances.ts:145-167 | parsing a rendered value, whatever follows it, gives the value back |
| CanonicalJsonEquality.ParsePrinted | packages/composio/src/trigger-instances.ts:145-167 | parsing what was printed gives the key-sorted value |
| CanonicalJsonText.PrintsShortestSpelling | packages/composio/src/trigger-instances.ts:145-167 | a unit of a string is printed in the shortest of its spellings, halves of surrogate pairs and other long escapes with lower-case digits |
| CanonicalJsonText.PrintedIsPaired | packages/composio/src/trigger-instances.ts:145-167 | a printed string never holds half a surrogate pair, whatever was printed |
| CanonicalJsonText.PrintedAsIsExactly | packages/composio/src/trigger-instances.ts:145-167 | a string is printed as it is exactly when it holds no forbidden unit and no half of a pair |
| CanonicalJsonEquality.ThrowsExactly | packages/composio/src/trigger-instances.ts:166 | the printer throws exactly on values holding undefined items or numbers that are not finite |
| CanonicalJsonEquality.CanonicalDecides | packages/composio/src/trigger-instances.ts:158-164 | a value without tied keys has the same key-sorted form as another exactly when they are equal up to key order |
| CanonicalJsonTies.DecidesExactlyWithoutTies | packages/composio/src/trigger-instances.ts:145-167 | for any comparison and any printable value: it prints like another exactly when they are equal, for every other value, if and only if no record in it has two keys that compare equal |
| CanonicalJsonTies.TiesPrintApart | packages/composio/src/trigger-instances.ts:159-163 | a value with tied keys, at any depth, has an equal one that prints differently |
| CanonicalJsonTies.SortIsStable | packages/composio/src/trigger-instances.ts:161 | sorting keeps the order of keys that compare equal |
| CanonicalJsonEquality.UntiedPrintDecides | packages/composio/src/trigger-instances.ts:145-167 | a value without ties prints like another exactly when they are equal up to key order |
| CanonicalJsonEquality.PrintDecidesEquality | packages/composio/src/trigger-instances.ts:145-167 | under a comparison that separates keys this holds of every value |
| CanonicalJsonTies.UnseparatedKeysPrintApart | packages/composio/src/trigger-instances.ts:161 | two distinct keys that compare equal give two equal records that print differently |
| CanonicalJsonTies.DecidesExactlyWhenSeparating | packages/composio/src/trigger-instances.ts:161 | the printer decides equality for all values exactly when the comparison separates distinct keys |
| SecretScan.ContainsSecret | packages/composio/src/trigger-instances.ts:123-143 | the worklist search finds the secret exactly when it occurs at some depth, and terminates; with `keysToo` false it is the variant of packages/composio/src/execution.ts:194-214 |
| FileSourceSchemas.ExposureMeansStaging | packages/composio/src/execution.ts:358-375 | for every schema, the exposed schema accepts exactly what the original does when uploadable schemas accept file sources too, plain keywords are exposed, and a marked record of properties is replaced |
| FileSourceAcceptance.WellPlacedMarksAddSources | packages/composio/src/execution.ts:358-375 | when marks stand on schemas only, exposure adds file sources where they may be uploaded and nothing else |
| FileSourceAcceptance.ReadingsCompare | packages/composio/src/execution.ts:358-375 | what two readings accept compares as the sources they know, the other way round under each `not` |
| FileSourceAcceptance.AcceptedStaysAccepted | packages/composio/src/execution.ts:358-375 | when marks stand on schemas only and none under an odd number of `not`s, every argument accepted before exposure is accepted after it |
| FileSourceAcceptance.NegationFreeAllowsMarks | packages/composio/src/execution.ts:358-375 | negation-free schemas have no mark under an odd number of `not`s |
| FileSourceAcceptance.SourceFreeArgumentsUnaffected | packages/composio/src/execution.ts:358-375 | arguments holding no file source are accepted after exposure exactly when they were before, negations included |
| FileSourceSchemas.UploadableAcceptsSources | packages/composio/src/execution.ts:366-374 | an uploadable schema accepts every file source once exposed |
| FileSourceRecord.FileSourcesExactly | packages/composio/src/execution.ts:328-356 | read by JSON Schema, the schema of a file source accepts exactly the records of a media type, a file name and a URL within their bounds, all three and nothing else |
| FileSourceSchemas.ExposureSaysSo | packages/composio/src/execution.ts:366-374 | an exposed uploadable schema keeps its description, says that a file source will do, and offers that schema |
| FileSourceLosses.NegationLosesArguments | packages/composio/src/execution.ts:358-375 | under a negation every file source is accepted before exposure and refused after it |
| FileSourceLosses.MarkedPropertiesLoseArguments | packages/composio/src/execution.ts:366 | a property called `file_uploadable` with schema `true` makes exposure replace the record of properties and lose an argument |
| FileSourceLosses.MarkedEnumLosesArguments | packages/composio/src/execution.ts:362-366 | a marked record inside an `enum` is rewritten, and the value it listed is refused after exposure |
| FileStaging.StagingContext.StageFileSources | packages/composio/src/execution.ts:653-676 | the recursive walk with its shared count comes to one pass over the sources in depth-first order and the rewritten value |
| FileStaging.StagingContext.StageItems | packages/composio/src/execution.ts:665-669 | the loop over items does the same for an array |
| FileStaging.StagingContext.StageMembers | packages/composio/src/execution.ts:671-675 | the loop over members does the same for a record |
| FileStaging.StagedRecordHolds | packages/composio/src/execution.ts:650 | a staged file is given to the provider by its type, its name and the key it is stored under |
| FileStagingPaths.StagedAtPath | packages/composio/src/execution.ts:653-676 | at every path that enters no source and no `__proto__`, the k-th source has become the record of its file under the k-th stored key, and any other value is what it was but for its parts |
| FileStagingPaths.StagedHasNoOtherPath | packages/composio/src/execution.ts:653-676 | the staged value has no paths but those of the original and those inside staged records |
| FileStagingPaths.EverySourceReplaced | packages/composio/src/execution.ts:653-676 | each source has such a path, and unless it is under `__proto__` the record of its file stands there |
| FileStagingPaths.NumberedInOrder | packages/composio/src/execution.ts:666-674 | sources are numbered in depth-first order of their paths |
| FileStaging.StagingSucceedsExactly | packages/composio/src/execution.ts:657-664 | staging succeeds exactly when at most four sources are staged in all and every one is stored |
| FileStaging.RequestsFollowTheSources | packages/composio/src/execution.ts:657-664 | however staging ends, the requests made are a prefix of the sources, never more than four |
| FileStaging.StagingIsIdentityOffSources | packages/composio/src/execution.ts:670-675 | a source-free value needs no request, cannot fail, and is unchanged exactly when no member is called `__proto__` |
| FileStaging.OnlyTooManySourcesFail | packages/composio/src/execution.ts:657-664 | when every upload is stored, staging fails exactly on more than four sources, and otherwise requests each once in order |
| OwnerSession.Session.RunOwnerAuthorization | apps/cli/src/temporary-owner-session.ts:606-849 | for every outcome of every awaited step the events and the report are exactly those of the ledger's functions, whose meaning the rows below give |
| OwnerSession.Session.RunRefreshableOwnerSession | apps/cli/src/temporary-owner-session.ts:867-1029 | the same for a refreshed session |
| OwnerSessionOutcomes.AuthorizationGrantedExactly | apps/cli/src/temporary-owner-session.ts:606-793 | access is granted, and the operation runs, exactly when every earlier step came through, the response is a record with a usable access token of the right terms and a refresh token as asked, and persistence succeeded |
| OwnerSessionOutcomes.AuthorizationReportsFirstFailure | apps/cli/src/temporary-owner-session.ts:606-795 | when access is denied, the error is that of the first step that failed |
| OwnerSessionOutcomes.RefreshGrantedExactly | apps/cli/src/temporary-owner-session.ts:867-978 | a refreshed session is granted, and its operation runs, exactly when the credential is for this installation, the response is as required and it was persisted |
| OwnerSessionOutcomes.RefreshReportsFirstFailure | apps/cli/src/temporary-owner-session.ts:867-982 | the error of a denied refreshed session is that of the first step that failed |
| OwnerSessionOutcomes.AuthorizationDealsWithTokens | apps/cli/src/temporary-owner-session.ts:704-830 | whatever else is wrong with a response, every usable token in it is sent to revocation or is the kept refresh token |
| OwnerSessionOutcomes.RefreshDealsWithTokens | apps/cli/src/temporary-owner-session.ts:912-1010 | the same in a refreshed session |
| OwnerSession.Session.Retain | apps/cli/src/temporary-owner-session.ts:761-767 | takes the first matching refresh token off the list and nothing else |
| OwnerSession.Session.RevokeAll | apps/cli/src/temporary-owner-session.ts:798-845 | every outstanding token is sent to revocation and every access token checked, whatever fails, and the first error is reported |
| OwnerSession.AuthorizationLedgerBalances | apps/cli/src/temporary-owner-session.ts:704-845 | on every execution each token read is revoked exactly once or is the kept refresh token, never both |
| OwnerSession.RefreshLedgerBalances | apps/cli/src/temporary-owner-session.ts:912-1026 | the same for a refreshed session |
| OwnerSession.KeptTextRevokedExactly | apps/cli/src/temporary-owner-session.ts:761-767 | the kept token's text is revoked exactly when the access token has the same text |
| OwnerSession.RefreshedTextRevokedExactly | apps/cli/src/temporary-owner-session.ts:950-956 | the same in a refreshed session |
| OwnerSession.RevokedReportedExactly | apps/cli/src/temporary-owner-session.ts:798-845 | "revoked" is reported exactly when there was a token, every revocation succeeded and every access token was confirmed rejected |
| OwnerSessionOutcomes.RevocationReportsFirstFailure | apps/cli/src/temporary-owner-session.ts:798-845 | a failed revocation reports the first failure: of the revocations, and if none, of the confirmations |
| OwnerSession.OperationPrecedesRevocation | apps/cli/src/temporary-owner-session.ts:770-803 | the operation runs exactly when access was granted, and before any revocation |
| AiGateway.Api.ApplyAiGatewayPlan | apps/cli/src/bootstrap.ts:1371-1511 | against any replies and exceptions, returns normally exactly under `Succeeds`, having made exactly the requests of `Trace`, and otherwise with a failure that was seen |
| AiGateway.SucceedsExactly | apps/cli/src/bootstrap.ts:1371-1511 | a plan succeeds exactly when nothing in its log fails: no mutation answered without success below 500, none uncertain and unseen in the read that follows, no name found taken, no failed record, no read that threw, and a last read that reports the settings |
| AiGateway.AcknowledgedPlanSucceeds | apps/cli/src/bootstrap.ts:1396-1510 | acknowledged mutations, a free name, a written record and a last read with the settings are enough |
| AiGateway.Api.RecoverGateway | apps/cli/src/bootstrap.ts:1380-1394 | one read, taken as recovery exactly when it shows the gateway, and its settings where they are required |
| AiGateway.Api.Mutate | apps/cli/src/bootstrap.ts:1412-1459 | a mutation counts unless refused, or uncertain and not seen in the read that follows, and its failure says which |
| AiGateway.RequestsAreDisciplined | apps/cli/src/bootstrap.ts:1396-1497 | at most one POST and one PUT, nothing after a refusal, POST right after a 404, a record between POST and PUT, all with the plan's settings |
| AiGateway.SuccessIsConfirmed | apps/cli/src/bootstrap.ts:1499-1510 | a successful run ends, after every mutation, with a GET that reports the exact id and limit |
| DeploymentStability.VerifyDeployedControlPlane | apps/cli/src/bootstrap.ts:836-882 | verifies at exactly the first attempt whose stretch of matches has three samples spanning 10 seconds, unless a sample before throws or is outdated |
| DeploymentStability.StableByLongest | apps/cli/src/bootstrap.ts:858-871 | the longest stretch of matches, which the counters measure, decides whether any stretch is long enough |
| DeploymentStability.LongEnoughExactly | apps/cli/src/bootstrap.ts:86-94 | for each starting attempt, the exact attempt from which a stretch is long enough; none starting at 14 or later |
| DeploymentStability.LateMatchesSuffice | apps/cli/src/bootstrap.ts:86-94 | matches from attempt 13 or earlier to the end verify, unless cut short before |
| DeploymentStability.LaterMatchesFail | apps/cli/src/bootstrap.ts:86-94 | after a mismatch at attempt 13 nothing later verifies |
| DeploymentStability.NoEarlyVerification | apps/cli/src/bootstrap.ts:86-94 | nothing verifies before the eighth sample, eleven seconds in |
| ProcessRunner.Runner.OnStdout | apps/cli/src/wrangler.ts:145-155 | a chunk is captured when it fits, and otherwise asks for termination, once |
| ProcessRunner.Runner.OnClose | apps/cli/src/wrangler.ts:170-185 | closing settles an unsettled promise with the captures and clears every timer |
| ProcessRunner.Runner.TerminateChild | apps/cli/src/wrangler.ts:125-140 | requests termination once, arming escalation and deadline, unless settled |
| ProcessRunner.RunIsSound | apps/cli/src/wrangler.ts:106-187 | in every order of events captures stay within 1 MiB, signals go out in order and at most once, and a pending promise always has a timer that ends the wait |
| ProcessRunner.SettledForGood | apps/cli/src/wrangler.ts:114-124 | no event changes a settled promise |
| ProcessRunner.TimersSettle | apps/cli/src/wrangler.ts:125-143 | whatever happened before, the timeout and the deadline settle the promise |
| ProcessRunner.CloseTellsTheOutcome | apps/cli/src/wrangler.ts:170-185 | closing first reports "completed" exactly when there was no timeout or overflow, with everything the child wrote |
| ProcessRunner.DeadlineTellsTheCause | apps/cli/src/wrangler.ts:125-155 | when the deadline passes, the error names the trouble that came first, timeout or output, for good |
| ProcessRunner.ErrorTellsNotStarted | apps/cli/src/wrangler.ts:167-169 | a child that could not be started is reported as such, whatever came before |
| ProcessRunner.TroubledIsKilled | apps/cli/src/wrangler.ts:125-140 | while the promise is pending the child is asked to stop exactly when it timed out or wrote too much, and is killed when the grace ends |
| ProcessRunner.CompletedWasNotTerminated | apps/cli/src/wrangler.ts:170-185 | a resolved promise says "completed" exactly when no signal was sent |
| SandboxPurge.SandboxStorage.PurgeSandboxStorage | apps/worker/src/sandbox.ts:25-41 | the table loop and the last transaction leave no application table, key or alarm, and every reserved table |
| SandboxPurge.SandboxStorage.DestroyAndPurge | apps/worker/src/sandbox.ts:43-56 | purges when the container stops, and otherwise leaves the flag set and the retry scheduled |
| SandboxPurge.SandboxStorage.Alarm | apps/worker/src/sandbox.ts:68-75 | the alarm purges exactly when the flag is set |
| SandboxPurge.RunKeepsSound | apps/worker/src/sandbox.ts:43-75 | across any crashes, redeliveries and concurrent requests a set flag has an alarm scheduled or a delivery outstanding |
| SandboxPurge.FreshIsSound | apps/worker/src/sandbox.ts:43-75 | a sandbox nobody has asked to purge is where such runs start |
| SandboxPurge.FinishPurges | apps/worker/src/sandbox.ts:36-40 | the step that completes an attempt leaves no application table, key or alarm |
| SandboxPurge.PendingPurgeCompletes | apps/worker/src/sandbox.ts:43-75 | from every sound state a pending purge completes in a bounded number of steps without crash or failure |
| SandboxProgress.StepLowers | apps/worker/src/sandbox.ts:43-75 | a rank over pending purge, alarm, delivery, waiting invocations and work at the gate is lowered by every step that is no crash, failure, new request or other work |
| SandboxProgress.SomeStepCarriesOn | apps/worker/src/sandbox.ts:43-75 | while a purge is pending such a step is enabled |
| SandboxProgress.SmoothRunsEnd | apps/worker/src/sandbox.ts:43-75 | no endless sequence of states consists of such steps only |
| SandboxProgress.MaximalRunsPurge | apps/worker/src/sandbox.ts:43-75 | with a purge pending, every run of such steps that cannot be continued ends purged |
| SandboxProgress.PurgeSurvivesDisturbance | apps/worker/src/sandbox.ts:43-75 | whatever crashes, failures, requests and work came before, from a fresh sandbox on |
| SandboxGate.GateIsNeeded | apps/worker/src/sandbox.ts:36-40 | a run in which events come in during storage operations forgets a pending purge |
| SqlIdentifiers.QuotedReadsBack | apps/worker/src/sandbox.ts:21-23 | a quoted table name reads back as that name and nothing more, whatever it contains |
| SearchQueries.NormalIsFixed | apps/registry/src/server.ts:166-168 | the queries normalisation leaves alone are exactly the trimmed, lower-case, single-spaced ones |
| SearchQueries.NormalizingIsIdempotent | apps/registry/src/server.ts:166-168 | normalising twice is normalising once |
| SearchWords.NormalizingKeepsWords | apps/registry/src/server.ts:166-168 | the words of a normalised query, its maximal runs of characters other than white space, are those of the query in lower case and in order |
| SearchWords.NormalizedIsItsWords | apps/registry/src/server.ts:166-168 | a normalised query is exactly those words with a single space between each two |
| SearchCache.PublicCacheKey | apps/registry/src/server.ts:170-179 | the key is sorted and holds, under each name, the request's values in order, with the limit defaulted and the words of the first query in lower case and single-spaced |
| SearchCache.SortIsStable | apps/registry/src/server.ts:176 | sorting keeps the order of the values under each name |
| SearchCache.KeysAgreeExactly | apps/registry/src/server.ts:170-179 | two requests share a key exactly when it holds the same values for them under each name |
| SearchCache.KeyKeepsTheSearch | apps/registry/src/server.ts:395-406 | the handler would read the same query and limit from the key as from the request |
| SearchCache.SameKeySameSearch | apps/registry/src/server.ts:395-406 | two requests with the same key are read as the same query and limit |

## Left out

- Registry digests: a request digest is modelled by the bundle itself, and an object by its digest, so SHA-256 is taken to be free of collisions.
- Registry projections, search documents, semantic index states and lifecycle changes: they do not guard any step; every version counts as published to dependencies.
- RegistryCleanup.RunRegistryMaintenance: deleting expired sign-in rows before the pass and indexing recipes after it are not modelled, because neither touches the tables of the protocol.
- Registry cleanup order: in `RegistryRuns` the selection may return any expired intents up to its limit, so the results about all runs hold for every order; `Expired` and `RegistrySweep` take the oldest first.
- RegistryPublish.PublishBundle: takes bundles that passed their schema; schema parsing, hashing and the rendering of dates are not part of it, and a statement that throws is the stop of a run in `RegistryRuns`.
- RegistryService: the world's tables are values in a field that the statements reassign; aliasing of rows is not modelled.
- The sibling printer `canonicalPackage`: it rebuilds objects before printing, so integer-like keys are reordered by the language; it only feeds the digest.
- Canonical numbers: integers only; the printing of fractions and exponents is the language's own.
- FileSourceAcceptance.AcceptedStaysAccepted: its conditions on marks are sufficient, with a witness against dropping each; a schema that violates them may still lose nothing, depending on what its other keywords accept.
- JSON Schema keywords: `properties`, `additionalProperties`, `items`, `anyOf`, `allOf` and `not` are spelled out; all others are one parameter, read by the standard in `FileSourceRecord` only; `$ref`, `oneOf` and conditionals are not modelled.
- FileStaging: how the runtime recognises a file source (its JSON schema is in `FileSourceRecord`), and the download, upload and validation behind one staging request, are parameters.
- OwnerSession.Session.RunRefreshableOwnerSession: requires that no check of a new credential fails, since that session makes none, and so do the results about it in `OwnerSessionOutcomes`; the wording of errors is not modelled.
- AiGateway: planning against an existing gateway, headers, response size limits and error texts.
- DeploymentStability.VerifyDeployedControlPlane: the samples are given in advance, and the wait between them is only counted.
- ProcessRunner: spawning, environment filtering, and the decoding of bytes to text.
- SandboxPurge: alarms are redelivered until handled, and the platform's limit on keys per delete call is not modelled.
- SearchQueries: lower-casing works character by character, so the context-dependent final sigma is not modelled; percent-decoding is taken to agree between the key and the handler.
- HTTP routing, pages, cookies, provider wire formats, ranking and embeddings, login, command-line parsing and resource inventory: plumbing or opaque services.

# grokbuild-proxy: a verified model of the credential pool

The proxy forwards OpenAI and Anthropic requests upstream on a pool of OAuth
credentials. This Dafny project models the parts of it where the hard promises
live and proves them:

- **Token refresh** (`RefreshCache`, `RefreshProtocol`): a single flight per
  credential, a durable reload before the grant, a compare-and-swap persist and a
  cache guarded by a two-level epoch, as a transition system in which imports,
  admin edits and invalidations interleave with flights at every store call and
  message. The grant is the one of section 6 of RFC 6749; rotation is the one of
  section 10.4 of RFC 6749.
- **Credential store** (`Credentials`, `CredentialLifecycle`, `InspectionBatch`,
  `Sorting`, `CredentialStore`): records, account identity and upsert, the
  quarantine and purge lifecycle over whole runs, the indexed batch against a
  fold of single actions, and a `Store` class whose read cache agrees with the
  file.
- **Inspection runner** (`InspectionRunner`, `InspectionEffect`): candidate order, the
  fairness bound, one inspection's verdict, and what each verdict leaves stored.
- **Stream translation** (`StreamGrammar`, `StreamContent`, `StreamTranslation`, `StreamItems`): the
  Responses-to-Anthropic event translator as a class. Its output is scanned by a
  grammar; its keyed text and tool arguments follow a small calculus of moves on
  which exactly-once delivery is proved, and then restated on the events alone: one block
  for each message and each tool call.
- **Selection and failover** (`Selection`, `Reservations`, `Routing`, `StoreHistory`,
  `Failover`, `HealthPersistence`): picks, sticky ring, cooldowns and in-flight counts as a
  class; the failover loop with every exit path, run as one request among any
  others on a shared selector; reservation counting and revision-bound sends under
  interleaving; the order in which health reaches the store.
- **Request patching** (`RequestPatch`, `RequestPaths`, `RequestOrder`): path writes applied in
  arbitrary map order, with the exact condition, for two paths and for a whole rule,
  under which the order cannot matter.
- **Import jobs** (`ImportJob`, `ImportSources`): parse, dedupe, store and summarise,
  with every item accounted for on every exit; the document parser and the converter's
  client that supply the entries.

`dafny verify dfyconfig.toml` checks the whole project.

## How to read it

Code that changes state is a class or a method with a loop, and its contract ties
the new state to a function of the old one. The promises are lemmas about those
functions, or invariants in `Valid()`. Concurrent protocols are transition systems
(`Apply`, `Run`) whose steps are single critical sections, store calls or messages,
so a theorem over every `Run` is a theorem over every interleaving. What the
network, the clock, the random source or another thread decides is a parameter.

Four things the code does not promise in full, each with its exact extent:

- A refresh token can be sent again after the provider has rotated it away, when the
  response or the store patch that carried the rotation is lost.
  `RefreshProtocol.ReplayOnlyOfLostRotation` shows that a send is a replay exactly
  when that token's rotation was lost; `RefreshProtocol.LostResponseReplays` builds such a run from
  any idle state; `RefreshProtocol.AtMostOnceUse` is the law without losses.
- A second upsert of an input that names nobody and brings only an access token can
  create a second record. `Credentials.UpsertTwiceCreatesExactly` says exactly when;
  `Credentials.KeyOnlyUpsertDuplicates` is such a file.
- Two paths of a patch rule that are not prefixes of each other can still depend on
  their order, when they spell one array index in two ways
  (`RequestPatch.SpellingsOfOneIndex`). `RequestPatch.OrderFreeExactlyWhenApart` is
  the exact condition.
- The stream translator does not guard itself against events after the one that
  ended the stream: `StreamTranslation.WriteAfterTheEnd` is a run that goes on
  writing. `StreamTranslation.Pipe` is what holds up to the first terminal event, and
  says exactly which later events write: the output stays a finished stream if and only
  if all of them are quiet (`StreamTranslation.AllQuiet`).

The importer keeps inputs without an identity as often as they come and relies on its
two producers never to deliver one. They do not: the document parser and the
converter's client refuse every entry without a token, so everybody an import sends has
an identity of their own (`ImportSources.Import`). `ImportJob.NamedBatchExactly` is the
exact condition for any source of entries, and `ImportJob.NobodyIsSent` shows what a
converter other than internal/sso's could do to it.

Where comments and code differ, the model follows the code: `Selector.Release` is
described as safe to call more than once, but a second call takes another request's
reservation off the count. The model keeps that, and `Reservations` shows the
executor never makes that second call.

## Model

| member | source | states |
|---|---|---|
| RefreshCache.StaleEpochStaysStale | internal/auth/refresh.go:238-310 | (generation, key epoch) grows lexicographically with every invalidation that hits the key, although `InvalidateAll` clears the per-key map, so a commit that captured an earlier epoch is refused for good |
| RefreshCache.Refresher.Invalidate | internal/auth/refresh.go:238-253 | drops the key's tokens and moves its epoch on, touching no other key |
| RefreshCache.Refresher.InvalidateAll | internal/auth/refresh.go:255-264 | drops every key's tokens and moves the generation on |
| RefreshCache.Refresher.CommitIfCurrent | internal/auth/refresh.go:278-310 | commits if and only if the captured epoch is still the key's; then the cache holds just the refreshed set for the key and everything else as before, otherwise nothing changes |
| RefreshCache.Refresher.EnsureAccess | internal/auth/refresh.go:59-100 | a live cached set of the key, or of the caller's refresh token when it has no key, is the answer; otherwise the caller's snapshot overridden by the cached rotation, never a refresh token older than the cached one; an access token handed out has not expired and one to be refreshed has |
| RefreshProtocol.CacheCoherence | internal/auth/refresh.go:238-310 | in every interleaving, when no writer is between its write and its closing invalidation and no flight is between persist and commit, any cached token set equals the durable one |
| RefreshProtocol.CoherenceStep | internal/importer/manager.go:418-434 | the coherence invariant survives every step, including invalidate-write-invalidate by imports and admin edits |
| RefreshProtocol.AtMostOnceUse | internal/auth/refresh.go:121-196 | with responses arriving and patches succeeding, no refresh token is sent after the provider rotated it away, in any interleaving |
| RefreshProtocol.ReplayOnlyOfLostRotation | internal/proxy/executor.go:1027-1050 | without that hypothesis: a send replays a retired token if and only if that token's rotation was lost on the wire or at the store |
| RefreshProtocol.AtMostOnceStep | internal/auth/refresh.go:121-196 | the ownership invariant behind it survives every lawful step of flights, provider and writers |
| RefreshProtocol.LostResponseReplays | internal/auth/refresh.go:150-196 | from any idle state a lost response makes the next flight send the retired token: the hypothesis is needed |
| RefreshProtocol.FlightIsKept | internal/auth/refresh.go:103-217 | an ordinary flight from any idle state sends the stored refresh token once and ends with the granted set stored and cached |
| RefreshProtocol.FinishCaches | internal/auth/refresh.go:278-310 | a finished flight whose epoch is current leaves just the granted set cached for its key; one whose epoch has passed leaves the cache alone |
| RefreshProtocol.CachedUntilDisturbed | internal/auth/refresh.go:238-310 | over any run a cached set stays until its key is invalidated or committed again |
| RefreshProtocol.ServedAfterFlight | internal/auth/refresh.go:59-100 | from a finished flight until its key is invalidated, committed again or the set expires, every caller is answered with the granted set, whatever its own snapshot |
| RefreshProtocol.StoreChangesOnly | internal/proxy/executor.go:1027-1050 | a stored token pair changes only by a write or deletion of its own key, or by a grant stored while the store still holds the refresh token that was sent |
| RefreshProtocol.FlightBegins | internal/auth/refresh.go:103-142 | a flight starts with its caller's epoch and with its snapshot, or with the refresh token the cache has instead |
| RefreshProtocol.FlightGuards | internal/auth/refresh.go:146-178 | a flight sends only what the store held and its snapshot agreed with, under an epoch current when checked; otherwise it ends without sending |
| RefreshProtocol.GrantMeans | internal/auth/refresh.go:182-194 | a rotation retires the token sent, a reissue keeps it, a grant that is lost or cannot be stored ends the flight and caches nothing |
| Credentials.UpsertCredentialDoc | internal/storage/credentials.go:413-482 | finds the first record the four matching rules accept and merges into it, else appends one; creates exactly when none matches |
| Credentials.MergeBrings | internal/storage/credentials.go:424-470 | field by field what a merge leaves: what the input brings, and what was there where it brings nothing; a new token pair, and nothing else, ends a quarantine no operator made |
| Credentials.NewHolds | internal/storage/credentials.go:368-411 | what a new record holds: the input's own values, its defaults, and no history |
| Credentials.SameIdentityExactly | internal/storage/credentials.go:484-503 | when a record and an input name the same account, rule by rule and both ways |
| Credentials.ScopeExactly | internal/storage/credentials.go:505-514 | when two issuer and client scopes are compatible: unless both name one and they differ |
| Credentials.IdentityTells | internal/storage/credentials.go:534-557 | which of user, email, refresh and access token an account goes by; it has no identity exactly when it names none of them |
| Credentials.UsersDiffer | internal/storage/credentials.go:534-557 | another user or another team is another account |
| Credentials.EmailsDiffer | internal/storage/credentials.go:534-557 | another email is, where there is no user to go by |
| Credentials.ScopesDiffer | internal/storage/credentials.go:534-557 | the same user or email at another issuer or another client is |
| Credentials.IdentityIgnoresSpelling | internal/storage/credentials.go:534-557 | capitals in issuer, client and email and a trailing slash make no difference to an identity |
| Credentials.MergedMatchesAgain | internal/storage/credentials.go:484-557 | a record merged with an input that names a user, email or key matches that input again, whichever rule fired, although its key is recomputed |
| Credentials.UpsertIdempotent | internal/storage/credentials.go:413-514 | for an input that names somebody a second upsert creates nothing, finds the record the first one merged into or created, and changes only that record's update time and revision |
| Credentials.UpsertTwiceCreatesExactly | internal/storage/credentials.go:413-557 | for any input with a token, the exact condition under which a second upsert does create a record |
| Credentials.KeyOnlyUpsertDuplicates | internal/storage/credentials.go:413-557 | such a file: the first upsert of a bare access token merges into a record that names a user, the second creates a record |
| Credentials.BulkGrowsByCreated | internal/storage/credentials.go:272-301 | a bulk upsert grows the store by exactly its created count |
| Credentials.NormalizeTwice | internal/storage/credentials.go:1115-1134 | normalising a document again changes nothing |
| Credentials.NormalizeFills | internal/storage/credentials.go:1115-1134 | normalising fills what is missing and leaves the rest: a disabled record without a state becomes an operator's |
| InspectionBatch.MissTouchesOnlyScheduling | internal/storage/credentials.go:772-785 | a compare-and-swap miss changes the inspection stamp and status, the update time and the revision, and nothing else |
| InspectionBatch.ResultTells | internal/storage/credentials.go:762-900 | a result says deleted, newly quarantined or let out exactly when that became of the record, and reports neither application nor attempt exactly when the record is as it was |
| InspectionBatch.ResultsFromOriginal | internal/storage/credentials.go:747-916 | with distinct ids each action's result is what it would be alone on the original store |
| InspectionBatch.FoldIsMap | internal/storage/credentials.go:747-916 | folding single actions over the store is one map over its records |
| InspectionBatch.OrderIrrelevant | internal/storage/credentials.go:747-916 | any order of the same actions gives the same store and the same result for each action |
| InspectionBatch.SurvivorsKeepOrder | internal/storage/credentials.go:902-911 | the records that survive a batch keep their order |
| InspectionBatch.ApplyActions | internal/storage/credentials.go:747-911 | the indexed loop with deferred deletion gives exactly the fold's store and results, and reports a change exactly when an action touched something |
| InspectionBatch.IndexById | internal/storage/credentials.go:747-760 | the index names for every id the record a batch acts on |
| CredentialLifecycle.EventEffect | internal/storage/credentials.go:413-936 | every store event changes a record only in the way its kind allows, and keeps ids distinct and records normalised |
| CredentialLifecycle.PatchWrites | internal/storage/credentials.go:604-643 | which fields each patch writes and that it leaves all others; a rotation is refused once the stored refresh token has moved on |
| CredentialLifecycle.LifecycleSound | internal/storage/credentials.go:787-885 | over every run: an enabled credential is active without quarantine evidence; a disabled one is an operator's or quarantined for invalid auth |
| CredentialLifecycle.AutomationSparesManual | internal/storage/credentials.go:787-936 | no import, refresh or inspection enables or deletes a credential an operator disabled |
| CredentialLifecycle.PurgeSafe | internal/storage/credentials.go:840-885 | a record that disappears without an operator deleting it was quarantined, past its deadline, and held the token pair it had when its evidence was last recorded |
| CredentialLifecycle.ChangeRaisesRevision | internal/storage/credentials.go:604-643 | every event that changes a record raises its revision by one |
| Sorting.SortSorts | internal/storage/credentials.go:86-105 | the sort used for listings puts any sequence in order, for any strict weak order |
| Sorting.SortIsStable | internal/storage/credentials.go:86-105 | elements of equal rank keep the order they came in |
| Sorting.StringBeforeMeans | internal/storage/credentials.go:96-103 | ids are compared as in a dictionary: by the first difference, a prefix first |
| CredentialStore.FindFirstFinds | internal/storage/credentials.go:1033-1048 | the first record with an id is found exactly when there is one |
| CredentialStore.ListingIsOrdered | internal/storage/credentials.go:86-105 | a listing holds exactly the stored records, by descending priority and then by id |
| CredentialStore.ViewTells | internal/storage/credentials.go:110-140 | what a candidate view carries - id, priority, whether it is enabled, cooldown and remaining quota - and that it carries no secret |
| CredentialStore.ValidMeans | internal/storage/credentials.go:303-366 | which inputs are valid: a token, and a proxy mode with an address exactly where it needs one |
| CredentialStore.DeleteRemoves | internal/storage/credentials.go:646-667 | a deletion removes the records with the id and no others |
| CredentialStore.Store.EnsureCredentialsCache | internal/storage/credentials.go:994-1009 | after it the snapshot and its index are the decoded, normalised file, whatever was edited outside meanwhile |
| CredentialStore.Store.SetCredentialsCache | internal/storage/credentials.go:1033-1048 | the index maps an id to the first record that carries it |
| CredentialStore.Store.GetCredential | internal/storage/credentials.go:143-157 | a get succeeds exactly when the file or a current snapshot can serve it and the id is there, and is then the first record with that id in the decoded file; not found exactly when it can be served and the id is not there |
| CredentialStore.Store.ListCredentials | internal/storage/credentials.go:86-105 | a listing is the sorted decoded file, whenever the file or a current snapshot can serve it |
| CredentialStore.Store.ListCredentialCandidates | internal/storage/credentials.go:110-140 | the candidate view is the sorted decoded file without secrets, whenever the file or a current snapshot can serve it |
| CredentialStore.Store.SaveCredentials | internal/storage/credentials.go:1011-1031 | all or nothing: a written file decodes to the normalised document, a failed write leaves file and snapshot alone; the file's new stamp may be an old one if it was seen with the same content |
| CredentialStore.Store.PatchCredential | internal/storage/credentials.go:604-643 | succeeds exactly when the file can be read, the patch applies and the write works; then the patched document is committed whole, otherwise nothing changes; each error exactly when it is due |
| CredentialStore.Store.DeleteCredential | internal/storage/credentials.go:646-667 | succeeds exactly when the file can be read, holds the id and the write works; then the record is gone, otherwise nothing changes |
| CredentialStore.Store.CreateCredential | internal/storage/credentials.go:222-245 | appends a record exactly when the input is valid, the file can be read, no rule matches an existing record and the write works; each error exactly when it is due |
| CredentialStore.Store.UpsertCredential | internal/storage/credentials.go:250-268 | commits the upsert whole exactly when the input is valid, the file can be read and the write works, and reports whether it created |
| CredentialStore.Store.BulkUpsertCredentials | internal/storage/credentials.go:272-301 | commits every upsert of a batch exactly when all inputs are valid, the file can be read and the write works, and none otherwise; each flag tells whether its input created a record on top of those before it |
| CredentialStore.Store.ApplyInspectionActions | internal/storage/credentials.go:726-917 | commits the folded batch whole exactly when its actions are well formed with distinct ids, the file can be read and the write works or none is needed; otherwise nothing changes |
| CredentialStore.ReadBetweenEdits | internal/storage/credentials.go:994-1009 | however an operator's edits of the file and reads by id alternate, every read answers from the file as the last edit left it |
| InspectionRunner.BatchTakesSoonest | internal/inspection/runner.go:217-252 | a batch holds only due or eligible credentials, at most as many as configured or a hundred, is full whenever it leaves one out, and leaves out none that comes sooner than one it takes |
| InspectionRunner.EligibleMeans | internal/inspection/runner.go:747-769 | who is inspected: nobody an operator disabled, the quarantined only when configured, nobody who succeeded recently enough; and when a purge is due |
| InspectionRunner.SoonerMeans | internal/inspection/runner.go:217-240 | in which order: due purges, then those never inspected, then who waits longest |
| InspectionRunner.StampedEvenOnMiss | internal/storage/credentials.go:772-785 | whatever the verdict and even when its compare-and-swap misses, a stored action stamps the inspection time |
| InspectionRunner.BuiltActionsStamp | internal/inspection/runner.go:321-424 | the actions a run builds name each credential of its batch once and stamp it, even if the stored record has moved on since its snapshot was read |
| InspectionRunner.BatchStamps | internal/inspection/runner.go:217-252 | after a stored run exactly the picked credentials carry its clock; all others keep their stamp, whatever else happened to them |
| InspectionRunner.EveryVerdictHasARun | internal/inspection/runner.go:217-424 | whatever the prober makes of each credential there is a run that stores it, so the fairness bound is about every verdict |
| InspectionRunner.InspectionIsFair | internal/inspection/runner.go:217-252 | with strictly rising clocks and nothing purge-due, any ceil(n/limit) consecutive runs over a pool of n inspect every credential that stays eligible, each run storing the actions it builds from its own inspections |
| InspectionRunner.WaitingIsBounded | internal/inspection/runner.go:217-252 | each run a waiting credential is passed over uses up a full batch of others that then wait behind it |
| InspectionRunner.InspectOne | internal/inspection/runner.go:574-696 | unauthorized takes a first 401, a terminal refresh error and every confirming 401 under one settings revision; otherwise the first look that settles anything decides, both ways; each refresh failure has its own verdict |
| InspectionRunner.StatusNamesVerdict | internal/inspection/runner.go:574-696 | no two verdicts are recorded alike |
| InspectionRunner.BuildActions | internal/inspection/runner.go:321-424 | one action for each finished inspection, under the guard of a mass failure; what the actions do to the store is InspectionEffect.StoreVerdicts |
| InspectionRunner.ActionLimits | internal/inspection/runner.go:278-418 | only a confirmed 401 outside a mass failure disables a credential, only with due evidence matching its tokens deletes it, only a healthy verdict on an unchanged revision enables it |
| InspectionEffect.StoreVerdicts | internal/inspection/runner.go:321-424 | from verdicts to stored records, on unchanged revisions: a confirmed 401 outside a mass failure leaves the credential disabled and quarantined with its token pair as evidence and its deadline at clock plus retention, or removes it when due with matching evidence; a healthy verdict lets a quarantined one back in; rate-limited and spent ones cool until the run's clock plus their own setting; every other verdict only stamps and counts |
| InspectionEffect.JudgeMeans | internal/inspection/runner.go:263-320 | when a listed credential is a candidate for the purge and when its evidence is stale |
| StreamGrammar.BlocksAreBalanced | internal/anthropic/stream.go:155-253 | while the scanner accepts, block numbers count from zero, each started once and stopped once unless still open |
| StreamGrammar.CompleteMeans | internal/anthropic/stream.go:319-384 | a finished stream is a lone error, or one message_start first and message_delta and message_stop or an error last, with every block started once and stopped once |
| StreamGrammar.FinishedIsMaximal | internal/anthropic/stream.go:319-384 | anything written after a finished stream leaves the grammar |
| StreamContent.ContentExactlyOnce | internal/anthropic/stream.go:428-634 | if the deltas have told all or nothing by the time anything closes an item, every closing event repeats it whole and a final one is announced or alone, the item's text is told once; tool arguments alike |
| StreamContent.UnannouncedFinal | internal/anthropic/stream.go:697-718 | a final message nothing announced is passed over if and only if other text is already out |
| StreamContent.KeysAreApart | internal/anthropic/stream.go:307-317 | text and tool blocks never share a key |
| StreamContent.KeyedOnce | internal/anthropic/stream.go:307-318 | a block key has its kind's prefix, once |
| StreamContent.ReasoningKeysAgree | internal/anthropic/stream.go:752-770 | streamed, finished or final, a reasoning item goes by its id |
| StreamContent.UnnamedItemsApart | internal/anthropic/stream.go:683-741 | items of a final response that name nothing still have a key each |
| StreamTranslation.StreamTranslator.EnsureStart | internal/anthropic/stream.go:116-153 | message_start once, with the id and model rules |
| StreamTranslation.StreamTranslator.EnsureTextBlock | internal/anthropic/stream.go:155-178 | ends an open thinking block, then opens a block for the key unless it has one |
| StreamTranslation.StreamTranslator.EnsureToolBlock | internal/anthropic/stream.go:180-217 | the same for tools, with the call id and name that the start event carries |
| StreamTranslation.StreamTranslator.CloseThinking | internal/anthropic/thinking_stream.go:82-121 | ends the thinking block by its signature and a stop, and records the reasoning item as told |
| StreamTranslation.StreamTranslator.SayReasoning | internal/anthropic/thinking_stream.go:130-166 | a reasoning item already told is not told again; one that is told ends closed and recorded |
| StreamTranslation.StreamTranslator.StopAllBlocks | internal/anthropic/stream.go:235-253 | stops exactly the open blocks, in rising order, changing no text |
| StreamTranslation.StreamTranslator.Finish | internal/anthropic/stream.go:319-365 | completes the grammar with the right stop reason, once |
| StreamTranslation.StreamTranslator.Fail | internal/anthropic/stream.go:367-384 | completes the grammar with an error and never a message_stop, once |
| StreamTranslation.StreamTranslator.ProcessData | internal/anthropic/stream.go:386-681 | every event moves the content as it says and keeps the grammar; a tool call's first event starts a block under its call id and name; an ending one completes the stream |
| StreamTranslation.StreamTranslator.SayFinalOutput | internal/anthropic/stream.go:683-741 | the final output makes exactly the final moves of its items, in order |
| StreamTranslation.Pipe | internal/anthropic/stream.go:820-865 | over any event sequence the output up to the first terminal event is a finished stream and holds, block by block, the content the events told; the whole output is one if and only if every later event is one the ended translator writes nothing for |
| StreamItems.TranslateItems | internal/anthropic/stream.go:387-741 | from upstream events to the client's blocks: where events name their items, the client holds one text block for each of the messages it was told of and no other, and a message honestly and wholly said is among them with its full text; the same for tool calls and their arguments |
| StreamItems.MessageBlocks | internal/anthropic/stream.go:752-776 | all events of one message, and no others, share a text block |
| StreamItems.CallBlocks | internal/anthropic/stream.go:752-776 | all events of one tool call, and no others, share a tool block |
| StreamTranslation.NamesOnTheWire | internal/anthropic/stream.go:117-153 | the id and model a client sees: the response's id with its prefix changed, the model wanted, requested or last known |
| StreamTranslation.WriteAfterTheEnd | internal/anthropic/stream.go:386-434 | a run that shows events after the first terminal one are not guarded: the stream is finished, a later text delta is still written, and the output is no longer a stream |
| StreamTranslation.ToldExactlyOnce | internal/anthropic/stream.go:428-634 | on the wire: a faithful item's block holds its full content once |
| Selection.Selector.Available | internal/lb/selector.go:330-352 | in terms of the deadlines themselves: the enabled candidates whose stored and remembered cooldowns are both past and that are below the cap, in order |
| Selection.Selector.Pick | internal/lb/selector.go:143-172 | a pick is enabled and both its stored and its remembered deadline are past; a clear candidate is always found; a live binding to a clear candidate decides; otherwise no clear candidate has more room, a higher priority or a lighter load |
| Selection.Selector.PickPriorityRR | internal/lb/selector.go:423-457 | highest priority, least in flight, first from that priority's cursor, which then moves just past it |
| Selection.PickBurst | internal/lb/selector.go:423-457 | m picks from an idle even pool of n, seen before or not, leave each with floor(m/n) or ceil(m/n), the extra ones following the cursor |
| Selection.BurstFromStart | internal/lb/selector.go:423-457 | so from start-up: a selector that has seen nothing gives the first m mod n candidates one more than the rest |
| Selection.RoundRobinTurns | internal/lb/selector.go:407-421 | plain round-robin takes a steady pool in turn from its cursor |
| Selection.CooledStaysOut | internal/lb/cooldown.go:98-116 | while a remembered deadline lies ahead no pick returns its credential, whatever the candidates' stored deadlines say |
| Selection.RateLimitedStaysOut | internal/lb/selector.go:220-255 | a rate-limited credential is not picked for as long as the provider asked, or for the base cooldown |
| Selection.ExhaustedStaysOut | internal/lb/selector.go:266-295 | a credential out of quota is not picked before its known reset, or for the fallback |
| Selection.UsableMeans | internal/lb/selector.go:336-370 | usable means enabled, below the cap and past both deadlines; and whoever nothing stands in the way of is usable |
| Selection.SeededFromStored | internal/lb/selector.go:356-370 | what a selector first remembers of a credential is its stored health |
| Selection.PriorityPrefers | internal/lb/selector.go:394-457 | nobody with more room, a higher priority or a lighter load is passed over |
| Selection.SuccessesAreThrottled | internal/lb/selector.go:179-216 | once a success was handed out for storage no later one is for half a minute, while only successes follow |
| Selection.NextInTurn | internal/lb/selector.go:444-455 | from an even share the least-loaded member in cursor order is the one whose turn it is |
| Selection.QuotaPreferred | internal/lb/selector.go:394-403 | candidates with room under their advertised budget, or all when none has |
| Selection.Selector.MarkFailure | internal/lb/selector.go:220-255 | one completion, the status's cooldown with at most a tenth of jitter, sticky bindings dropped for the four refusing statuses, and the snapshot to store |
| Selection.Selector.MarkSuccess | internal/lb/selector.go:179-216 | clears failure and cooldown, completes or keeps the reservation, binds the sticky key, and asks for storage only when memory and store may differ |
| Selection.Selector.MarkQuotaExhaustedUntil | internal/lb/selector.go:266-295 | cools until the known reset or the fallback and drops the credential's sticky bindings |
| Selection.Selector.BindSticky | internal/lb/sticky.go:37-59 | binds the key; a new key takes a new place in the ring or the oldest's, whose key alone is evicted; the ring stays valid |
| Selection.Selector.GetSticky | internal/lb/sticky.go:19-33 | returns a live binding and forgets an expired one |
| Selection.UsableHasRoom | internal/lb/selector.go:346-348 | reserving a usable candidate keeps every count within the concurrency cap, an invariant of the selector |
| Selection.RingIsBounded | internal/lb/sticky.go:9-59 | a valid ring binds at most 10,000 keys, despite stale and duplicate slots |
| Selection.BackoffGrows | internal/lb/cooldown.go:26-83 | repeated rate limits cool no shorter than before, no shorter than the base, no longer than the ceiling |
| Selection.CooldownRules | internal/lb/cooldown.go:18-83 | how long each status cools: as asked, the ceiling, four bases, a tenth of the base between bounds, or the base |
| Selection.JitterIsAny | internal/lb/cooldown.go:86-96 | any jitter up to a tenth of the cooldown can happen |
| Reservations.InFlightIsHeld | internal/lb/selector.go:468-480 | in every interleaving of disciplined requests a credential's in-flight count is the number of requests holding it, and no completion is lost to the clamp at zero |
| Reservations.InterleavingKeepsDiscipline | internal/proxy/executor.go:178-498 | requests that each complete every pick once do so in any interleaving, however far each has got |
| Reservations.NeverAboveCap | internal/lb/selector.go:346-348 | if every pick found its credential below the cap, as a usable one is, no count ever exceeds it |
| Reservations.RequestIsDisciplined | internal/proxy/executor.go:178-498 | every request - attempts of one pick and one completion each, perhaps a body kept open and closed - completes what it picks exactly once |
| Reservations.RequestsConserve | internal/proxy/executor.go:178-498 | over every interleaving of any number of such requests, however far each has got: in-flight counts are the holders, no completion is lost to the clamp at zero, and no count exceeds the cap |
| Reservations.Traffic.Schedule | internal/lb/selector.go:143-295 | whatever a request calls next on the shared selector, the counts stay in agreement with what every request holds, and no other request loses or gains anything |
| Reservations.Traffic.CountsAreHolders | internal/lb/selector.go:468-480 | at any time the selector's count of a credential is the number of requests holding it, and at most the cap |
| Routing.SameRevisionSameRecord | internal/storage/credentials.go:633-633 | since every change raises the revision, equal revisions at two instants mean the same record |
| Routing.SameRouteThroughout | internal/settings/manager.go:108-119 | equal route revisions at two instants mean the same settings at every instant between |
| Routing.SettingsManager.Replace | internal/settings/manager.go:99-119 | settings and revision change together, after a successful save, or not at all |
| Routing.RouteRules | internal/outbound/proxy.go:40-87 | which route a credential's own proxy mode and the global one select, and when none |
| StoreHistory.ChangeEvolves | internal/storage/credentials.go:604-643 | every store event and settings change evolves what requests see: a record that stays is the same or has a higher revision, a new one has a new id, settings move with their revision |
| StoreHistory.RecordShows | internal/proxy/executor.go:921-940 | what a request sees of a stored credential |
| StoreHistory.EveryRunIsHistory | internal/settings/manager.go:108-119 | so the instants of every run of such changes form the history revision-bound sends rely on |
| StoreHistory.Reconfigure | internal/settings/manager.go:99-119 | the settings manager makes just such a change, or none |
| Failover.Bind | internal/proxy/executor.go:275-317 | a send it allows has its token and route from one enabled revision under one instant's settings, in every history of other writers; a window in which nothing moved is never refused; every refusal has its own error and says whether another try is worth it; only an unusable route is blamed |
| Failover.Executor.Attempt | internal/proxy/executor.go:204-497 | every exit path makes exactly one completing call, of the kind its outcome calls for, and leaves in the selector just the health that outcome calls for; every send is bound; the caller gets the last reply exactly when it is not one to fail over from; a steady credential is always sent |
| Failover.Executor.OnRefused | internal/proxy/executor.go:259-271 | a refused grant is blamed on the credential unless its stored refresh token has moved on |
| Failover.Executor.OnUnauthorized | internal/proxy/executor.go:360-472 | after a 401 one forced refresh and one more bound send on the same credential, with the refreshed token |
| Failover.Executor.Post | internal/proxy/executor.go:178-507 | with any other requests using the selector in between: the result is the last reply as soon as an attempt ends with one that does not fail over, else the last reply any attempt left, else the last error, and no-credential only when no attempt was made, which takes that no candidate is clear; the request holds nothing at the end, or just the credential whose body it returned; a blamed credential is not picked again; all sends are bound |
| Failover.PostToSteady | internal/proxy/executor.go:178-498 | with a clear candidate and steady credentials a first reply that does not fail over is the answer |
| Failover.HeldBody.Close | internal/proxy/executor.go:562-576 | gives the reservation back once, however often it is closed, and so completes its request |
| HealthPersistence.PatchesRise | internal/lb/selector.go:308-328 | the store takes one credential's health patches in strictly rising version order, whatever the timing |
| HealthPersistence.SettledHealthIsStored | internal/lb/selector.go:308-328 | when all persisting threads are through, stored failure count, error and deadline equal memory's to the second, unless the store refused the last mark's patch or another writer (an inspection, an operator, an import) touched the record after that patch |
| HealthPersistence.QuietSuccess | internal/lb/selector.go:188-193 | a success too recent to be stored again leaves the in-memory state as it was |
| HealthPersistence.RecordMark | internal/lb/selector.go:179-295 | every mark of the selector is one recording step of the protocol: the same health in memory, and a persisting thread exactly when a snapshot is handed out, carrying it |
| HealthPersistence.SeedingIsSteps | internal/lb/selector.go:330-352 | what a pick seeds from its candidates is a run of the protocol's seed steps |
| HealthPersistence.PatchedMeans | internal/lb/selector.go:308-328 | what a stored health patch leaves: the snapshot, and the earlier last success where it brings none |
| RequestPatch.Commute | internal/requestpatch/patch.go:125-213 | paths that part company write to the same effect in either order, and both succeed |
| RequestPatch.OrderFreeExactlyWhenApart | internal/requestpatch/patch.go:48-66 | two working append-free paths can be swapped for all values if and only if they part company in the body |
| RequestOrder.RuleOrderFreeExactly | internal/requestpatch/patch.go:48-66 | for any set of append-free paths that can each be written: all orders of all of them write the same, for all values, if and only if they part company two by two; otherwise values and two orders that differ are built |
| RequestOrder.EveryOrderWorksExactly | internal/requestpatch/patch.go:48-66 | for any set of append-free paths: every order writes the body, and to the same effect, for all values, if and only if each can be written alone and they part company two by two |
| RequestOrder.SomeOrderWorks | internal/requestpatch/patch.go:125-213 | such paths can always all be written in some order, whatever they do to each other |
| RequestPatch.DivergingPathsPart | internal/requestpatch/patch.go:125-213 | the condition read off the paths alone: they differ before either ends, want the same containers until then, and are not two spellings of one index |
| RequestPatch.SpellingsOfOneIndex | internal/requestpatch/patch.go:186-199 | "a.1" and "a.01" meet every other condition and still depend on their order |
| RequestPatch.AnyOrder | internal/requestpatch/patch.go:48-66 | every order of an order-free rule's paths writes the same body |
| RequestPatch.EachReadsBack | internal/requestpatch/patch.go:48-66 | after an order-free rule each path reads back its own value |
| RequestPatch.ApplyRule | internal/requestpatch/patch.go:52-65 | for any rule the result is that of some order of its paths; an order-free rule succeeds with the one effect in every order; an empty path or an undecodable value is always an error |
| RequestPatch.Apply | internal/requestpatch/patch.go:31-75 | the matching rules in turn, each in some order of its paths, with the one possible result when all are order-free; without a matching rule the body is returned as it came; a body that is not an object is refused |
| RequestPatch.MatchesMeans | internal/requestpatch/patch.go:77-91 | a rule without models or with a wildcard is for every model, any other for just those it names |
| RequestPaths.PathSplits | internal/requestpatch/patch.go:113-123 | the segments of a path are the non-empty pieces between its dots |
| RequestPaths.SplitsBack | internal/requestpatch/patch.go:113-123 | joining segments with dots and splitting again gives the same segments |
| RequestPaths.IndexReads | internal/requestpatch/patch.go:215-225 | a number written out, with leading zeros or a sign or not, reads as that index |
| RequestPaths.NoIndex | internal/requestpatch/patch.go:215-225 | whatever has any other character in it is a field name |
| RequestPaths.AppendAppends | internal/requestpatch/patch.go:165-184 | an append segment adds one element at the end, unless one of its type is there |
| RequestPaths.MissingIsMade | internal/requestpatch/patch.go:125-163 | missing containers are made, objects or arrays as the next segment asks |
| RequestPaths.LeavesElsewhere | internal/requestpatch/patch.go:125-213 | a write leaves every other field and element as it was |
| ImportJob.ParseFile | internal/importer/manager.go:535-661 | queued results are exactly the parsed items and everything else has failed, for every way a file can parse or not |
| ImportJob.Merge | internal/importer/manager.go:355-379 | a repeated identity is skipped, everything else is queued and pending, and the pending identities are the deduplicated ones |
| ImportJob.KeptIdentities | internal/importer/manager.go:355-368 | deduplication loses no identity and repeats none but the blank one, which is kept as often as it comes |
| ImportJob.NamedBatchExactly | internal/importer/manager.go:355-368 | the identities sent are all real and pairwise distinct if and only if no entry of the batch is without one |
| ImportJob.NobodyIsSent | internal/importer/manager.go:355-368 | the importer itself does not check: a converter that delivered an entry with nothing but a name would have it sent with a blank identity |
| ImportJob.BlankIdentity | internal/importer/manager.go:926-944 | an input has no identity if and only if it names no user, email or token; such an input has no token |
| ImportJob.ImportIdentityTells | internal/importer/manager.go:926-944 | which of user, email and tokens an input goes by |
| ImportJob.ImportIdentityAgrees | internal/importer/manager.go:926-944 | where an input names a user or an email the importer and the store go by the same account |
| ImportJob.SettledResultsBalance | internal/importer/manager.go:827-893 | with nothing queued, total = processed = created + updated + skipped + failed per file and overall |
| ImportJob.RecordStored | internal/importer/manager.go:431-444 | every pending item gets the store's id and verdict for its own input, no other item changes, and created and updated grow by exactly the store's counts |
| ImportJob.Job.Summarize | internal/importer/manager.go:827-893 | rebuilds every count from the items, filling in one failure for a file never reached |
| ImportJob.Job.Finish | internal/importer/manager.go:450-474 | closes a job whose books add up, with the status they call for |
| ImportJob.Collect | internal/importer/manager.go:335-400 | whether it runs to the end, into the deadline or over the entry limit, the queued results are exactly the pending items |
| ImportJob.Preflight | internal/importer/manager.go:476-534 | where every file can be counted, a job is turned away before anything is parsed if and only if it has too many entries |
| ImportJob.SentIsCounted | internal/importer/manager.go:381-398 | nothing is sent that was not counted against the limit |
| ImportJob.Persist | internal/importer/manager.go:402-445 | after the deadline nothing is sent; otherwise the batch is stored whole or every pending item fails |
| ImportJob.Run | internal/importer/manager.go:302-448 | on every exit the finished job is closed and balanced; what was sent, always when time and the entry limit allow, is the deduplicated batch; created and updated are what the store took; where every entry has a token everybody sent has an identity of their own; a batch with a blank identity stores nothing |
| ImportJob.TokenedAreNamed | internal/importer/manager.go:926-944 | files whose entries all have tokens send nobody without an identity |
| ImportSources.ParseDocument | internal/auth/import_grok.go:200-291 | a document is accepted exactly when it offers something and all of it is good, and then yields just that, in order |
| ImportSources.TokensTaken | internal/auth/import_grok.go:515-612 | which of an entry's tokens are taken |
| ImportSources.ConvertBatch | internal/sso/client.go:115-247 | the service's results are accepted exactly when each names a position of its own in the batch; each lands at its position, an unanswered one has failed |
| ImportSources.Convert | internal/sso/client.go:40-105 | the batches cover the values without gap or overlap: value k is answered by position k mod size of batch k / size; one bad batch fails the conversion |
| ImportSources.DeliveredMeans | internal/sso/client.go:209-230 | what the service must answer for a value to be delivered, and what is delivered then |
| ImportSources.BatchBounds | internal/sso/client.go:59-66 | how many values a batch takes, and from what setting on none is sent |
| ImportSources.ProducedIsTokened | internal/sso/client.go:209-230 | neither producer delivers an entry without a token |
| ImportSources.Import | internal/importer/manager.go:302-448 | whatever the uploads hold and the service answers, everybody an import sends has an identity of their own |

## Left out

- HTTP, OAuth, billing and model clients, TLS, outbound proxies, handlers, routing, the admin UI, metrics and logging are I/O; their answers are parameters.
- Real clocks and random numbers are parameters; a jitter is any value up to a tenth of its cooldown.
- Trimming, URL and issuer syntax, and the parsing of JSON, SSE and HTTP dates are taken as done: strings are the trimmed ones and events are decoded. Case folding of rule models is left out.
- SHA-256 is modelled by the text it digests, hence injective.
- Integer overflow is left out, of revisions, epochs and versions, of 64-bit nanosecond arithmetic for cooldown bases above a hundred days, and of allocation for very large array indexes.
- A process restart is left out except where a state is seeded from the store; the backup file is part of internal/storage/store.go's recovery and is not modelled.
- An edit of the store file by another process in the middle of a locked section is left out; edits between sections are modelled.
- Unrestricted record writes (`UpdateCredential`, `QuarantineCredential` with a reason of its own) and `DeleteCredentialIfPurgeEligible` would void the lifecycle invariant or repeat the purge rule.
- Token usage numbers in the stream, and failures of the client connection while writing, are left out; so is internal/openai/chat_stream.go, a smaller sibling.
- Admission to the import queue, retention of finished jobs, item warnings and wiping of inputs would add only bounds on counters.
- The model listing, billing and inspection callers of the selector and of the verified route use the same two patterns as the failover loop and are not modelled separately.
- InspectionRunner.InspectionIsFair: takes the prober never to report a credential as unauthorized whose snapshot an operator had disabled, which is what inspectionCredentialUsable (internal/proxy/executor.go:1082-1085) sees to.
- RequestPatch.Apply: writes on JSON values, not on shared mutable maps and slices; a failed write in the source may leave a decoded body half written, which is then discarded.
- RequestPatch.Commute: covers append-free paths; an append depends on what was appended before it.
- RequestOrder.EveryOrderWorksExactly: covers append-free paths, as RequestPatch.Commute does.
- ImportSources.ParseDocument: takes objects as decoded; the early count of entries (internal/auth/import_grok.go:298-309) is left out, and the import job judges the limit by the parsed entries.
- ImportSources.Convert: takes the client's settings as ready or not, and a reply as the results it decodes to or unreadable.
- StreamItems.TranslateItems: takes item ids that do not themselves begin with "text:" or "tool:", the translator's own key prefixes; events that name no item are covered by StreamTranslation.ToldExactlyOnce.
- ImportJob.Run: takes the importer's store to refuse a batch with a tokenless input, as the credential store does.
- Routing.SameRevisionSameRecord: takes ids to be generated and never reused after a deletion.

# A verified model of the gateway's stateful core

The gateway keeps dedicated tokens for connected apps, limits request rates, reconciles the model
lists of its channels with what their upstreams offer, buffers request bodies, measures Ogg/Opus
uploads, caches structs in Redis and polls drawing tasks. This project models those parts in Dafny
and proves what they keep. Code that changes state step by step is a class whose methods are proved
against a specification function of the old state; the theorems are about those functions, over all
inputs and all runs.

Run `dafny verify dfyconfig.toml` to check everything.

## The parts

- **Connected apps** (`ConnectedAppStore`, `ConnectedAppDb`, `ConnectedAppRuns`,
  `ConnectedAppSessions`, `ConnectedAppReleases`, `ConnectedAppDevices`, `ConnectedAppLogin`,
  `ConnectedAppCodes`, `ConnectedAppCalm`, `ConnectedAppRevocation`, `ConnectedAppUsage`). The tables are grants, bindings, tokens, access tokens, attributions, device
  sessions and authorization codes. Each transaction body is one function on the store and one method of
  `Database` that performs it row by row. A run is any sequence of ensures, rotations, revocations,
  device-flow steps (RFC 8628, sections 3.4 and 3.5), consents and exchanges of codes (RFC 6749,
  section 4.1) and events that the owner of a token causes; a step is one transaction. The program reads
  the session of a poll inside the transaction and locks its row; a step of the model is handed the row
  and may hold an older one than the program can, so that what is proved does not rest on the lock. A
  client is let in by the middleware before its transaction begins, and `ConnectedAppRevocation` lets any
  number of steps lie between the two. Two history tables, which no transaction reads, record which device
  each dedicated token was issued for and which credential each poll released.
- **Rate limiter** (`RateLimit`). The bounded queues and the sweeper refine a window over the whole log
  of grants.
- **Channel reconciliation** (`ModelReconcile`, `ReconcileEffects`, `BatchScan`, with `Names`, `Lists`, `Text`). Detection and
  application edit the local models, the ignore list and two pending lists; regular expressions are an
  arbitrary relation. The batch scans walk over all enabled channels while the table changes.
- **Multi-key channels** (`KeyList`, `MultiKey`, `KeyDeletion`, `KeyCleanup`, `KeyEach`, `KeyAppend`
  with `KeyLines`, `KeyRuns`). The key string, and the maps from key index to status, time and reason,
  through deleting, appending, replacing, enabling and disabling; the theorems are about the key overview
  that an administrator sees, for any keys, including blank ones and ones with newlines.
- **Bodies, audio, Redis** (`BodyStorage`, `BodyAccounting`, `Readers`, `OggScan`, `RedisHash`, `RedisRuns`, `Decimal`).
- **Catalogue and drawing tasks** (`ModelMeta`, `ModelMetaShows`, `Midjourney`).

## What was found

- Deleting the automatically disabled keys of a channel when every key is disabled that way deletes
  none and enables all of them: the joined key string is empty, and an update leaves empty columns out
  and counts the stored keys instead (`KeyDeletion.AllDisabledComeBack`).
- A blank line between keys is a key to the code. Once it is the first key of what a deletion leaves, the
  stored string loses it and every status moves by one: a key that was disabled automatically is served
  again (`KeyCleanup.BlankLineMovesStatus`), and a time is left at an index without a key
  (`KeyCleanup.BlankLineLeavesTime`). A deletion keeps the other lines exactly when the remaining list
  can be stored (`KeyDeletion.DeleteKeyTakesOneOut`, `KeyDeletion.DeleteDisabledIsFilter`).
- Appending a key to a stored string that begins like a JSON array but is not one drops the keys that were
  served from it (`KeyAppend.AppendLosesKeys`, `KeyAppend.PlainAppendToMalformedArray`); appending the same
  input twice can drop keys in the same way (`KeyAppend.SecondAppendDropsCopy`).
- An update cleans the status map only. After a replacement by fewer keys, an append and a disable by hand, a
  new key shows the time and reason of the key that was at its index (`KeyRuns.ShrinkingLeavesReason`).
- The guard on a drawing task's status does not make the refund unique, not even when each refund
  changes the status: a status that comes back lets an old snapshot pass. The exact condition is
  `Midjourney.RefundableIffExposed`.
- A drawing task that the upstream reports as done, but only after an hour, is failed and refunded all the same
  (`Midjourney.LateSuccessIsRefunded`).
- The sweeper is harmless up to one second beyond the documented bound, and no further
  (`RateLimit.SweepBoundIsExact`); a limit of zero lets one request through.
- Pending lists stay fresh exactly for upstreams whose names contain no comma and, as ignore entries,
  mean just themselves (`ModelReconcile.PlainIsExact`).
- Without the group scope, ensuring a token that cannot be reused drops the token's group
  (`ConnectedAppSessions.EnsureKeepsGroupWithoutScope`).
- Refusing an overdue answer undoes the expiry that the same transaction wrote; the session stays
  pending until a poll or a status request expires it (`ConnectedAppSessions.OverdueAnswerLeavesPending`).
- A revocation is not the end of everything that the user approved before it. An authorization code that is
  pending survives it: exchanging the code authorises the grant again and hands out a working key, without a new
  approval (`ConnectedAppRevocation.LateExchangeWorks`). A request of a client that the middleware let in before
  leaves an enabled token and an active binding behind (`ConnectedAppRevocation.LateEnsureBinds`); routes that look
  at the grant refuse that token until the next consent and accept it afterwards
  (`ConnectedAppRevocation.LateEnsureRevived`), while a route without that check, such as those of video tasks
  (router/video-router.go:21), only asks that it is enabled. No other key, binding or authorisation comes back: the
  exact conditions are `ConnectedAppRevocation.RevocationHolds` and `ConnectedAppRevocation.RowsComeBack`.
- A poll looks for the grant's row and not at its status: a session that was authorised before a revocation and not
  polled yet still releases an active management token. It is refused while the grant is revoked and
  accepted after the next approval, of whatever device (`ConnectedAppRevocation.LateReleaseIfOpen`,
  `ConnectedAppRevocation.RevivedIfOpen`; the runs are `OneLatePoll` and `LatePollRevived`).
- A consent stores the address as it was sent, and an exchange compares it with the trimmed one: a code whose address
  has blanks around it can never be exchanged (`ConnectedAppRevocation.RedeemableIsExact`).
- Recording an attribution keeps the first record of a token; a later one does not replace it.

## Model

| member | source | states |
|---|---|---|
| RateLimit.InMemoryRateLimiter.Request | common/rate-limit.go:45-70 | the new queues and the decision, over the stored queues |
| RateLimit.InMemoryRateLimiter.ClearExpiredItems | common/rate-limit.go:28-42 | exactly the keys whose newest grant is older than the expiry are dropped |
| RateLimit.QueueDecides | common/rate-limit.go:54-68 | a queue that holds the end of the grant log decides as a count over the whole log does |
| RateLimit.QueuesRefineWindow | common/rate-limit.go:28-70 | over every interleaving of requests and sweeps a request is granted exactly when fewer than the capacity of earlier grants lie in the window |
| RateLimit.GrantsAreSpaced | common/rate-limit.go:45-70 | any capacity + 1 consecutive grants of a key span at least the duration |
| RateLimit.SweepsAreInvisible | common/rate-limit.go:28-42 | removing every sweep from a run changes no decision |
| RateLimit.SweepBoundIsExact | common/constants.go:212-213 | the sweeper never changes a decision if and only if no duration exceeds the expiry by more than one second |
| RateLimit.ExpiryRunDiffers | common/rate-limit.go:28-42 | beyond that bound a burst, a sweep and one more request are decided differently |
| ModelReconcile.MergeModelNames | controller/channel_upstream_update.go:104-118 | the base names followed by the appended names that are not among them |
| ModelReconcile.SubtractModelNames | controller/channel_upstream_update.go:120-129 | the base names that are not removed, in order |
| ModelReconcile.IntersectModelNames | controller/channel_upstream_update.go:131-140 | the base names that are allowed, in order |
| ModelReconcile.ApplySelectedModelChanges | controller/channel_upstream_update.go:142-147 | additions are merged in and removals taken out, where adding wins |
| ModelReconcile.CollectPending | controller/channel_upstream_update.go:176-235 | what is new upstream and what is gone, by the membership conditions of `IsNew` and `IsGone` |
| ModelReconcile.Channel.CheckAndPersist | controller/channel_upstream_update.go:349-407 | the stored row after a detection, with the throttle, failed fetches, failed saves and automatic additions |
| ModelReconcile.Channel.ApplyUpdates | controller/channel_upstream_update.go:780-828 | the stored row after a selection is applied, and the reported remainders |
| ModelReconcile.StoredNamesReadBack | model/channel.go:324-329 | a normalised list survives the comma-separated column if and only if no name contains a comma |
| ModelReconcile.DetectionIsFresh | controller/channel_upstream_update.go:349-407 | after a detection the stored pending lists are those of a new detection, also when what it found was added at once |
| ModelReconcile.ApplicationIsFresh | controller/channel_upstream_update.go:780-828 | any choice of additions, ignores and removals leaves pending lists that equal, as sequences, those of a new detection |
| ModelReconcile.RunStaysFresh | controller/channel_upstream_update.go:349-407 | fresh pending lists stay fresh over every run of detections and applications |
| ModelReconcile.RunAfterDetectionIsFresh | controller/channel_upstream_update.go:349-407 | from any stored row, one forced detection makes the rest of the run fresh |
| ModelReconcile.ApplyAllReachesFixedPoint | controller/channel_upstream_update.go:847-926 | applying everything leaves nothing pending, and detecting again finds nothing |
| ModelReconcile.PlainIsExact | controller/channel_upstream_update.go:176-235 | all runs stay fresh if and only if the candidate names contain no comma and mean just themselves as ignore entries |
| ModelReconcile.CommaBreaksFreshness | controller/channel_upstream_update.go:780-828 | a pending name with a comma, once added, is still found by a detection |
| ModelReconcile.PatternBreaksFreshness | controller/channel_upstream_update.go:176-235 | ignoring a name that acts as a pattern for another name, or not for itself, makes the stored list stale |
| ReconcileEffects.PendingAre | controller/channel_upstream_update.go:176-235 | which names become pending additions and removals, by the upstream list, the local list, the redirects and the ignore list |
| ReconcileEffects.NameListsAre | controller/channel_upstream_update.go:104-140 | merging, subtracting and intersecting, name by name |
| ReconcileEffects.SelectionIs | controller/channel_upstream_update.go:142-147 | applying a selection, name by name |
| ReconcileEffects.DetectionRuns | controller/channel_upstream_update.go:349-373 | when a detection runs, and what it leaves when it does not, fails or cannot be stored |
| ReconcileEffects.DetectionStores | controller/channel_upstream_update.go:374-407 | what a detection stores, name by name, with and without automatic additions |
| ReconcileEffects.ApplicationIs | controller/channel_upstream_update.go:780-828 | what an application stores, name by name |
| ReconcileEffects.WantedStaysLocal | controller/channel_upstream_update.go:225-233 | over every run a local name that is offered upstream, or is the source of a redirect, stays local |
| BatchScan.Scan | controller/channel_upstream_update.go:540-608 | while the table changes between queries: no channel is visited twice, only enabled ones are, and one enabled throughout is not missed; the scan ends |
| BatchScan.VisitsThemAll | controller/channel_upstream_update.go:854-909 | while the enabled channels stay the same the scan visits exactly them, each once and ascending |
| BatchScan.QueryResult | controller/channel_upstream_update.go:834-845 | a batch is ascending, behind the last id, and complete up to its end |
| BatchScan.NoProgressBelowOne | controller/channel_upstream_update.go:842-844 | behind a full batch that ends at or below id 0 the same batch is found again |
| ConnectedAppDb.Database.EnsureTokenForDevice | controller/connected_app_developer.go:1492-1560 | the rows and the reply of an ensure for a device: reuse, replacement or rotation |
| ConnectedAppDb.Database.IssueOAuthKey | service/connected_app_oauth.go:239-308 | the rows and the reply of the key issue of the authorization-code flow |
| ConnectedAppDb.Database.ConsentToApp | controller/connected_app_oauth.go:118-211 | the refusals, the granted scopes, the authorised grant and the pending code |
| ConnectedAppDb.Database.ExchangeCode | controller/connected_app_oauth.go:214-283 | the rows and the reply of an exchange; a refused one uses up no code |
| ConnectedAppDb.Database.ConsumeCode | model/connected_app.go:891-917 | exactly a pending code that has not expired is used up |
| ConnectedAppDb.Database.CheckEnsureGroup | controller/connected_app_client.go:468-501 | the group an ensure may use, or why it is refused |
| ConnectedAppDb.Database.EnsureClientToken | controller/connected_app_client.go:530-602 | the rows and the reply of a client's ensure |
| ConnectedAppDb.Database.OwnedToken | controller/connected_app_client.go:685-698 | only the current token of the device's active binding is the device's own |
| ConnectedAppDb.Database.RotateClientToken | controller/connected_app_client.go:604-642 | the rows and the reply of a client's rotation |
| ConnectedAppDb.Database.RevokeClientToken | controller/connected_app_client.go:350-380 | the rows and the reply of a client's token revocation |
| ConnectedAppDb.Database.RevokeDevice | controller/connected_app_client.go:382-429 | the rows after a device revocation, with or without its token |
| ConnectedAppDb.Database.RevokeActiveBindings | controller/connected_app_user_grants.go:117-151 | the loop over the bindings equals revoking all of them and disabling their tokens at once |
| ConnectedAppDb.Database.RevokeSelfGrant | controller/connected_app_user_grants.go:106-151 | the rows and the reply of a grant revocation |
| ConnectedAppDb.Database.StartDeviceFlow | controller/connected_app_developer.go:414-476 | a new pending session with its expiry, after up to five draws of codes; none when all of them are taken |
| ConnectedAppDb.Database.GetDeviceStatus | controller/connected_app_developer.go:478-538 | the status, expiring an overdue pending session; refused to users other than the one who answered it |
| ConnectedAppDb.Database.AuthorizeDevice | controller/connected_app_developer.go:540-682 | the rows and the reply of a user's answer, with the guarded update |
| ConnectedAppDb.Database.IssueManagementToken | controller/connected_app_client.go:431-456 | a new active management token of the device, with the scopes and the id of the grant |
| ConnectedAppDb.Database.PollDeviceFlow | controller/connected_app_developer.go:684-847 | the rows and the reply of a poll in both flows, with the guarded update |
| ConnectedAppDb.Database.RevokeAccessTokens | model/connected_app.go:670-684 | exactly the live access tokens of the app and user, on one device or all, are revoked |
| ConnectedAppDb.Database.RecordAttribution | model/connected_app.go:552-576 | the first attribution of a token stays |
| ConnectedAppDb.Database.UpsertBinding | model/connected_app.go:512-550 | one row per app, user and device that keeps its id; incomplete rows are refused |
| ConnectedAppRuns.InactiveBindingIsDisabled | controller/connected_app_user_grants.go:117-151 | under the run invariant the token of a binding that is not active is disabled |
| ConnectedAppRuns.NextKeepsTokenInv | controller/connected_app_client.go:350-429 | every transaction and every event of a token keeps the token invariant |
| ConnectedAppRuns.RevokeBindingsDisables | controller/connected_app_user_grants.go:117-151 | revoking the active bindings disables every token ever issued to the app and user |
| ConnectedAppSessions.RunKeepsInv | controller/connected_app_developer.go:414-847 | every run keeps the token and session invariants |
| ConnectedAppSessions.ReachableTokensAreUnique | controller/connected_app_developer.go:1492-1560 | in every reachable state each app, user and device has at most one enabled issued token |
| ConnectedAppSessions.CredentialReleasedOnce | controller/connected_app_developer.go:684-847 | over every run at most one poll releases a credential of a session, however old the rows are that polls have read |
| ConnectedAppSessions.PollLogsItsRelease | controller/connected_app_developer.go:729-847 | the release log gains an entry exactly when a poll hands out a credential |
| ConnectedAppSessions.NextMoves | controller/connected_app_developer.go:414-847 | a step moves a session from pending to authorised, denied or expired, or from authorised to consumed, and an overdue one only to expired |
| ConnectedAppSessions.RunMoves | controller/connected_app_developer.go:414-847 | over a run nothing leaves denied, expired or consumed, and a decided session keeps its user and token |
| ConnectedAppSessions.OverdueIsNeverAuthorized | controller/connected_app_developer.go:571-667 | a session still pending at its expiry is never authorised, denied or consumed later |
| ConnectedAppSessions.StalePollIsSound | controller/connected_app_developer.go:710-826 | a poll never answers that the user or the token is missing, and what it releases belongs to the session's app, user and device |
| ConnectedAppSessions.OverdueAnswerLeavesPending | controller/connected_app_developer.go:571-588 | an overdue answer is refused as expired and leaves the session pending, unlike a look or a poll |
| ConnectedAppSessions.GrantRevocationIsComplete | controller/connected_app_user_grants.go:117-151 | afterwards no binding of the app and user is active, no issued token enabled, no access token live, and all other rows are unchanged |
| ConnectedAppReleases.PollReleases | controller/connected_app_developer.go:710-826 | a poll of the stored session hands out a credential if and only if the session is authorised, its user exists, and the token row of the user and a binding of it exist (key flow) or the device is named (management flow); otherwise it changes nothing but an overdue session |
| ConnectedAppReleases.PollAnswers | controller/connected_app_developer.go:728-826 | what a poll that hands out nothing answers |
| ConnectedAppReleases.ReleasedManagementToken | controller/connected_app_client.go:431-456 | the one row that a poll of the management flow adds, with the scopes of the grant and 90 days |
| ConnectedAppReleases.ConsumedIffLogged | controller/connected_app_developer.go:751-822 | a step consumes a session if and only if it logs its release |
| ConnectedAppReleases.ReachableConsumedIsReleased | controller/connected_app_developer.go:684-847 | in every reachable state a session is consumed if and only if the log has exactly one entry for it |
| ConnectedAppDevices.EnsureEffect | controller/connected_app_developer.go:1492-1560 | when an ensure succeeds; the device then has a token that is enabled, not expired and not out of quota: its old one, if that is such and no rotation is asked for, and else a new one |
| ConnectedAppDevices.EnsureNamesGroup | controller/connected_app_developer.go:1516-1541 | the group of that token |
| ConnectedAppDevices.EnsureGrants | model/connected_app.go:370-404 | the grant is authorised with the default scopes and keeps its id; no other grant changes |
| ConnectedAppDevices.IssueReplaces | controller/connected_app_developer.go:1521-1560 | a new token disables the old one, is the device's and spares all other bindings and tokens |
| ConnectedAppDevices.ClientEnsureEffect | controller/connected_app_client.go:468-602 | when a client's ensure succeeds, and what token of which group the device then has |
| ConnectedAppDevices.ClientRotateEffect | controller/connected_app_client.go:604-642 | when a rotation succeeds; the old token is disabled and the new one has its group |
| ConnectedAppDevices.ClientRevokeEffect | controller/connected_app_client.go:350-380 | when a client's revocation succeeds; its token and binding end and nothing else changes |
| ConnectedAppDevices.DeviceRevokeEffect | controller/connected_app_client.go:382-429 | exactly the management tokens that name the device end, and its dedicated token if that is asked for |
| ConnectedAppDevices.DeviceHasNone | model/connected_app.go:670-684 | the device has no active management token afterwards, if and only if its name has no blanks around it or there was none |
| ConnectedAppDevices.EnsureRefusals | controller/connected_app_developer.go:1492-1512 | why an ensure is refused |
| ConnectedAppDevices.ClientEnsureRefusals | controller/connected_app_client.go:468-602 | why a client's ensure is refused |
| ConnectedAppDevices.ClientRefusals | controller/connected_app_client.go:685-698 | why a client's rotation or revocation is refused |
| ConnectedAppLogin.DeviceLogin | controller/connected_app_developer.go:414-847 | a device that starts a session which a user approves gets its credential with its poll if and only if the user exists and approved within ten minutes; the credential works |
| ConnectedAppLogin.BrowserLogin | controller/connected_app_oauth.go:118-283 | an app that exchanges the code of a consent gets a key that works if and only if it does so within ten minutes, for that address, with its secrets, and the user exists; the scopes of the grant |
| ConnectedAppLogin.StartOutcome | controller/connected_app_developer.go:414-476 | when a start succeeds, and the one session it makes |
| ConnectedAppLogin.KeyApproval | controller/connected_app_developer.go:540-682 | when an approval of the key flow succeeds; the session then has the token of its device, which works |
| ConnectedAppLogin.ManagementApproval | controller/connected_app_developer.go:618-626 | when an approval of the management flow succeeds; it makes no token |
| ConnectedAppLogin.DenialOutcome | controller/connected_app_developer.go:590-616 | when a denial succeeds, and the one row it changes |
| ConnectedAppLogin.ConsentOutcome | controller/connected_app_oauth.go:118-211 | when a consent succeeds, and the code and grant it leaves |
| ConnectedAppLogin.ConsentScopesAre | controller/connected_app_oauth.go:156-168 | which scopes a consent grants |
| ConnectedAppLogin.LookOutcome | controller/connected_app_developer.go:478-500 | whom a look tells the status, and which |
| ConnectedAppLogin.RevocationAccepted | controller/connected_app_user_grants.go:106-151 | which grants can be revoked |
| ConnectedAppLogin.AnswerRefusals | controller/connected_app_developer.go:571-589 | why an answer is refused |
| ConnectedAppLogin.CodeRefusals | controller/connected_app_oauth.go:118-283 | why a consent or an exchange is refused |
| ConnectedAppLogin.OtherRefusals | controller/connected_app_developer.go:414-500 | why a start, a look or a revocation is refused |
| ConnectedAppLogin.ManagementFlowIs | controller/connected_app_client.go:778-785 | which apps use the management flow |
| ConnectedAppCodes.CodeExchangedOnce | model/connected_app.go:891-917 | after a code was exchanged and any run, every exchange of it is refused and changes nothing |
| ConnectedAppRevocation.RevocationHolds | controller/connected_app_user_grants.go:106-151 | after a revocation something of the app and user is accepted under its grant again in a run without a new approval, if and only if a code from before is pending |
| ConnectedAppRevocation.RedeemableIsExact | controller/connected_app_oauth.go:256-265 | a code can be exchanged if and only if it is pending, has not expired and its address was stored trimmed |
| ConnectedAppRevocation.LateExchangeWorks | controller/connected_app_oauth.go:256-281 | the run that shows it: the exchange of such a code |
| ConnectedAppRevocation.RowsComeBack | controller/connected_app_user_grants.go:106-151 | the grant is authorised, a token enabled or a binding active again in such a run, if and only if a code is pending or a request that may ensure a token was let in before |
| ConnectedAppRevocation.LateEnsureBinds | controller/connected_app_client.go:530-602 | the run that shows it: a client that was let in before ensures its token |
| ConnectedAppRevocation.LateEnsureRevived | middleware/connected_app_scope.go:119-131 | that token is not accepted under its grant at first, and is after the next consent |
| ConnectedAppCalm.NextCalm | controller/connected_app_developer.go:1492-1560 | only an approval, a client, a redeemed code or a poll of the app and user can grant, bind, enable or hand out anything of theirs |
| ConnectedAppCalm.NextCalmButKeys | controller/connected_app_client.go:530-642 | without an approval no step but a redeemed code authorises the grant, and none but a poll hands out a management token |
| ConnectedAppRevocation.LateReleaseIfOpen | controller/connected_app_developer.go:751-776 | a run after the revocation can release an active management token if and only if an authorised session of the management flow was not polled |
| ConnectedAppRevocation.OneLatePoll | controller/connected_app_developer.go:751-776 | the run that shows it: one poll |
| ConnectedAppRevocation.RevivedIfOpen | middleware/connected_app_management.go:42-66 | a management token from before is accepted after the next approval if and only if such a session was left |
| ConnectedAppRevocation.LatePollRevived | middleware/connected_app_management.go:42-66 | the run that shows it: one poll, and the user's consent in the browser |
| ConnectedAppSessions.EnsureHandsOutOwnToken | controller/connected_app_developer.go:1492-1560 | an ensure hands out a token issued for this very app, user and device |
| ConnectedAppSessions.EnsureKeepsGroupWithoutScope | controller/connected_app_client.go:468-602 | without the group scope an ensure keeps the token's group if and only if it rotates, names a group, reuses the token or there is no group |
| ConnectedAppUsage.UsageTokens | controller/connected_app_developer.go:1193-1248 | the listed ids, each once, and their metadata |
| ConnectedAppUsage.ListsIssuedToken | controller/connected_app_developer.go:1193-1248 | the listing names exactly the tokens ever issued for the app |
| ConnectedAppUsage.HistoricalMeansReplaced | controller/connected_app_developer.go:1193-1248 | a listed token has its binding's status while it is the current token, and is historical otherwise |
| ConnectedAppUsage.ReachableListing | controller/connected_app_developer.go:1193-1248 | both, in every reachable state |
| OggScan.GetOpusGranules | common/audio.go:196-254 | the largest granule position on the visited pages, or 0, for every input, and the scan ends |
| OggScan.VisitedExactly | common/audio.go:207-248 | the visited headers are exactly those that no earlier visited page covers |
| OggScan.RunningMaxIsLargest | common/audio.go:227-231 | the running maximum is the largest granule position; negative ones do not count |
| OggScan.GranuleRoundTrip | common/audio.go:225-231 | a signed 64-bit position is read back from its eight little-endian bytes (section 6 of RFC 3533) |
| OggScan.PageReadsBack | common/audio.go:212-248 | a well-formed page is read back: header, granule position and extent |
| OggScan.NoStraddle | common/audio.go:216-222 | no capture pattern begins before a page and ends in it |
| OggScan.ScanFindsExactlyThePages | common/audio.go:196-254 | in a stream of pages separated by junk without a capture pattern the scan visits exactly the pages, whatever the payloads contain |
| OggScan.ScanReportsTheDuration | common/audio.go:196-254 | for such a stream the scan reports the largest granule position written, ignoring pages marked -1 (section 4 of RFC 7845) |
| Readers.BytesReader.Read | common/body_storage.go:47-54 | the reader of a byte slice: the next bytes, or the end even for an empty buffer |
| Readers.File.Read | common/body_storage.go:169-176 | the reader of a file: the next bytes; an empty buffer is filled anywhere |
| BodyStorage.MemoryStorage.Read | common/body_storage.go:47-54 | one read of the memory storage |
| BodyStorage.MemoryStorage.Seek | common/body_storage.go:56-63 | one seek of the memory storage |
| BodyStorage.DiskStorage.Read | common/body_storage.go:169-176 | one read of the disk storage |
| BodyStorage.DiskStorage.Seek | common/body_storage.go:178-185 | one seek of the disk storage |
| BodyStorage.DiskStorage.Bytes | common/body_storage.go:198-230 | the whole body, with the position restored |
| BodyStorage.SameReplies | common/body_storage.go:28-238 | the two storages answer a sequence of operations alike if and only if it neither reads into an empty buffer at the end nor seeks to data or a hole where the file system finds one |
| BodyStorage.StandardUseIsAlike | common/body_storage.go:28-238 | sequences with non-empty buffers and the three standard kinds of seeks meet that condition |
| BodyStorage.SeekReaches | common/body_storage.go:56-63 | the three standard seeks reach every position that is not before the start |
| BodyStorage.ReadsFromThere | common/body_storage.go:47-54 | what is read after a seek |
| BodyStorage.QueriesAnswer | common/body_storage.go:74-96 | the body and its size, at any position |
| BodyStorage.ClosedAnswers | common/body_storage.go:47-63 | a closed storage refuses reads and seeks |
| BodyStorage.QueriesDoNotMove | common/body_storage.go:198-230 | leaving out the calls for all bytes and the size changes no later position |
| BodyStorage.ReadsDeliverInOrder | common/body_storage.go:47-54 | reads in a row deliver the body from the position on, without gaps or repeats |
| BodyAccounting.BodyCache.IsDiskCacheAvailable | common/disk_cache_config.go:170-177 | whether another body of that size may go to disk |
| BodyAccounting.BodyCache.CreateBodyStorage | common/body_storage.go:241-259 | the counters and the bodies after a creation from bytes, with the fall back to memory |
| BodyAccounting.BodyCache.CreateBodyStorageFromReader | common/body_storage.go:262-303 | the same from a stream, with the length limit |
| BodyAccounting.BodyCache.CloseBody | common/body_storage.go:65-72 | the counters after a close; a second close changes nothing |
| BodyAccounting.LargeBodiesGoToDisk | common/body_storage.go:241-259 | when a body from memory goes to disk |
| BodyAccounting.StreamsGoToDisk | common/body_storage.go:262-303 | when a stream goes to disk, and which errors it meets |
| BodyAccounting.RunFromNothing | common/body_storage.go:37-303 | from nothing the counters are exact, and zero once all bodies are closed |
| BodyAccounting.CloseStopsAtZero | common/disk_cache_config.go:115-134 | counters that are too low stop at zero |
| BodyAccounting.ClosingGivesBack | common/disk_cache_config.go:115-134 | what closing takes off the counters |
| BodyAccounting.CloseKeepsExact | common/disk_cache_config.go:115-134 | closing keeps the counters equal to the number and size of open bodies, so the clamp at zero does nothing |
| BodyAccounting.RunKeepsExact | common/body_storage.go:37-303 | over every run of creations and closings the counters stay exact |
| BodyAccounting.ReaderAllOrNothing | common/body_storage.go:262-303 | with a working disk a body is created from a stream if and only if the stream is within the limit, and it holds the whole stream |
| BodyAccounting.ReaderOverruns | common/body_storage.go:262-303 | exactly when a stream takes the disk usage over its limit |
| BodyAccounting.RunStaysWithinLimit | common/disk_cache_config.go:170-177 | the disk usage stays within its limit throughout a run if and only if no step of it overruns |
| BodyAccounting.HonestRunStaysWithinLimit | common/body_storage.go:262-303 | in particular when no stream is longer than announced, lengths being unknown or not |
| KeyList.ArrayBegins | model/channel.go:216-218 | a key string is taken for an array if its first character that is not blank is an opening bracket |
| KeyList.StoredKeysReadBack | model/channel.go:211-233 | a key list survives being stored as lines if and only if the lines form an array of the same keys, or no array and no key contains a newline and no end is blank |
| MultiKey.SavedIsConsistent | model/channel.go:570-617 | an update leaves the size equal to the key count and every status in range, if and only if the key string is not an empty array |
| MultiKey.Channel.Update | model/channel.go:570-617 | the stored row after an update, in which an empty key string is left out |
| MultiKey.Channel.DeleteKey | controller/channel.go:1649-1727 | the stored row after one key is deleted by reindexing, and the refusals |
| MultiKey.Channel.DeleteDisabledKeys | controller/channel.go:1729-1796 | the stored row after the automatically disabled keys are deleted, and how many there were |
| MultiKey.Channel.Append | controller/channel.go:975-1053 | the stored row after new keys are appended |
| MultiKey.ReadKeys | controller/channel.go:1017-1023 | the trimmed, non-empty lines of the input |
| MultiKey.DropSeen | controller/channel.go:1026-1045 | the new keys, each once, that are not among the existing ones |
| KeyDeletion.DeleteKeyTakesOneOut | controller/channel.go:1649-1727 | deleting a key takes its line out of the overview and leaves every other line if and only if the remaining list can be stored; the last key is refused |
| KeyDeletion.DeleteDisabledIsFilter | controller/channel.go:1729-1796 | the overview afterwards is the lines not automatically disabled if and only if none is, or there is such a line and the remaining list can be stored |
| KeyDeletion.AllDisabledComeBack | controller/channel.go:1778-1784 | when every key is automatically disabled, all of them stay and are enabled |
| KeyDeletion.DeletionsAnswer | controller/channel.go:1649-1796 | when a deletion is refused, and how many keys the second one reports |
| KeyDeletion.DeleteKeyRange | controller/channel.go:1649-1727 | after a deletion every index in the maps is that of a key if and only if no kept key that gets behind the counted keys has a time or reason |
| KeyDeletion.DeleteDisabledRange | controller/channel.go:1729-1796 | the same for the deletion of the disabled keys, which drops what belongs to enabled keys |
| KeyCleanup.DeleteLine | controller/channel.go:1649-1727 | for lines, blank ones included: the lines that are shown after a key is deleted |
| KeyCleanup.DeleteDisabledLines | controller/channel.go:1729-1796 | for lines, blank ones included: the lines that are shown after the disabled keys are deleted |
| KeyCleanup.BlankLineMovesStatus | controller/channel.go:680-688 | with a blank line between two keys, deleting the first enables the automatically disabled last one |
| KeyCleanup.BlankLineLeavesTime | model/channel.go:570-617 | and leaves its time at an index that is no key's |
| KeyEach.EachStepStorable | controller/channel.go:1649-1727 | deleting the disabled keys one by one, the last first, leaves exactly the other lines when every list on the way can be stored |
| KeyEach.EachLeaves | controller/channel.go:1649-1727 | for lines, blank ones included: what deleting them one by one shows |
| KeyEach.DeleteDisabledIsDeletingEach | controller/channel.go:1649-1796 | for a stored list of lines, deleting the disabled keys at once shows what deleting them one by one shows, if and only if there is none or a key that is not blank is left |
| KeyAppend.AppendKeepsRows | controller/channel.go:975-1053 | unless the stored string is a malformed array: appending keeps every line in place and adds one enabled line for each new key, if and only if the extended list can be stored |
| KeyAppend.NewKeysOnceEach | controller/channel.go:1015-1048 | each key of the input is an old key or exactly one of the new ones |
| KeyAppend.AppendTwice | controller/channel.go:975-1053 | appending the same input again changes nothing that is shown, if and only if the string stored first does not look like an array, or meets a condition on its keys and the input |
| KeyAppend.AppendKnownToArray | controller/channel.go:984-996 | for an array that has the keys of the input already: if and only if its keys can be stored as lines, or it has none but a blank one |
| KeyAppend.SecondAppendDropsCopy | controller/channel.go:984-996 | a key that looks like an array, given twice: both copies are served until the second append |
| KeyAppend.AppendToMalformedArray | controller/channel.go:984-996 | an append to a malformed array keeps the lines that were served if and only if there is no new key or the new list begins with them |
| KeyAppend.PlainAppendToMalformedArray | controller/channel.go:984-996 | when the first new key does not look like an array, if and only if there is no new key |
| KeyAppend.AppendLosesKeys | controller/channel.go:984-996 | one plain key appended to a malformed array: only it is served afterwards |
| KeyRuns.NextIsTidy | controller/channel.go:1493-1796 | whether a step leaves an entry of a key that is not there: deletions, appends, replacements, enabling and disabling |
| KeyRuns.RunIsTidy | model/channel.go:570-617 | over a run no entry ever belongs to a key that is not there, if and only if every step is careful |
| KeyRuns.EditsShow | controller/channel.go:1493-1647 | the rows that enabling and disabling show |
| KeyRuns.DisabledAgainShows | controller/channel.go:1536-1577 | enabling by hand clears the time and reason, enabling automatically does not |
| KeyRuns.GentleRunIsTidy | model/channel.go:570-617 | a run stays tidy when its deletions leave lists that can be stored and its new strings bring no fewer keys |
| KeyRuns.DisabledNewKeyIsClean | controller/channel.go:1493-1535 | a key that is appended to a tidy channel and disabled by hand shows neither time nor reason |
| KeyRuns.ShrinkingLeavesReason | controller/channel.go:1493-1535 | after a replacement by fewer keys, an append and a disable by hand the new key shows the old time and reason |
| Midjourney.Copy.HandleItem | controller/midjourney.go:87-148 | the stored row, the poller's copy and the refund for one response item |
| Midjourney.Row.UpdateWithStatus | model/midjourney.go:170-176 | the row is written if and only if its status is the expected one |
| Midjourney.RefundedIffFailed | controller/midjourney.go:87-148 | an answer refunds the task if and only if the stored status is the snapshot's, the answer means failure and something was paid |
| Midjourney.RowShowsAnswer | controller/midjourney.go:87-148 | what the row shows after an answer to a fresh snapshot, late or not |
| Midjourney.NothingNewIsNotWritten | controller/midjourney.go:201-254 | when the row is written at all |
| Midjourney.GoneChannelFails | controller/midjourney.go:70-82 | a task whose channel is gone fails without a refund |
| Midjourney.LateSuccessIsRefunded | controller/midjourney.go:87-92 | a success that comes after an hour is failed and refunded |
| Midjourney.RefundableIffExposed | controller/midjourney.go:87-148 | a finished task can be refunded by some continuation of the pollers if and only if a snapshot matches its status or can be made to |
| Midjourney.RefundedAtMostOnce | controller/midjourney.go:87-148 | a run whose refunds never leave the task exposed refunds it at most once |
| Midjourney.SinglePollerRefundsOnce | controller/midjourney.go:29-148 | a single poller with one item per task and poll needs no further assumption |
| Midjourney.HonestUpstreamRefundsOnce | controller/midjourney.go:134-148 | nor do any number of pollers, if the upstream says FAILURE exactly for failed tasks |
| Midjourney.ChangingTheStatusIsNotEnough | controller/midjourney.go:134-148 | two refunds, each of which changes the stored status |
| Midjourney.DuplicateRefundsAgain | controller/midjourney.go:87-148 | a second item for the task in one response refunds again when its reason differs |
| RedisHash.Redis.HSetObj | common/redis.go:122-173 | the hash after a struct is written over it, and its expiry |
| RedisHash.Redis.HGetObj | common/redis.go:176-254 | the target after reading, field by field until the first error |
| RedisHash.Redis.HIncrBy | common/redis.go:290-315 | the increment, only while the key has time to live |
| RedisRuns.SetObjWrites | common/redis.go:122-173 | the fields that a write sets and leaves, and the time to live |
| RedisRuns.WriteReadsBack | common/redis.go:122-254 | whatever was stored before, a struct that is written is read back |
| RedisRuns.RunReadsLatest | common/redis.go:122-315 | after any run of writes, increments and waiting a read gives the last struct written with the increments since, unless it expired |
| RedisHash.StoredObjectReadsBack | common/redis.go:122-254 | a struct written over any earlier hash is restored into a zeroed one |
| RedisRuns.ReadStopsAtFirstBad | common/redis.go:176-254 | a read fails if and only if some stored text is not one for its field; what each field then holds |
| RedisRuns.IncrementOf | common/redis.go:290-315 | the number that an increment leaves, if any |
| RedisRuns.ZeroIs | common/redis.go:176-254 | what a target holds before it is read into |
| RedisHash.RestoredIsSame | common/redis.go:137-147 | what is restored is the struct itself if and only if it has no pointer to an empty string and no deletion time |
| RedisHash.IncrementIsUpdate | common/redis.go:290-315 | with a live expiry an increment is storing the struct with that field increased |
| RedisHash.IncrementReadsBack | common/redis.go:176-315 | reading after it gives the struct with the field increased by the same amount |
| RedisHash.IncrementNeedsExpiry | common/redis.go:294-301 | an increment leaves everything as it was if and only if the key has no time to live or the field cannot be increased |
| Decimal.IntReadsBack | common/redis.go:223-228 | an integer is read back from its decimal text if and only if it fits 64 bits |
| Decimal.FormatIsCanonical | common/redis.go:150-160 | the text of an integer has a sign only if it is negative and no leading zero |
| Decimal.FormatIsInjective | controller/model_meta.go:312-315 | different integers have different decimal texts |
| ModelMeta.EnrichModels | controller/model_meta.go:163-329 | every entry becomes what it would become by itself: the unions of what its matched prices and their channels offer |
| ModelMetaShows.MatchedModelsAre | controller/model_meta.go:217-236 | which priced names a rule entry lists: those with its name in front, behind or within |
| ModelMetaShows.UnionsAre | controller/model_meta.go:238-307 | the groups, quota types and endpoints of a rule entry |
| ModelMetaShows.ChannelsAre | controller/model_meta.go:309-323 | the channels of a rule entry |
| ModelMetaShows.ExactEntryShows | controller/model_meta.go:189-205 | what an exact entry shows |
| ModelMeta.UnionMembers | controller/model_meta.go:217-259 | the unions hold what some matched price has and nothing else |
| ModelMeta.ChannelKeyIsInjective | controller/model_meta.go:309-315 | channels are told apart by name, separator and type, whatever the names contain |
| ModelMeta.SubstringMeans | controller/model_meta.go:226-227 | a containing rule matches exactly the names with the pattern at some position |
| ModelMeta.GetBoundChannelsByModels | model/model_meta.go:114-138 | one query for many names has the channels of each |
| ModelMeta.ChannelsOfAreThose | model/model_meta.go:122-128 | the query names each channel of a model once, and no other |
| ModelMeta.UnionChannels | controller/model_meta.go:309-323 | the channels kept by their keys are the union of the channels of the names |
| Lists.SortedInts | controller/model_meta.go:299-305 | the elements of a set, each once and ascending |
| Lists.AscendingIsUnique | controller/model_meta.go:299-305 | that list is determined by the set |

## Left out

- Gin handlers, JSON binding, response bodies, URLs, notifications, audit logs and cache refreshes: plumbing.
- Transactions are serialised and roll back as a whole; row locks, retries and database errors other than a refused save are not modelled.
- Device codes, user codes, authorization codes, API keys and token names are ids from a counter; their randomness and hashing are not modelled, and how many codes in a row are taken is a parameter.
- Re-enabling a disabled dedicated token by its owner, a change of its group alone, and the Snapless handlers with their own model limits are not steps of the runs.
- ConnectedAppRevocation.RevocationHolds: the expiry of management tokens and whether the app is enabled are set aside, which only lets more in; an approval counts when its transaction runs.
- ConnectedAppDb.Database.ExchangeCode: the client secret and the verifier are one parameter that says whether they are right; the identity token of the reply is not modelled.
- The scopes that decide an app's flow are fixed over a run; app settings that do not decide it may differ from step to step.
- RateLimit.QueuesRefineWindow: the limit of a key is fixed over a run, and the clock does not go back; the mutex makes each request and each sweep one step.
- ModelReconcile.RunStaysFresh: the upstream list and the mapping are fixed over a run, as the statement is about one upstream; ability rows are not modelled.
- BatchScan.Scan: a failing query, which ends the scan early, is not modelled; the query's result is read after the query.
- OggScan.GetOpusGranules: the result is the granule count; the division by 48000 is floating point.
- BodyStorage.SameReplies: input and output errors of the file are not modelled, where a file system finds data and holes is an arbitrary function, and the byte slice that the memory storage hands out is a value, so that a caller changing it is not seen.
- BodyAccounting.RunKeepsExact: the sweeper of old files, the reset and the synchronisation overwrite the counters and are not steps of the runs; the configuration is fixed over a run.
- KeyEach.DeleteDisabledIsDeletingEach: for lists of lines; elements of a JSON array that contain newlines change their number when they are stored by lines, and then no index means the same key any more.
- KeyAppend.AppendKeepsRows: the input of Vertex AI channels, which is parsed as JSON, is not modelled; JSON parsing is an arbitrary function.
- KeyRuns.RunIsTidy: the times of the clock are parameters, the channel's own status and the polling position are not modelled, and automatic changes write the stored channel, not the cached copy.
- Midjourney.RefundableIffExposed: one task at a time; a response item for a task that was not asked for, on which the poller would fail, and tasks without an upstream id, which are failed without a poll, are not modelled.
- RedisHash.Redis.HGetObj: which texts are times is an arbitrary predicate; the server's hash operations are part of the model.
- ModelMeta.EnrichModels: entries are values, so two pointers to one entry are not modelled; lists built from maps have no order; a failing channel query is not modelled.
- Other audio formats, upstream HTTP calls, OAuth logins, quota accounting and identity tokens are not part of this model.

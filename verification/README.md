# Pulse Pager, verified

A Dafny model of the parts of Pulse Pager that have to survive redelivery, crashes and races,
and proofs of what they guarantee. Each protocol is a machine of labelled steps: a database
statement, a Redis command or an acknowledgement is one step, any of them can fail or lose its
reply, the process can die between any two, and other requests act in between. Where a
transaction of several statements is one step instead, `## Left out` says so. Theorems are
about every run of such a machine. Where the program is imperative, a class repeats its
statements one by one and its contract says that all it ever does is take steps of the machine,
so the theorems hold of the state it leaves; which calls fail is a parameter of its methods, and
the contract says what they answer in each case.

| file | what it holds |
|---|---|
| Domain, Engine, AlertStore | monitors, results and incidents; the pure alerting engine; the transactions that persist its decisions |
| History, Notifications, DedupKey | a monitor's rows and notifications as a fold over its history, compared with definitions over the whole history |
| Streams, RedisConsumer | the Redis consumer group and the poll loop |
| AlertPipeline, ExactlyOnce, AlertGuarantees, AlertRunner | the alerting service driven by the poll loop, end to end |
| RefreshTokens, RefreshSafety, RefreshGuarantees, RefreshService | refresh-token families under interleaved transactions |
| Authz, Membership, OrgServer, OwnerRaces, SeatRaces | the role gate, the member and invitation handlers, the role cache; the last-owner rule and the seat cap under interleaving |
| CachedReads, ApiKeys | read-through caching with interleaved lookups; API keys |
| FixedWindow, CheckNow, CheckNowGate, MagicLinkLimit | the fixed-window limiters |
| BillingIngest, BillingRetries, BillingHandler, SignatureHeader | the billing webhook, which of its retries are harmless, and its signature header |
| ChannelSecrets, MonitorInput, Text | secret redaction and merging, monitor validation, string handling |

The main result is `AlertGuarantees.ExactlyOnceEffect`: delivery is at least once, every store
call is retried, and still each monitor's rows are those of a history in which each distinct
result of the handled prefix of the stream took effect exactly once and in stream order.
`AlertGuarantees.IncidentsAreOutages` then reads the incidents off the raw results.

## Where the code and its comments differ

The model follows the code.

- The comment on `emit` (internal/alerting/service.go:278-281) says a redelivery emits a lost
  notification again. The watermark skip at lines 204-209 returns first, so emission is at most
  once, and that is what is proved.
- The comment at internal/alerting/service.go:172-173 says a result of a deleted monitor is
  dropped. The insert at line 166 comes first and names the monitor, so it fails and is retried
  for ever, and no later entry of the stream is handled: `AlertGuarantees.DeletionBlocksStream`
  is such a state, and `AlertGuarantees.OrphanHandledIff` says exactly which are not.
- The comment at internal/store/refreshtokens.go:72-77 says the rotating transaction rotates only
  a token that is unreplaced and unrevoked. Its select checks that and locks nothing, and its
  update has no condition, so two transactions that overlap rotate one token twice
  (`RefreshGuarantees.OverlapForksFamily`), and one that overlaps a revocation leaves a usable
  token in the revoked family (`RefreshGuarantees.RevocationMissesSuccessor`).
- The comment at internal/store/schema.sql:157-162 says the last-owner trigger holds under a race.
  Two statements that each take an owner away can both count the other's row before either
  commits: `OwnerRaces.OverlapLosesOwners`.
- The comment on `checkNowAllowed` (internal/api/monitors.go:363-369) calls the peek race-free.
  Requests for two monitors of one org can both peek before either counts:
  `CheckNow.InterleavedOvershoots` is such a run, and `CheckNow.OvershootIff` says exactly when
  it happens. The check after the increment still keeps the bound.
- The comment at internal/billing/ingest.go:102-103 says a reprocess is harmless because applying
  is idempotent. It is while the last event that wrote the row wrote the same, and only then:
  `BillingRetries.ReprocessHarmlessIff`; `BillingRetries.OvertakenRetryDiffers` is a run in which
  a reprocess undoes a newer event.
- `DownPolicy` does not change what the engine does today: one result is the verdict.

## Properties that hold under a condition

- The next check of a history repeats a dedup key exactly when it is an ssl check of the open
  incident that reaches a level an earlier check of it had reached, with a check judged as http
  since and none after that at the level or below (`Notifications.KeysStayDistinctIff`). That
  never happens while the type of the monitor stays the same; editing ssl to http and back makes
  it happen (`Notifications.TypeEditRepeatsKey`).
- A refresh-token family is one chain, revoked as one, at every step of a run exactly when no two
  rotations of one of its tokens overlapped each other and none overlapped the statement that
  revoked the family (`RefreshSafety.SoundIffNoOverlap`). A revocation is final exactly when no
  transaction has selected a token of the family and not committed when it runs
  (`RefreshGuarantees.RevocationIsFinalIff`).
- A refresh token's expiry bounds the check and not the write
  (`RefreshGuarantees.RotatableIff`, `RefreshGuarantees.LateWriteStillRotates`).
- An org keeps an owner while no two statements that take one away overlap
  (`OwnerRaces.OwnerRemains`); statements under way can take the last owner exactly when every
  owner is the target of one past its trigger's count (`OwnerRaces.AtRiskIff`).
- Deleting a cache entry restores transparency exactly when no lookup still holds an older answer
  (`CachedReads.InvalidationRestoresIff`, `CachedReads.OverlapLeavesOldAnswer`). A newly minted API
  key is refused exactly while an unexpired negative entry of an earlier probe is cached, at most
  30 seconds (`ApiKeys.KeyServer.Create`, `ApiKeys.KeyServer.Advance`).
- Members and pending invitations stay within the cap while no two invitations overlap and no
  acceptance falls between the two counts of one (`SeatRaces.SeatsHold`); requests under way can
  pass it exactly when the members, the pending invitations and the new addresses of the requests
  that found a seat are together more than the cap (`SeatRaces.OvershootIff`).
- A webhook event marked processed is never acted on again exactly when no overlapping delivery
  is already past the processed check (`BillingIngest.ProcessedIsFinalIff`,
  `BillingIngest.OverlapActsAgain`).
- The billing mirror equals applying each event once, after every step of a run, exactly when
  each time an event was applied again the last act on its row had written the same
  (`BillingRetries.MirrorAppliesOnceIff`); that holds whenever no retry was overtaken by another
  event of its org (`BillingRetries.MirrorAppliesOnce`).
- A limiter key is reset again exactly when its creator has not died between increment and
  expiry (`FixedWindow.ResetsIff`).
- An untouched edit gives back the stored channel config exactly when no secret is a nested map
  with text in it (`ChannelSecrets.UntouchedEditKeepsIff`).
- Printing and parsing a signature header agree exactly on timestamps that are not empty, have
  no semicolon and do not end in white space (`SignatureHeader.RoundTripIff`).

## Model

| member | source | states |
|---|---|---|
| Engine.SslWarnLevel | internal/domain/domain.go:32-44 | the loop over the thresholds returns 0 once expired, else the tightest of 7, 3 and 1 days that is crossed, else -1 |
| Engine.SslLevelMeans | internal/alerting/alerting.go:188-197 | the level of a check is -1 without a certificate, 0 from its expiry on, and otherwise 1, 3 or 7 for at most so many days left at the time of the check |
| History.CountersFollowHistory | internal/alerting/alerting.go:98-135 | after any ordered history, with any operator closes and edits, the fail count is the length of the trailing failing run, the first-fail time is that of the run's first check, and the watermark is the last applied result |
| History.FirstFailKnown | internal/alerting/alerting.go:163-170 | the fallback to the current check's time is never used |
| History.EngineRefinesHistory | internal/alerting/alerting.go:89-186 | for a constant threshold the engine, run one check at a time on its own stored state, leaves exactly the incidents cut out of the whole history: the maximal failing runs at least the threshold long, each ended by the next healthy check; an incident is open exactly while the trailing run reaches the threshold |
| Notifications.HistoryTidy | internal/store/incidents.go:166-267 | over any history only the newest incident can be open, ids grow, notices come in order of their results, and an incident has one recovery notice if it ended by recovery and none otherwise |
| Notifications.HttpDiscipline | internal/alerting/service.go:249-253 | over any history of an http monitor every incident has exactly one down notice, and one recovery notice exactly if it ended by recovery |
| Notifications.SslEscalation | internal/alerting/alerting.go:137-186 | while an ssl incident is open the stored level is the minimum over its failing checks and its warnings are the record minima of their levels, in order |
| Notifications.EscalatesOpen | internal/alerting/alerting.go:148-156 | a failing check on an open ssl incident warns exactly at a strict new minimum |
| Notifications.SslWarningsBounded | internal/alerting/alerting.go:137-197 | every ssl incident, open or closed, warns at strictly decreasing levels, so at most five times |
| Notifications.LevelsMeanHistory | internal/alerting/alerting.go:137-186 | for any edits and closes, while an incident is open the stored level tells which levels its checks have reached since the last check judged as http, and its warnings are exactly the levels some check was the first to reach since such a check |
| Notifications.KeysStayDistinctIff | internal/alerting/service.go:331-338 | for any history with any edits and closes, the next check keeps all dedup keys distinct unless it is an ssl check of the open incident reaching a level that an earlier check reached first, with a check judged as http since and none after it at the level or below |
| Notifications.DedupKeysDistinct | internal/alerting/service.go:324-338 | for a monitor whose type does not change no two notifications of its whole history share a dedup key |
| Notifications.TypeEditRepeatsKey | internal/alerting/alerting.go:137-156 | a history of three checks with two type edits that announces the same key twice |
| DedupKey.PreimageInjective | internal/alerting/service.go:331-338 | the text that is hashed determines incident, kind and level |
| DedupKey.PreimageText | internal/alerting/service.go:331-338 | the three texts: incident id and kind, and for an expiry warning the level |
| Streams.Conservation | internal/bus/redis.go:82-194 | in every reachable state an entry is exactly one of undelivered, pending and acknowledged, is pending at most once, and was acknowledged only after its handler succeeded |
| Streams.InOrderRetry | internal/bus/redis.go:82-149 | no stream ever has more than a batch pending, new entries are read only when nothing is pending, and an entry reaches the handler only after every earlier entry of its stream succeeded and was acknowledged |
| Streams.ReclaimFindsNothing | internal/bus/redis.go:95-105 | with one stable consumer name the reclaim scan never finds an entry |
| RedisConsumer.Consumer.constructor | internal/bus/redis.go:64-76 | a fresh group starts at the beginning of each stream's history |
| RedisConsumer.Consumer.Poll | internal/bus/redis.go:82-109 | a poll is a run of the stream machine; without error it has handled and acknowledged everything that was pending and a batch of new entries of every stream, leaving nothing pending, and it returns without error when nothing fails; it scans for stranded entries every 30 seconds |
| RedisConsumer.Consumer.ReadInto | internal/bus/redis.go:112-127 | re-reads one stream's own pending entries and dispatches them, ending at the next stream or, only on an error, the poll |
| RedisConsumer.Consumer.ReadNewEntries | internal/bus/redis.go:129-149 | reads new entries of all streams; without error, and so when nothing fails, every entry up to the batch has succeeded and is acknowledged |
| RedisConsumer.Consumer.ReclaimStream | internal/bus/redis.go:151-175 | the claim loop over one stream |
| RedisConsumer.Consumer.DispatchStreams | internal/bus/redis.go:177-186 | dispatches in order and stops at the first error; a drained read of new entries leaves nothing pending |
| RedisConsumer.Consumer.Dispatch | internal/bus/redis.go:188-194 | handler first, acknowledgement only after success; on an error or a crash the entry stays pending |
| AlertPipeline.Linearise | internal/store/incidents.go:166-267 | a commit of a decision made before an operator closed the incident leaves exactly the rows of a history in which check and close each took effect at one moment |
| ExactlyOnce.ReachableInv | internal/alerting/service.go:142-262 | the invariant of the whole pipeline holds after every run |
| AlertGuarantees.ExactlyOnceEffect | internal/alerting/service.go:142-262 | after any run, handled entries are a prefix of the stream and each monitor's rows are the replay of a history whose checks are the results of that prefix, one for each region and check time, in order, or of that prefix and the one entry being retried |
| AlertGuarantees.IncidentsAreOutages | internal/alerting/service.go:142-262 | without edits or operator closes the stored incidents are the maximal failing runs of the history's checks, which are the distinct results of the handled prefix (or that and the entry being retried), whatever was redelivered, lost or crashed |
| AlertGuarantees.EmittedAtMostOnce | internal/alerting/service.go:204-253 | every emission is a notification of its monitor's history and no two stem from the same result |
| AlertGuarantees.EmittedInOrder | internal/alerting/service.go:249-253 | a monitor's emissions come in the order its history announces them, also for monitors deleted since |
| AlertGuarantees.EmittedKeysDistinct | internal/alerting/service.go:331-338 | two emitted events never hash the same text, across all monitors whose type was not edited, deleted ones included |
| AlertGuarantees.HttpEmissions | internal/api/incidents.go:119-137 | for every run, no incident of an http monitor's history, deleted or not, is announced down twice or recovered twice, and never as recovered if it is open or an operator closed it, also between the handler's load and its commit |
| AlertGuarantees.OrphanHandledIff | internal/alerting/service.go:163-180 | in every reachable state whose oldest unhandled entry is a result of a monitor that is gone, some continuation gets it handled if and only if the handler holds it past its insert and short of its judgement, or past its commit; otherwise nothing more of the stream is ever handled |
| AlertGuarantees.DeletionBlocksStream | internal/alerting/service.go:163-180 | deleting a monitor whose result is waiting reaches such a blocked state |
| AlertRunner.Runner.Handle | internal/alerting/service.go:142-262 | one record, with operators acting and the process possibly dying between any two store calls, only takes steps of the pipeline machine; it ends by giving the record back with success or an error, or with nothing but the handler's memory and the poll's place lost; it succeeds when nothing goes wrong, unless the monitor is gone |
| AlertRunner.Runner.UpsertCheckResult | internal/store/incidents.go:75-99 | a result of a monitor keeps the id of the stored one of the same region and check time, if and only if there is one, and otherwise takes the next; a missing monitor, an error or a lost reply gives the record back |
| AlertRunner.Runner.GetMonitor | internal/alerting/service.go:171-180 | loads the configuration of the moment, exactly unless the call fails or the monitor is gone; a monitor that is gone settles the record |
| AlertRunner.Runner.LoadAlertState | internal/store/incidents.go:105-126 | loads the counters, the level last warned about and the open incident of the moment |
| AlertRunner.Runner.CommitDecision | internal/store/incidents.go:166-267 | one transaction that is skipped exactly at or below the watermark and otherwise moves watermark and counters; a skipped round succeeds with nothing to emit |
| AlertRunner.Runner.Emit | internal/alerting/service.go:282-315 | produces exactly the one notification, unless that fails, which is not an error |
| AlertRunner.Runner.CloseIncident | internal/store/incidents.go:396-437 | an operator's close ends the incident it names, by hand and at its time, if that is the open one, and changes nothing else |
| RefreshTokens.StepKeepsInv | internal/authn/refresh.go:58-151 | every step of any interleaving of lookups, transactions and revocations keeps the table invariant: hashes distinct, families rooted, every pointer a rotation, every rotation older to newer, what each call in flight has read still true |
| RefreshSafety.FamilyIsTree | internal/store/refreshtokens.go:78-108 | whatever interleaves, each token but the root of its family has exactly one predecessor, an older token of the same family and user, so a family has no cycle |
| RefreshSafety.TwiceOnlyIfOverlapping | internal/store/refreshtokens.go:78-108 | a token is rotated twice only by transactions that overlap |
| RefreshSafety.SoundIffNoOverlap | internal/store/refreshtokens.go:78-134 | for every run and family: it is one chain, revoked as one, after every step if and only if no two rotations of one of its tokens overlapped and none overlapped the statement that revoked it |
| RefreshSafety.SuccessorNeedsLiveParent | internal/store/refreshtokens.go:78-108 | committing a successor keeps a sound family sound if and only if the parent is live at that moment |
| RefreshSafety.ReuseIsDetected | internal/authn/refresh.go:100-121 | a lookup leads to revoking the token's family exactly when the token has been replaced, a rotation's select exactly when it has been replaced or revoked by then |
| RefreshSafety.RotationsBeforeExpiry | internal/authn/refresh.go:106-128 | no rotation passes its check at or after login plus 30 days, because every successor carries the first token's expiry |
| RefreshGuarantees.RotatableIff | internal/authn/refresh.go:106-116 | a live token can still be rotated with a given check and commit time if and only if the check comes before login plus 30 days |
| RefreshGuarantees.LateWriteStillRotates | internal/authn/refresh.go:106-116 | a run in which a delayed commit rotates after the expiry |
| RefreshGuarantees.FamilyIsChain | internal/authn/refresh.go:89-129 | without overlap a family, read in order of creation, is a single acyclic chain from its root: each token replaced by the next and by nothing else, the newest not replaced |
| RefreshGuarantees.AtMostOneLive | internal/authn/refresh.go:82-88 | without overlap at most one token of a family is neither replaced nor revoked |
| RefreshGuarantees.AtMostOneSuccessor | internal/store/refreshtokens.go:78-108 | without overlap a token gets at most one successor, of the same user, and points to it |
| RefreshGuarantees.PermanentIff | internal/authn/refresh.go:89-151 | a family all of whose tokens are revoked stays so, with no further rotation, whatever runs next, if and only if no transaction has already selected one of them |
| RefreshGuarantees.RevocationIsFinalIff | internal/store/refreshtokens.go:110-134 | the statement of reuse detection, logout or log-out-everywhere ends a family for good if and only if no transaction on it is between its select and its commit |
| RefreshGuarantees.RevocationSparesOthers | internal/store/refreshtokens.go:110-134 | a revoking statement stamps rows of its family, or its user, and changes nothing else |
| RefreshGuarantees.OverlapForksFamily | internal/store/refreshtokens.go:78-108 | a run in which two requests with one token leave two usable tokens and no reuse is detected |
| RefreshGuarantees.RevocationMissesSuccessor | internal/store/refreshtokens.go:78-121 | a run in which a logout between select and commit leaves a usable token in the revoked family |
| RefreshService.Service.Issue | internal/authn/refresh.go:58-74 | a login roots a family at its own row with 30 days to live; the token is handed out exactly after both statements |
| RefreshService.Service.Rotate | internal/authn/refresh.go:89-129 | with other requests between any two statements, success means the presented token points to the new one; exactly unknown, revoked and expired tokens are invalid and change nothing; a replaced token is answered with reuse; reuse is reported only of a token no longer live, and exactly unless the revoking write fails every token its family had before the call is then revoked, and the whole family if nothing overlapped; errors come only from faults |
| RefreshService.Service.RevokeStatement | internal/store/refreshtokens.go:112-121 | exactly unless it fails, the revoking statement, between scan and write of which other requests act, revokes every token the family had before it, and all of the family if nothing overlapped |
| RefreshService.Service.RevokeFamily | internal/authn/refresh.go:134-144 | sign-out of a known token succeeds exactly if it revoked every token its family had, and all of the family if nothing overlapped; an unknown token is a success that changes nothing |
| RefreshService.Service.RevokeAllOf | internal/authn/refresh.go:148-151 | the same for every family the user had before the call |
| Authz.HigherRoleMayMore | internal/authz/authz.go:114-214 | a higher role may do whatever a lower one may, on every resource |
| Authz.AllowedIff | internal/authz/authz.go:114-258 | an action is allowed exactly within one org, from the lowest role the matrix gives it, never an owner's action for a key, no owner touched or made by an admin, and not when it takes the last owner, which is the reason given exactly when it is the only one |
| Authz.OwnersAnswerToOwners | internal/authz/authz.go:187-251 | whoever may change or remove an owner is a human owner and another owner remains; only a human owner may make one or transfer ownership |
| Membership.AlwaysAnOwner | internal/api/members.go:64-259 | every serialised run of the handlers keeps at least one owner by the guards alone, also between the two writes of a transfer |
| Membership.OwnersOutOfReach | internal/authz/authz.go:227-250 | in a run whose actors are admins, lower roles or API keys the owner set changes only by owners leaving |
| OwnerRaces.OwnerRemains | internal/store/schema.sql:163-189 | with reads, guards, trigger counts and commits of any requests interleaved and any roles stale, an owner remains as long as no two owner-taking statements overlap from count to commit |
| OwnerRaces.AtRiskIff | internal/store/schema.sql:163-189 | finishing the statements under way can leave no owner if and only if every owner is the target of one past its trigger's count |
| OwnerRaces.OverlapLosesOwners | internal/api/members.go:64-134 | a run in which two owners demote each other, both guards and both triggers pass, and no owner remains |
| OwnerRaces.LoadIff | internal/api/members.go:64-259 | which requests go on to their guard: those whose target is a member, for a handover of a human owner to someone else, with the role read then |
| OwnerRaces.DecideIff | internal/api/members.go:64-259 | on what a request has read, its guard lets through exactly the write the rules allow |
| Membership.OrgOkStep | internal/api/members.go:64-527 | any handler by itself, on a role however stale, keeps an owner, no invitation to ownership, seats within the cap and one pending invitation per address |
| Membership.GuardsComeFirst | internal/authz/authz.go:258-268 | for a role as the rows give it the trigger never changes the outcome |
| Membership.SeatsStayWithinCap | internal/api/members.go:291-434 | in any serialised run with a fixed cap, members and pending invitations together never rise above it |
| SeatRaces.SeatsHold | internal/api/members.go:291-361 | with the two counts, the insert, acceptances, revocations and removals interleaved, the seats stay within the cap if no two invitations overlap and no acceptance falls between the two counts of one |
| SeatRaces.OvershootIff | internal/api/members.go:544-555 | in any state the requests that have found a seat can take the org past its cap if and only if members, pending invitations and their new addresses are together more than the cap |
| SeatRaces.OverlapOvershoots | internal/api/members.go:291-361 | a run in which two invitations count the same free seat and the cap is passed |
| SeatRaces.AcceptanceBetweenCountsOvershoots | internal/api/members.go:544-555 | a run in which an acceptance between the two counts is counted by neither and a full org gets one more |
| Membership.SeatsAccept | internal/api/members.go:475-527 | accepting keeps the sum of members and pending invitations, or lowers it by one for a user who is already a member |
| Membership.SeatsInvite | internal/api/members.go:291-361 | an invitation takes one seat and is granted only below the cap |
| OrgServer.Server.ChangeMemberRole | internal/api/members.go:64-134 | succeeds exactly when an admin or owner gives a member a valid role, no admin touches or makes an owner and the last owner is not demoted; success changes that role and no other, and without it nothing changes; the org keeps its invariant, and no cached role becomes stale unless the cache deletion failed |
| OrgServer.Server.RemoveFromOrg | internal/api/members.go:138-181 | succeeds exactly when an admin or owner removes a member, no admin an owner, and not the last owner; success removes exactly the target; cache and invariant as above |
| OrgServer.Server.LeaveOrg | internal/api/members.go:185-212 | succeeds exactly for a member who is not the last owner; success removes exactly the caller; cache and invariant as above |
| OrgServer.Server.TransferTo | internal/api/members.go:217-259 | succeeds exactly when a person who is owner names another member, unless a second write that is asked for fails; the target is then an owner, the caller on stepping down an admin, and everyone else as before; also when the second write fails the target is an owner; cache and invariant as above |
| OrgServer.Server.CreateInvitation | internal/api/members.go:291-361 | succeeds exactly when an admin or owner invites a non-empty address to a role below owner with a seat free and none pending for the address; takes one seat, and whoever has the verified address can accept for 7 days; a refusal for seats means the org is exactly full |
| OrgServer.Server.RevokeInvitation | internal/api/members.go:365-391 | succeeds exactly when an admin or owner revokes a pending invitation; gives the seat back, nobody can accept it any more, and its address is free again |
| OrgServer.Server.ResendInvitation | internal/api/members.go:397-434 | succeeds exactly when an admin or owner resends a pending invitation, expired or not; seats stay, and it can be accepted for another 7 days |
| OrgServer.Server.AcceptInvitation | internal/api/members.go:475-527 | succeeds exactly for a pending invitation that has not expired and a user with its address, verified; success makes the user a member with the invited role unless already one, closes the invitation for good and uses no more seats, one less if already a member; cache and invariant as above |
| OrgServer.Server.ResolveRole | internal/authn/middleware.go:209-233 | the cached lookup answers what the membership rows say for every user who is not stale, and makes none stale; an unexpired entry answers, and otherwise the answer is cached for 5 minutes |
| OrgServer.Server.InvalidateMemberRole | internal/authn/middleware.go:238-243 | a deletion that succeeds makes its user not stale and changes no other |
| OrgServer.Server.Advance | internal/authn/middleware.go:209-233 | whatever deletions failed, 5 minutes later no cached role is stale |
| CachedReads.ServedFromDatabase | internal/authn/middleware.go:209-233 | under any interleaving every answer served equals the database's answer at the read that produced it, and a cached one was served within its time to live |
| CachedReads.TransparentUntilNextWrite | internal/authn/apikey.go:84-123 | once cache and database agree on a key, every answer for it until its next write is the current one, whatever else interleaves |
| CachedReads.InvalidationRestoresIff | internal/authn/apikey.go:139-144 | after deleting an entry every answer until the key's next write is current, whatever interleaves, if and only if no lookup still holds a different answer; and if one does, the old answer can be served from the cache again |
| CachedReads.OverlapLeavesOldAnswer | internal/authn/middleware.go:209-243 | a run in which a lookup overlapping a write leaves the old answer in the cache |
| ApiKeys.KeyServer.Verify | internal/authn/apikey.go:84-123 | a presented key resolves to exactly what the rows say of it unless it is stale, and then to nothing, as does a text not shaped like a key; answers from the rows are cached, 5 minutes a key and 30 seconds a refusal |
| ApiKeys.KeyServer.Create | internal/api/apikeys.go:59-113 | a new key's row is added, and the key becomes stale if and only if an unexpired entry of an earlier probe is cached; no other key does |
| ApiKeys.KeyServer.Advance | internal/authn/apikey.go:84-123 | 30 seconds later no key is stale |
| ApiKeys.KeyServer.Revoke | internal/api/apikeys.go:119-148 | the row is stamped and its entry dropped, so the next request is refused, and no key becomes stale; a key of another org is not found |
| FixedWindow.WindowBound | internal/api/maglink.go:134-143 | under any interleaving at most the limit is let through in one life of the key |
| FixedWindow.SpanBound | internal/api/maglink.go:134-143 | at most twice the limit in any half-open span of one window length |
| FixedWindow.RefusedIffFull | internal/api/maglink.go:134-143 | in any reachable state a caller is refused if and only if the key's current life has already let the limit through |
| FixedWindow.ArmedForOneWindow | internal/api/maglink.go:134-143 | an expiry, once set, ends the key's life exactly one window later |
| FixedWindow.StuckForever | internal/api/maglink.go:134-143 | if the creator dies between increment and expiry, only what was left of the first budget is ever let through again |
| FixedWindow.ResetsIff | internal/api/maglink.go:134-143 | a counter can be reset again if and only if it is not stuck that way |
| CheckNow.AllowedBound | internal/api/monitors.go:370-401 | under any interleaving at most the maximum is allowed per org window and at most twice that in any span of one window length |
| CheckNow.CooldownGap | internal/api/monitors.go:384-391 | two allowed checks of one monitor took its cooldown key at least the cooldown apart |
| CheckNow.CoolingIff | internal/api/monitors.go:384-391 | in any reachable state a monitor is cooling down if and only if its key was claimed less than the cooldown ago |
| CheckNow.SpentIffFull | internal/api/monitors.go:370-401 | in any reachable state an open window turns requests away if and only if it has already let the maximum through |
| CheckNow.SerialCounterBound | internal/api/monitors.go:363-401 | one request at a time, the counter never exceeds the maximum |
| CheckNow.OvershootIff | internal/api/monitors.go:363-401 | under any interleaving a request's increment takes the counter past the maximum if and only if since its own peek another request's increment filled the window and the key has not expired |
| CheckNow.InterleavedOvershoots | internal/api/monitors.go:363-401 | a run in which two requests push the counter past the maximum and one is turned away |
| CheckNowGate.RetryAfter | internal/api/monitors.go:405-415 | the time to live, or the full duration if there is none, in whole seconds rounded down, at least 1 and no more than the full duration |
| CheckNowGate.Gate.CheckNowAllowed | internal/api/monitors.go:370-401 | an allowed check holds a fresh claim on the cooldown counted within the budget; a refusal names a layer that had to refuse at some moment of the call and tells the time its key still lives |
| MagicLinkLimit.Window.OverLimit | internal/api/maglink.go:134-143 | a request is over the limit exactly when its own increment exceeds it, and otherwise is one of those let through |
| MagicLinkLimit.MagicLimited | internal/api/maglink.go:121-128 | limited if either counter says so at the moment it is counted; both are counted either way, with others counting on both in between |
| BillingIngest.AckedIsRecorded | internal/billing/ingest.go:51-117 | after any run every 200 for an event with an id means its raw body is recorded and nothing is left to do for it, as for every event marked processed, and the mirror is the fold of the applied events |
| BillingIngest.ActsIff | internal/billing/ingest.go:120-182 | an event is applied exactly if its call does not fail, it is of a handled kind with its data and an org that exists, and a payment is not another org's |
| BillingIngest.MarksIff | internal/billing/ingest.go:98-117 | an event is marked exactly if that call does not fail, and answered with 200 if the reply arrives or its org is gone |
| BillingIngest.ProcessedIsFinal | internal/billing/ingest.go:82-106 | with no overlapping delivery about to act, an event marked processed is never acted on again, however later deliveries go |
| BillingIngest.ProcessedIsFinalIff | internal/billing/ingest.go:82-106 | that condition is exact |
| BillingRetries.RowIsLast | internal/store/subscriptions.go:165-197 | every row of the mirror is what the last act on it wrote, with an ending exactly while the status is not a running one |
| BillingRetries.SubscriptionMirrored | internal/billing/ingest.go:146-165 | in every reachable state an org has the subscription of the last event applied to it; if that cancelled it the org is on the free tier, otherwise on the tier the event named, or the free one for an unknown name |
| BillingRetries.OnlyWhatWasApplied | internal/billing/ingest.go:146-182 | in every reachable state a row of the mirror is what some applied event told |
| BillingRetries.EndingStampedOnce | internal/store/subscriptions.go:163-197 | the time a subscription ended is that of the event that ended it, however many events, retries included, leave it ended |
| BillingRetries.RetryHarmlessIff | internal/billing/ingest.go:101-107 | applying an event to the mirror of any acts changes nothing if and only if the last act on its row wrote the same |
| BillingRetries.ReprocessHarmlessIff | internal/billing/ingest.go:101-107 | in every reachable state a delivery about to act leaves the mirror as it is if and only if the last act on its row wrote the same |
| BillingRetries.MirrorAppliesOnceIff | internal/billing/ingest.go:51-182 | for every run: the mirror equals applying each event once after every step if and only if each time an event was applied again the last act on its row had written the same |
| BillingRetries.AppliedIsAbsorbed | internal/store/subscriptions.go:165-197 | applying an event a second time at once changes nothing, including the time a subscription ended |
| BillingRetries.MirrorAppliesOnce | internal/billing/ingest.go:51-182 | in particular for every run in which no retry is interleaved with other events of its org, the mirror equals applying each event once |
| BillingRetries.OvertakenRetryDiffers | internal/billing/ingest.go:101-117 | a run in which an activation's mark fails, the cancellation is applied, and the redelivered activation undoes it |
| BillingIngest.OverlapActsAgain | internal/billing/ingest.go:82-106 | a run in which two deliveries of one event are past the processed check when the first marks it, and the second then acts again |
| BillingHandler.Handler.Serve | internal/billing/ingest.go:51-117 | a 200 for an event with an id means it is recorded and nothing is left to do for it; one already marked changes nothing; one without id is acknowledged and not recorded; when no store call fails the answer is 200 except for a payment without data or one that is another org's; for an org that is gone it is 200 also if the mark fails |
| SignatureHeader.ParseStubSig | internal/billing/stub.go:151-168 | the loop returns the last ts and the last h1, or nothing if either is missing |
| SignatureHeader.RoundTripIff | internal/billing/stub.go:151-184 | parsing a printed header gives back timestamp and code if and only if the timestamp is not empty, has no semicolon and does not end in white space |
| SignatureHeader.SignedIsAccepted | internal/billing/stub.go:73-82 | everything the signer prints for such a timestamp passes the signature check, for every body and any message authentication code that prints as hex |
| SignatureHeader.AcceptedIff | internal/billing/stub.go:73-82 | of the headers with a given such timestamp and any hex code exactly the one with the code of that timestamp and this body is accepted |
| SignatureHeader.AcceptedIsSigned | internal/billing/stub.go:73-82 | any header that is accepted carries a timestamp and the code signed for it and this body |
| ChannelSecrets.RedactSecretConfig | internal/api/channels.go:413-441 | copying and overwriting gives the config with every secret blanked, also when a key is listed twice |
| ChannelSecrets.RedactMeans | internal/api/channels.go:413-441 | every secret text is shown empty, also one level down in a nested map, and everything else as it is |
| ChannelSecrets.MergeKeptSecrets | internal/api/channels.go:364-376 | the loop fills exactly the blank secrets that the stored config has a value for |
| ChannelSecrets.MergeMeans | internal/api/channels.go:358-376 | saving an edit takes every key as given, so a secret given anew is changed, except that a secret left out, null or empty keeps the stored value if there is one |
| ChannelSecrets.UntouchedEditKeepsIff | internal/api/channels.go:358-376 | saving what was shown gives back the stored config if and only if no secret is a nested map with text in it |
| ChannelSecrets.RedactionHidesIff | internal/api/channels.go:410-441 | two configs look the same redacted if and only if they differ only in texts of secrets, also inside nested maps |
| MonitorInput.MonitorFromInput | internal/api/monitors.go:536-694 | every faulty field is reported and no other, an input is accepted exactly when it meets the product's rules, and what is accepted is sound: threshold at least 1, and for http the timeout range, interval floors, regions within plan, unique headers and an assertion |
| MonitorInput.AcceptableIffNoFault | internal/api/monitors.go:536-694 | the rules of the product hold exactly when no field is at fault |
| MonitorInput.ValidateHeaders | internal/api/monitors.go:782-807 | accepts exactly named, case-insensitively distinct keys up to the maximum, and keeps order and values |
| MonitorInput.ValidateRegions | internal/api/monitors.go:813-837 | accepts exactly non-empty, duplicate-free lists within the plan's set and cap |
| MonitorInput.ValidExpectedStatusCodes | internal/api/monitors.go:758-777 | accepts exactly lists with some token in which every token is a class or a code from 100 to 599 |

## Left out

- The Kafka bus, trace headers, metrics, spans and logs; their behaviour is in libraries or does not change state.
- Stream trimming and entries pending on another consumer's name; the deployment keeps one stable name.
- Several topics feeding one monitor: the end-to-end theorems are about the one results stream the service reads. Streams and RedisConsumer cover any number of topics.
- Monitors created while the pipeline runs: they are taken to exist, without results, from the start.
- Transactions that are one step: the alerting commit, which locks the monitor's row, and the operator close, which locks the incident's; applying a billing event; accepting an invitation; a single statement with its own transaction, except the revoking statements, which scan and then write, and membership writes, whose trigger counts before they commit. Of the rotating transaction only the last update and the commit are one step.
- Membership.SeatsStayWithinCap: handlers run one at a time; SeatRaces has invitations interleaved.
- OwnerRaces.OwnerRemains: one direction; overlapping statements can also leave an owner, and AtRiskIff says when they need not.
- An org that is soft-deleted while its members change, for which the last-owner trigger stands aside.
- The sweep of expired refresh tokens, which nothing calls, and the sweep of expired invitations.
- AlertPipeline.Linearise: an operator close names an incident and a time; who closed it and the annotations are not kept.
- Engine.SslWarnLevel: days left are exact integers of nanoseconds, not float64 hours.
- BillingRetries.MirrorAppliesOnceIff: the org an event belongs to is part of the event; the lookup of an org by provider customer is not modelled, so an event whose customer moves between two deliveries is outside the model.
- BillingIngest.AckedIsRecorded: an id stands for one body, so a second delivery of an id with another body does not occur.
- BillingIngest.ProcessedIsFinal: a deleted org is a soft-deleted one; for an org whose row is gone the foreign key would make the insert fail. Other writers of subscriptions and plans are not part of the mirror.
- CheckNow.AllowedBound: Redis commands succeed; the program lets a check through when one fails.
- FixedWindow.WindowBound: Redis commands succeed; the program lets the request through when one fails.
- OrgServer.Server.ResolveRole: handlers run one at a time; CachedReads is the interleaved version.
- MonitorInput.MonitorFromInput: whether a url or ssl target parses and whether channel ids are numbers are inputs; lengths count characters, and lower case is ASCII.
- MonitorInput.ValidateHeaders: keys are compared after ASCII lower-casing, not Unicode's.
- RedisConsumer.Consumer.ReclaimStream: the scan's cursor is not kept; each round may claim any idle entries, and the server says when the scan is over.
- SeatRaces.SeatsHold: one direction; overlapping invitations can also stay within the cap, and OvershootIff says when they need not.
- Membership.SeatsInvite: addresses are compared after ASCII lower-casing; the invitation e-mail is not modelled.
- JSON, SHA-256, HMAC, random tokens, cookies, OAuth, status pages, outbound webhooks, the plan catalogue and the user interface: libraries, or mappings with only easy claims.

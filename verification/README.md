# GoPublic, modelled and proved in Dafny

GoPublic is a self-hosted tunnel: a server that owns a root domain and proxies requests for
`name.root` to clients that hold a session open, and a client that forwards them to local ports.
This project models the stateful logic of both sides and proves what it is meant to guarantee.

`dafny verify dfyconfig.toml` checks everything.

## How the model is built

Code that changes state is modelled twice, and the two are tied together.

* The Go methods are Dafny methods on classes with the same fields, loops and branches. Their
  contracts say that the new state and the answer are those of a specification function
  (`Drive`, `Handshake`, `Apply`, `ChargeWrite`, ...).
* Where goroutines overlap, the same code is a machine whose events are the single atomic accesses:
  one SQL statement, one access to a registry, one atomic load or compare-and-swap, one channel send.
  `After(es)` is the state after the events `es`, and the main results hold for every `es`, that is,
  for every interleaving. `QuotaRuns.EveryCallIsDriven`, `LimitedWriters.RoundIsOneChunk`,
  `ChargedStreams.BuyThenDeliverIsOneChunk`, `Undisturbed.AloneIsHandshake`,
  `Undisturbed.AloneIsCleanup`, `HistogramRuns.AloneIsObserve` and `EventBusRuns.AloneIsPublish`
  connect the machines with the methods.

| file | source | subject |
|---|---|---|
| `Quota.dfy`, `QuotaRuns.dfy` | `internal/storage/db.go` | the daily quota: UPDATE / INSERT / retry over one table with a unique index |
| `LimitedWriter.dfy` | `internal/ingress/ingress.go` | writers that load, write and subtract on a shared counter |
| `ChargingWriter.dfy` | `internal/ingress/ingress.go` | writers that buy each chunk from the quota before they write it |
| `ChargedStreams.dfy` | `internal/ingress/ingress.go` | requests and copies of all users, composed with the quota protocol statement by statement |
| `Registries.dfy`, `ControlPlane.dfy`, `Undisturbed.dfy`, `Agreement.dfy`, `LateCleanups.dfy`, `Disagreement.dfy` | `internal/server` | handshakes, force takeovers and late cleanups over two registries |
| `PendingLogins.dfy` | `internal/telegram/pending_login.go` | one-time logins with a time to live |
| `Storage.dfy` | `internal/storage/db.go` | registration and token rotation under unique indexes |
| `Histogram.dfy` | `internal/metrics/metrics.go` | a histogram of atomics |
| `EventBus.dfy` | `internal/client/events/events.go` | fan-out that drops an event when a buffer is full |
| `Inspector.dfy` | `internal/client/inspector/store.go` | a bounded list of exchanges, newest first |
| `Stats.dfy` | `internal/client/stats/stats.go` | a window of durations and its order statistics |
| `Reconnect.dfy` | `internal/client/tunnel` | the two reconnect loops |
| `HostRouting.dfy` | `internal/client/tunnel/shared.go` | from host to local port |
| `WrapText.dfy` | `internal/client/tui/tui.go` | the text wrapper |
| `Sums.dfy`, `Options.dfy`, `Sinks.dfy` | | sums over sequences and maps, optional values, and `io.Writer`s, used by the others |

## What the proofs found

Where the code does less than one would expect, the model follows the code. Lemmas give concrete runs in
which the expected property fails, and say exactly when it holds or, for runs, that each condition is needed.

* A late cleanup hits a live successor. `Unregister` takes no session, so the cleanup of a replaced
  session removes whatever its successor has put under the same names. After the successor has
  registered, it loses its entry and routes (`Disagreement.LateCleanupCutsOffSuccessor`); while it is still
  binding, it keeps its entry and loses its routes (`Disagreement.LateCleanupLeavesEntryWithoutRoutes`). The
  exact conditions are in `LateCleanups.LateCleanup` and, for every run in which only the successor binds,
  `LateCleanups.LateCleanupInRuns`.
* Overlapping handshakes of one user can leave the entry with one session and its domains with another
  (`Disagreement.OverlappingHandshakesDisagree`).
* The two conditions under which the registries do agree (`Agreement.RegistriesAgree`) concern one user's
  connections only, and both are needed: for a user who owns a domain, from every reachable world that breaks
  one of them some continuation ends in disagreement (`Disagreement.OverlapLeadsToDisagreement`,
  `Disagreement.PendingCleanupLeadsToDisagreement`). The one exception is a connection let in while the other
  one has bound nothing and never can; that one does nothing any more (`Disagreement.CannotBindIsHarmless`).
* An INSERT that fails for another reason than the unique index is taken for a full row. So a call can be
  denied without an error in spite of room exactly when it fits the limit alone and the row of its day does
  not exist when it starts (`QuotaRuns.DeniedWithRoomIffRowMissing`).
* The limited writer reports the limit also when the buffer fits to the last byte
  (`LimitedWriter.AloneIsExact`). Several writers overshoot: k of them by up to k - 1 buffers, or k - 1 times
  the allowance if that is less than a buffer. That is attained for every allowance
  (`LimitedWriters.OvershootIsAttained`), and `LimitedWriters.OvershootsIff` says when a run can overshoot at all.
* `Reject` and `Consume` of a pending login do not look at the clock (`PendingLoginRuns.SweepShowsExactlyHere`),
  so an approved login can be consumed after its time to live, exactly as long as it has not been consumed
  or deleted and, once expired, neither swept nor approved again (`PendingLoginRuns.ConsumeSucceedsIff`).
* `RegenerateToken` does not check that the user exists
  (`Storage.RegenerateKeepsGoodIffUserExists`).
* `Publish` holds a read lock only, so two subscribers may get the events of overlapping publishers in
  opposite orders (`EventBusRuns.OverlapCanReverse`; `EventBusRuns.DeliveredInOrder` excludes it otherwise).
* The first reconnect delay is not capped (`Reconnect.DelayClosedForm`).
* The lookup after the scan in `getLocalPortForHost` never finds anything
  (`HostRouting.FallbackNeverFires`), and a dotted key makes the port depend on the iteration order of a
  Go map (`HostRouting.DottedKeysAreAmbiguous`, `HostRouting.OrderIrrelevantIffMatchesAgree`).
* `wrapText` breaks a line earlier than it had to exactly when a word ends at the width and there is a
  space before it (`WrapText.LineIsGreedyIff`).

## Assumptions

Each SQL statement is atomic, as SQLite executes it. The local day is an opaque number: a call captures
it once before its loop, and its read-back computes it again. Hashes of pending logins are never repeated,
and the token hash is injective where a lemma says so. A yamux session is a number with a closed flag.

## Model

| member | source | states |
|---|---|---|
| Quota.UserBandwidthTable.ConsumeUserBandwidthWithinLimit | internal/storage/db.go:299-354 | the three-attempt loop returns after at most seven statements, whatever other callers execute before each of its own; table and answer are those of the statement machine `Drive`; the usage reported is the counter at the read-back, or 0 without a limit or with an error, which is that of its last statement |
| Quota.UserBandwidthTable.Round | internal/storage/db.go:314-347 | one attempt: UPDATE and, if it matches no row, INSERT; it leads on to the next attempt only after both |
| Quota.UserBandwidthTable.UpdateWithinLimit | internal/storage/db.go:316-324 | the UPDATE adds the bytes to an existing row exactly when the sum stays within the limit, and reports whether it did |
| Quota.UserBandwidthTable.InsertFirst | internal/storage/db.go:331-343 | the INSERT creates the row, or fails on the unique index and changes nothing |
| Quota.UserBandwidthTable.GetUserBandwidthToday | internal/storage/db.go:269-280 | no row reads as no usage |
| Quota.DriveTerminates | internal/storage/db.go:299-354 | wait-freedom: after seven statements of its own a call has returned, in every environment |
| Quota.TotalAfterCharge | internal/storage/db.go:357-364 | adding bytes to one row adds them to its user's all-days total and to nobody else's |
| QuotaRuns.RowsOnlyGrow | internal/storage/db.go:312-353 | in every interleaving no row disappears and no counter goes down |
| QuotaRuns.StepRefinesAtomic | internal/storage/db.go:299-354 | refinement: the statement at which a verdict falls does and answers what the atomic test-and-add does; all others change neither rows nor verdicts |
| QuotaRuns.Linearizable | internal/storage/db.go:299-354 | for any number of interleaved calls with any faults, rows and answers are those of the atomic operations run one after the other, each decided call once |
| QuotaRuns.LinearizationPrefix | internal/storage/db.go:299-354 | the order of the linearization is only ever extended as the run goes on |
| QuotaRuns.RealTimeOrder | internal/storage/db.go:299-354 | a call that returned before another began precedes it in the linearization |
| QuotaRuns.CallsKeepTheirVerdict | internal/storage/db.go:321-353 | what a call has returned stays what it returned |
| QuotaRuns.NoSpuriousDenial | internal/storage/db.go:312-353 | a call denied without an error has no room on its captured day, now or later, and, if it fits the limit alone, saw so at its last UPDATE; or one of its INSERTs failed for another reason than the unique index |
| QuotaRuns.RunsOutOnlyAtLastUpdate | internal/storage/db.go:314-339 | a step leads to a refusal only if it is a third UPDATE that finds its row too full |
| QuotaRuns.LastUpdateHappened | internal/storage/db.go:314-339 | a call out of room has such an UPDATE in its past |
| QuotaRuns.OtherInsertErrorDeniesSpuriously | internal/storage/db.go:345-350 | whenever the row does not exist yet, any call that fits the limit can be denied without an error though nothing has been used |
| QuotaRuns.DeniedWithRoomIffRowMissing | internal/storage/db.go:299-354 | the exact condition: some continuation, with any faults and other callers, denies the call without an error in spite of room, if and only if its row does not exist when it starts and 0 < bytes <= limit |
| QuotaRuns.RowStaysKnown | internal/storage/db.go:345-350 | with an existing row, a call past its UPDATE without a charge or an error has no room, whatever fails afterwards |
| QuotaRuns.StepCharges | internal/storage/db.go:314-337 | a statement changes a row only by granting its call, and then by exactly the call's bytes within the limit |
| QuotaRuns.RowIsSumOfCharges | internal/storage/db.go:299-354 | every row is its start value plus the bytes of exactly the calls granted on it |
| QuotaRuns.TotalIsSumOfCharges | internal/storage/db.go:357-364 | the all-days total has grown by exactly the user's charges |
| QuotaRuns.RowsWithinLimit | internal/storage/db.go:299-354 | with one daily limit every row stays in 0..limit, however the calls interleave |
| QuotaRuns.ReportIncludesOwnBytes | internal/storage/db.go:324-337 | the usage a granted call reports for its day includes its own bytes |
| QuotaRuns.EveryCallIsDriven | internal/storage/db.go:299-354 | every call of an interleaving behaves as the method is proved to, the other calls' statements being its environment |
| LimitedWriter.BandwidthLimitedWriter.Write | internal/ingress/ingress.go:709-748 | counter, count and error are those of `LimitedWrite` under any interference, and the sink gets exactly the counted prefix of the buffer |
| LimitedWriter.BandwidthLimitedWriter.WriteChunk | internal/ingress/ingress.go:716-745 | one round of the loop: load, write at most what is left, subtract, and the error in the order of the code |
| LimitedWriter.WriteIsOneRound | internal/ingress/ingress.go:709-748 | every `Write` comes to one write of the smaller of buffer and allowance; the sink's error comes before a short write, that before the limit, and the limit is reported exactly when the buffer reaches the allowance |
| LimitedWriter.WriteBounds | internal/ingress/ingress.go:709-748 | nil means everything was written; never more than the buffer or the allowance; the limit is reported only at a counter of zero or less |
| LimitedWriter.AloneIsExact | internal/ingress/ingress.go:709-748 | alone, it writes min(buffer, allowance), and reports the limit exactly when the buffer reaches the allowance |
| LimitedWriters.RoundIsOneChunk | internal/ingress/ingress.go:715-745 | a writer's load, write and subtraction, whatever the other writers do in between, are one round of its `Write`: same bytes, same counter, and it goes on or stops with the same error |
| LimitedWriters.RunKeepsInv | internal/ingress/ingress.go:709-802 | in every interleaving of k writers the reservations against the loaded values stay within the allowance plus k - 1 buffers |
| LimitedWriters.Conservation | internal/ingress/ingress.go:719-745 | remaining + delivered is the allowance plus what is in flight; equal to the allowance when no write is |
| LimitedWriters.BoundedOvershoot | internal/ingress/ingress.go:750-802 | k writers with buffers of at most c bytes deliver at most (k - 1) * min(allowance, c) bytes too many, and nothing if the allowance is not positive |
| LimitedWriters.OneWriterIsExactTwoOvershootByOneBuffer | internal/ingress/ingress.go:750-802 | a single writer never overshoots, the two directions of a copy do by at most one buffer |
| LimitedWriters.LimitMeansAllDelivered | internal/ingress/ingress.go:717-728 | nobody is cut off early: once a writer reports the limit, the whole allowance has been delivered |
| LimitedWriters.OvershootIsAttained | internal/ingress/ingress.go:719-745 | the bound is the best there is, for every allowance, number of writers and buffer size |
| LimitedWriters.OvershootsIff | internal/ingress/ingress.go:719-745 | some run delivers more than the allowance if and only if there are at least two writers, a positive allowance and nonempty buffers |
| ChargingWriter.BandwidthChargingWriter.Write | internal/ingress/ingress.go:810-847 | with a quota: count, charge and error of `ChargeWrite`, which `WriteErrors` and `FirstStopDecides` characterise; without one, a plain write; the sink gets a prefix of the buffer |
| ChargingWriter.BandwidthChargingWriter.WriteChunk | internal/ingress/ingress.go:820-843 | one round: buy at most 32 KiB, write them, and tell denial, failed callback, sink error and short write apart as `OneChunk` does |
| ChargingWriter.ChargedThenWritten | internal/ingress/ingress.go:810-847 | written <= charged <= buffer, at most one chunk charged in vain and only by a failed write; nil charges exactly what it delivers |
| ChargingWriter.WriteErrors | internal/ingress/ingress.go:824-843 | `Write` returns the limit error if and only if some chunk is denied and all before it were bought and written whole; the callback's error, the sink's and a short write likewise; nil if and only if nothing stops it |
| ChargingWriter.FirstStopDecides | internal/ingress/ingress.go:810-847 | the first chunk that is not bought and written whole decides the error and how much is written and charged: all chunks before it, and of it what the sink took if it was bought |
| ChargingWriter.BandwidthChargingWriter.WriteOnAccount | internal/ingress/ingress.go:810-847 | the same on the method: what one `Write` costs the stream against what it delivers |
| ChargingWriter.BandwidthChargingWriter.Copy | internal/ingress/ingress.go:849-899 | over any number of buffers a copy delivers a prefix of what it read, returns the error of the first write that fails or none if all succeed, and has paid for at most one chunk in vain |
| ChargedStreams.QuotaSeesARun | internal/ingress/ingress.go:503-517 | composition: whatever the streams do, their calls are a run of the quota protocol, statement by statement |
| ChargedStreams.RunKeepsInv | internal/ingress/ingress.go:503-528 | in every interleaving of streams, statements and database errors, what a stream has bought and not delivered is nothing, one chunk, or what the call it waits for has charged so far |
| ChargedStreams.OneChunkInVain | internal/ingress/ingress.go:810-899 | each stream's bought-minus-delivered gap is at most 32 KiB for a copy and the request for a request, at any time |
| ChargedStreams.BuyThenDeliverIsOneChunk | internal/ingress/ingress.go:820-843 | an answer followed by a delivery buys, delivers and halts as one round of the writer's loop does; the stream goes on exactly if the quota granted the chunk or reported an error, and a denial is the limit error |
| ChargedStreams.ExemptIsNeverCutOff | internal/ingress/ingress.go:503-509 | an exempt stream, or any stream without a limit, never waits for the quota, is never charged and never cut off for the limit, in any run |
| ChargedStreams.CutOffOnlyOverLimit | internal/ingress/ingress.go:503-517 | a copy that is cut off for the limit is metered, and one of its own chunks was denied: it does not fit that day's row any more, or the INSERT of its call failed for another reason than the unique index |
| ChargedStreams.EventCharges | internal/ingress/ingress.go:503-517 | an event adds to one row exactly what it adds to the charges of a stream of that row's user, and only within the limit |
| ChargedStreams.TotalIsCharged | internal/ingress/ingress.go:503-528 | a user's all-days total has grown by exactly what the user's streams were charged |
| ChargedStreams.DeliveredIsPaidFor | internal/ingress/ingress.go:503-528 | with any limit, exemptions and database errors: delivered <= charged + what was let through without a charge, over all streams of a user |
| ChargedStreams.NothingIsUnmetered | internal/ingress/ingress.go:503-517 | with a positive limit, to a user who is not exempt and whose statements do not fail nothing is let through without a charge, whatever happens to other users |
| ChargedStreams.OneDayCharges | internal/ingress/ingress.go:503-517 | a user whose streams ask on one day: that day's row has grown by exactly what they were charged, whatever fails and whatever other users do |
| ChargedStreams.EveryDayWithinLimit | internal/ingress/ingress.go:503-517 | on every day of a run that spans any number of them, a user's calls charge at most what was left of the limit |
| ChargedStreams.DailyLimitHolds | internal/ingress/ingress.go:519-528 | a user whose streams ask on one day is charged at most what was left of its limit, and delivered at most that plus what was let through without a charge, with any database errors and other users |
| ChargedStreams.DeliveredWithinLimit | internal/ingress/ingress.go:503-528 | for a user who is not exempt and meets no database error, delivered <= charged <= limit minus what had been used, whatever other users do |
| ChargedStreams.NothingAfterClosing | internal/ingress/ingress.go:854-859 | over a closed connection neither direction delivers anything more, in any continuation |
| ChargedStreams.LimitEndsBothDirections | internal/ingress/ingress.go:849-899 | once one direction of a copy has returned the limit error its connection is closed, and neither direction delivers anything from then on |
| Registries.FqdnInjective | internal/server/server.go:391-395 | appending the root is injective, so a hostname has one name |
| Registries.FqdnParts | internal/server/server.go:391-395 | the hostname is the name, one dot and the root, and the bare name without a root |
| Registries.TunnelRegistry.Register | internal/server/registry.go:30-38 | the hostname is bound to the session, over any previous entry |
| Registries.TunnelRegistry.Unregister | internal/server/registry.go:41-45 | the hostname is unbound, whoever holds it |
| Registries.TunnelRegistry.GetEntry | internal/server/registry.go:59-64 | the entry if and only if there is one |
| Registries.UserSessionRegistry.GetSession | internal/server/user_sessions.go:31-36 | the session if and only if there is one |
| Registries.UserSessionRegistry.Register | internal/server/user_sessions.go:59-70 | the user's entry is the new session; the one it replaces is handed back |
| Registries.UserSessionRegistry.Unregister | internal/server/user_sessions.go:73-77 | the user's entry goes, whichever session it is |
| Registries.Server.BindDomains | internal/server/server.go:373-402 | the loop binds as `BindFirst` says, skipping names that are not the user's or cannot be checked |
| Registries.BindFirstBinds | internal/server/server.go:373-402 | bound are exactly the user's own names among those asked for, all to this session; all other routes are as before |
| Registries.BoundInOrder | internal/server/server.go:373-402 | the domains reported are the hosts of the names that are the user's and could be checked, in the order asked for |
| Registries.Server.ProcessTunnelRequest | internal/server/server.go:334-370 | a request that names domains binds exactly those of them that are the user's and could be checked, whatever else the user owns; an empty one all of the user's; nothing exactly if the request is unreadable, or empty and the user's domains cannot be read |
| Registries.EmptyRequestBindsAll | internal/server/server.go:346-359 | a request for no domain in particular binds exactly the domains the user owns |
| Registries.Server.HandleConnection | internal/server/server.go:229-281 | both registries and the closed sessions are those of `Handshake`; already connected exactly if there is an entry and no force, bad request exactly for an unreadable request or list, no domains if nothing can be bound, and otherwise the bindable domains in order |
| Registries.HandshakeEffect | internal/server/server.go:229-281 | a rejection changes no registry; otherwise the evicted routes and entry go, the bound hosts lead to this session, all others where they did, and the entry is this session with the bound domains; closed are the evicted session and, unless it connects, this one |
| Registries.Server.CleanUp | internal/server/server.go:428-440 | removes by name the domains that were bound and the user's entry, whoever holds them by then |
| ControlPlane.RoutesBelongToOwners | internal/server/server.go:373-402 | in every interleaving each route's hostname is name + "." + root for a name owned by the entry's user |
| ControlPlane.StepTouchesOwnHosts | internal/server/server.go:229-281 | a step of a user leaves every hostname that is not the user's exactly as it was |
| ControlPlane.NonInterference | internal/server/server.go:239-247 | no handshake, takeover or late cleanup of one user ever adds, changes or removes a hostname of another, in any interleaving |
| ControlPlane.MineUnique | internal/server/server.go:383-397 | a hostname belongs to at most one user |
| Undisturbed.AloneIsHandshake | internal/server/server.go:229-281 | a connection whose steps nothing interrupts does exactly what the handshake as a whole is specified to do, and nothing else in the world changes |
| Undisturbed.AloneIsCleanup | internal/server/server.go:428-440 | the same for the cleanup of a closed session |
| Agreement.OthersLeaveUAlone | internal/server/server.go:229-281 | a step of another user changes nothing the agreement of a user depends on |
| Agreement.ActKeepsInv | internal/server/server.go:229-281 | every step of an orderly handshake, takeover or cleanup keeps the agreement invariant |
| Agreement.OrderlyRunKeepsInv | internal/server/server.go:373-440 | the invariant of a user holds in every run in which no connection of that user is let in while another one is engaged, and none begins to bind while a cleanup of the user is pending; other users do as they like |
| Agreement.RegistriesAgree | internal/server/server.go:229-281 | at rest after such a run, the user's entry holds session s and domains D exactly when the user's routes are D, all to s |
| Agreement.OneSessionPerUser | internal/server/user_sessions.go:16-21 | one active session a user: after such a run two open connected sessions of the user are the same, and it is the entry's |
| Agreement.HandshakeKeepsAgreement | internal/server/server.go:229-281 | an undisturbed handshake keeps the agreement, leaves the new session as the entry if it connects, and closes a session it rejects or replaces |
| LateCleanups.LateCleanup | internal/server/server.go:428-440 | in any state a late cleanup is harmless if and only if the user has no entry and none of the domains is bound; where the registries agree, they still do if and only if the entry's domains are all among those cleaned up |
| LateCleanups.LateCleanupWhileBinding | internal/server/server.go:373-440 | a cleanup that lands while the successor is binding: after its registration the registries agree if and only if it binds again whatever the cleanup took; and if the entry goes after that, if and only if no route is left |
| LateCleanups.LateCleanupInterleaved | internal/server/server.go:373-440 | with the single removals of a cleanup anywhere between the single bindings of the successor, the registries agree after its registration if and only if every host it bound stays bound, and after the removal of the entry if and only if none does |
| LateCleanups.RunIsAccesses | internal/server/server.go:373-440 | over every run in which one connection of a user binds, the routes of the user are what the bindings and removals of its connections make of them, in order |
| LateCleanups.LateCleanupInRuns | internal/server/server.go:373-440 | the same condition on runs: when a connection registers, the registries agree if and only if no host it bound was removed after its last binding, by whatever was going on; were the entry to go then, if and only if every one was |
| Disagreement.LateCleanupCutsOffSuccessor | internal/server/server.go:428-440 | a reachable run in which the late cleanup removes the entry and a route of the live successor and leaves it another |
| Disagreement.LateCleanupLeavesEntryWithoutRoutes | internal/server/server.go:428-440 | a reachable run in which the late cleanup starts while the user has no entry, and leaves the live successor its entry and no route |
| Disagreement.OverlappingHandshakesDisagree | internal/server/server.go:229-281 | a witness: two overlapping handshakes of one user, without any cleanup, end with the entry at one session and its domain routed to the other |
| Disagreement.OverlapLeadsToDisagreement | internal/server/server.go:229-281 | from every reachable world in which a connection of a user is let in while another one is engaged and may still bind, some continuation connects both and leaves the registries in disagreement |
| Disagreement.CannotBindIsHarmless | internal/server/server.go:376-402 | a connection that has bound nothing and may bind none of the names left to it stays so whatever anybody does, and changes no route and no entry |
| Disagreement.PendingCleanupLeadsToDisagreement | internal/server/server.go:428-440 | from every reachable world in which a connection is about to bind while the cleanup of a closed session of its user is pending, some continuation finishes both and leaves the registries in disagreement |
| PendingLogins.PendingLoginStore.Create | internal/telegram/pending_login.go:63-83 | a new pending record under the hash |
| PendingLogins.PendingLoginStore.Get | internal/telegram/pending_login.go:86-100 | the stored record itself, exactly if there is one and it is at most five minutes old |
| PendingLogins.PendingLoginStore.Approve | internal/telegram/pending_login.go:103-129 | approves a pending, unexpired login once and stores the identity |
| PendingLogins.PendingLoginStore.Reject | internal/telegram/pending_login.go:132-147 | rejects a pending login once, whatever the time |
| PendingLogins.PendingLoginStore.Consume | internal/telegram/pending_login.go:150-166 | hands an approved login out and removes it, whatever the time |
| PendingLogins.PendingLoginStore.Delete | internal/telegram/pending_login.go:169-173 | removes the record |
| PendingLogins.PendingLoginStore.Cleanup | internal/telegram/pending_login.go:190-200 | the deleting loop removes exactly the expired records, in any order |
| PendingLoginRuns.SimulationStep | internal/telegram/pending_login.go:63-200 | one operation keeps a swept and an unswept store alike on unexpired logins, with the same answers to `Get` and `Approve` |
| PendingLoginRuns.SweepingIsUnobservable | internal/telegram/pending_login.go:86-129 | for any nondecreasing clock and any schedule of sweeps, every `Get` and `Approve` answers as if there were no sweeper; `Reject` and `Consume` do for logins that have not expired |
| PendingLoginRuns.SweepShowsExactlyHere | internal/telegram/pending_login.go:132-166 | a sweep changes the answer to `Consume` if and only if the login is approved and expired, to `Reject` if and only if it is pending and expired |
| PendingLoginRuns.RunKeepsInv | internal/telegram/pending_login.go:63-173 | every stored login's status is what the run did to its hash, and nothing else |
| PendingLoginRuns.LoginComesFromOneApproval | internal/telegram/pending_login.go:103-166 | a login has exactly one approval behind it, within the time to live of its creation, carries that identity, and was never rejected |
| PendingLoginRuns.GoneForGood | internal/telegram/pending_login.go:63-173 | a hash that has left the store never returns |
| PendingLoginRuns.OneTimeLogin | internal/telegram/pending_login.go:150-166 | over the whole run a hash logs in at most once, and not at all if it is ever rejected |
| PendingLoginRuns.StaysUntilRemoved | internal/telegram/pending_login.go:103-200 | an approved login stays in the store, unchanged, exactly until it is consumed or deleted or, once expired, swept or approved again |
| PendingLoginRuns.ConsumeSucceedsIff | internal/telegram/pending_login.go:103-166 | a `Consume` hands a login out if and only if its hash was created, then approved, and no such event came since; the time of the `Consume` does not matter |
| PendingLoginRuns.CreatedUntilRemoved | internal/telegram/pending_login.go:63-200 | a created login stays in the store, decided or not, exactly until the first event that removes it, and shows the first decision made about it |
| PendingLoginRuns.GetFindsIff | internal/telegram/pending_login.go:86-100 | a `Get` finds a login if and only if its hash was created at most five minutes before and nothing removed it since; it has that request and creation time and shows the first decision |
| PendingLoginRuns.ApproveSucceedsIff | internal/telegram/pending_login.go:103-129 | an `Approve` succeeds if and only if the login was created at most five minutes before, and was neither removed nor decided since |
| PendingLoginRuns.RejectSucceedsIff | internal/telegram/pending_login.go:132-147 | a `Reject` succeeds if and only if the login was created, and was neither removed nor decided since, whatever the time |
| PendingLoginRuns.LateConsumeSucceeds | internal/telegram/pending_login.go:150-166 | a witness: a login approved at the last moment and consumed any time later, with nothing in between |
| Storage.Database.CreateUserWithTokenAndDomains | internal/storage/db.go:427-471 | the transaction does what `Apply` says or, after any error in the middle, leaves the database as it was |
| Storage.Database.RegenerateToken | internal/storage/db.go:187-217 | the same for the replacement of a token |
| Storage.Database.LinkTelegramAccount | internal/storage/db.go:142-144 | the one-column UPDATE under the unique index, as `Apply` says |
| Storage.Database.LinkYandexAccount | internal/storage/db.go:138-140 | the same for the other column |
| Storage.Database.ValidateToken | internal/storage/db.go:148-167 | lookup by hash, then by the string itself, among live tokens |
| Storage.InsertDomainsEffect | internal/storage/db.go:450-463 | the inserts succeed if and only if all names are free and differ; then the names are the user's and no other changed |
| Storage.RegistrationGrants | internal/storage/db.go:427-471 | a registered user has the row, the token and exactly the domains asked for; all other users and domains are as before |
| Storage.RegisterSucceedsIff | internal/storage/db.go:427-471 | a registration succeeds if and only if the id is new, no other user has its linked ids, a token could be made that occurs in no row, deleted ones included, and the names are free and differ; and which error comes of which cause |
| Storage.RegenerateSucceedsIff | internal/storage/db.go:187-217 | a replacement succeeds if and only if a token could be made that occurs in no row, deleted ones included |
| Storage.RegisterKeepsGood | internal/storage/db.go:427-471 | a registration, failed or not, keeps one live token a user and everything unique |
| Storage.RegenerateKeepsGoodIffUserExists | internal/storage/db.go:187-217 | replacing a token keeps the invariant if and only if the user exists |
| Storage.RelinkKeepsGood | internal/storage/db.go:138-144 | linking an account keeps linked ids unique |
| Storage.LinkTelegramEffect | internal/storage/db.go:142-144 | linking fails exactly if the user exists and another one has the id; otherwise it sets that column of that user's row and nothing else |
| Storage.LinkYandexEffect | internal/storage/db.go:138-140 | the same for the Yandex id |
| Storage.RunsKeepGood | internal/storage/db.go:187-217 | over every run, failing operations included, from a database that may hold legacy tokens without a hash, each user has exactly one live token, and tokens, names and linked ids are unique |
| Storage.EveryRunIsGood | internal/storage/db.go:427-471 | the same from the empty database, where moreover every stored token has the hash of its string |
| Storage.ValidatesExactlyLiveTokens | internal/storage/db.go:148-167 | a string validates to a user if and only if it is that user's live token, found by its hash or, for a legacy row without one, by the string itself |
| Storage.LiveTokenHasOneUser | internal/storage/db.go:148-167 | a string is the live token of at most one user |
| Storage.RegenerateReplacesToken | internal/storage/db.go:187-217 | the new token is the user's, the old one nobody's, and every other string validates as before |
| Histogram.Histogram.Observe | internal/metrics/metrics.go:152-174 | whatever others add between load and compare-and-swap, the loop ends and adds the value exactly once, and increments exactly the buckets with `v <= bound`, and +Inf |
| Histogram.Histogram.CompareAndSwap | internal/metrics/metrics.go:157-163 | stores the new sum exactly when the sum is still the one loaded |
| HistogramRuns.AloneIsObserve | internal/metrics/metrics.go:152-174 | an observer that nobody disturbs leaves count, sum and buckets as `Observe` does |
| HistogramRuns.FailureMeansProgress | internal/metrics/metrics.go:157-163 | lock-freedom: a compare-and-swap fails only if another observation's has succeeded since the load |
| HistogramRuns.RunKeepsInv | internal/metrics/metrics.go:152-174 | in every interleaving count, sum and each bucket are what the observers have done to them so far |
| HistogramRuns.InfLagsByInFlight | internal/metrics/metrics.go:152-174 | count minus the +Inf bucket is the number of observations in flight |
| HistogramRuns.BucketsAreCumulative | internal/metrics/metrics.go:165-173 | for sorted bounds, counts[i] <= counts[i+1] + in-flight |
| HistogramRuns.SumIsExact | internal/metrics/metrics.go:155-163 | the sum holds each observation past its compare-and-swap exactly once |
| HistogramRuns.AtRestCountsAreExact | internal/metrics/metrics.go:152-174 | at rest each bucket is the number of observations with `v <= bound`, and +Inf and count are their number |
| EventBus.Bus.constructor | internal/client/events/events.go:139-147 | an open bus without subscribers; a buffer size that is not positive becomes 100 |
| EventBus.Bus.Subscribe | internal/client/events/events.go:151-165 | a new open channel at the end of the list; on a closed bus a closed channel and no entry |
| EventBus.Bus.Unsubscribe | internal/client/events/events.go:168-179 | closes and removes the channel if it is subscribed, does nothing otherwise |
| EventBus.Bus.Publish | internal/client/events/events.go:183-202 | offers the event once to every subscriber, and drops it exactly where the buffer is full |
| EventBus.Bus.Close | internal/client/events/events.go:226-239 | closes every subscriber's channel once; a second call does nothing |
| EventBusRuns.AloneIsPublish | internal/client/events/events.go:183-202 | a publication that nobody disturbs offers its event once to every subscriber, as `Publish` does |
| EventBusRuns.RunKeepsInv | internal/client/events/events.go:151-239 | in every interleaving of publishers, readers, subscriptions and closing, the delivery invariant holds |
| EventBusRuns.NoSendOrCloseAfterClose | internal/client/events/events.go:168-239 | no event is sent to a closed channel, and no channel is closed twice |
| EventBusRuns.Delivery | internal/client/events/events.go:183-202 | drained followed by buffered is the offers that found room, in order; each publication of the subscriber's time is offered at most once, and once if it has ended; one is missing only if the buffer was full |
| EventBusRuns.DropsOnlyWhenFull | internal/client/events/events.go:191-201 | a send keeps the event exactly when there is room |
| EventBusRuns.DeliveredInOrder | internal/client/events/events.go:183-202 | a publication that ended before another began comes first; without overlap the subscriber's events are in publication order |
| EventBusRuns.OverlapCanReverse | internal/client/events/events.go:184-201 | from any reachable state in which two publications both still owe two subscribers, the sends can go on so that the two are offered the events in opposite orders |
| EventBusRuns.OverlapCanReverseOrder | internal/client/events/events.go:184-201 | a reachable run in which two subscribers hold the events of two overlapping publishers in opposite orders |
| Inspector.InMemoryStore.constructor | internal/client/inspector/store.go:30-38 | an empty store; a size that is not positive becomes 100 |
| Inspector.InMemoryStore.Add | internal/client/inspector/store.go:42-64 | prepending, or shifting the full backing array in place, puts the exchange with the next id first and drops the oldest |
| Inspector.InMemoryStore.Get | internal/client/inspector/store.go:67-79 | an exchange of the list with that id, and nothing only if none has it |
| Inspector.InMemoryStore.List | internal/client/inspector/store.go:83-90 | the list, newest first |
| Inspector.InMemoryStore.Clear | internal/client/inspector/store.go:93-99 | empties the list; ids go on |
| Inspector.InMemoryStore.Count | internal/client/inspector/store.go:102-106 | the length of the list |
| Inspector.HoldsLatest | internal/client/inspector/store.go:42-64 | after any operations: the last min(k, maxSize) exchanges added since the last clear, newest first, with consecutive descending ids ending just below nextID |
| Inspector.LookupRange | internal/client/inspector/store.go:67-79 | lookup succeeds if and only if nextID - Count <= id < nextID, and yields the exchange that was given that id |
| Inspector.IdsNeverReused | internal/client/inspector/store.go:93-99 | no id from before a clear is ever given again |
| Stats.Stats.constructor | internal/client/stats/stats.go:55-64 | an empty window; a sample count that is not positive becomes 100 |
| Stats.Stats.IncrementConnections | internal/client/stats/stats.go:67-72 | both connection counters go up |
| Stats.Stats.DecrementOpenConnections | internal/client/stats/stats.go:75-81 | the open counter goes down unless it is zero |
| Stats.Stats.RecordRequest | internal/client/stats/stats.go:84-98 | the in-place shift and append drop the oldest sample of a full window and count request and bytes |
| Stats.Stats.Snapshot | internal/client/stats/stats.go:108-158 | the summing loop and the sorted copy give the snapshot of the window, without changing it |
| Stats.Stats.Reset | internal/client/stats/stats.go:161-172 | empties the window and zeroes the counters |
| Stats.WindowIsLatest | internal/client/stats/stats.go:84-98 | the window is always the last min(n, maxSamples) durations |
| Stats.SnapshotShowsRanks | internal/client/stats/stats.go:124-155 | P50 and P90 are the samples of ranks n/2 and floor(9n/10), P50 <= P90, RT1 is the latest sample and RT5 the mean of the latest five, truncated toward zero; all are 0 for an empty window |
| Stats.RankIsUnique | internal/client/stats/stats.go:141-155 | a rank determines the sample value, with ties |
| Stats.SortingRoutineIsIrrelevant | internal/client/stats/stats.go:141-155 | any sorted permutation of the window gives the same percentiles |
| Reconnect.SharedStartWithReconnect | internal/client/tunnel/shared.go:601-656 | exit, number of starts and waits are those of `SharedLoop`, for every sequence of outcomes and cancellations |
| Reconnect.TunnelStartWithReconnect | internal/client/tunnel/reconnect.go:30-109 | the same for the single tunnel, which waits before an attempt and starts over after a success |
| Reconnect.SharedTrace | internal/client/tunnel/shared.go:610-655 | exit, starts and waits of every run, round by round: the k-th wait is the k-th delay, and it ends at the first success, conflict or cancellation, or at the last failure allowed |
| Reconnect.TunnelTrace | internal/client/tunnel/reconnect.go:44-108 | exit, starts and waits of every run, round by round: before a start it waits the delay after the failures since the last success, and not at all after a success; it ends at the first cancellation, conflict or run of MaxAttempts failures |
| Reconnect.TunnelExits | internal/client/tunnel/reconnect.go:44-108 | it gives up only after MaxAttempts failures in a row, and ends with a conflict exactly if the last start found the user connected |
| Reconnect.DefaultDelays | internal/client/tunnel/reconnect.go:20-27 | the delays of the default configuration |
| Reconnect.SharedUnderFailure | internal/client/tunnel/shared.go:610-655 | under persistent failure the k-th wait is the k-th delay, and it gives up after exactly MaxAttempts starts |
| Reconnect.TunnelUnderFailure | internal/client/tunnel/reconnect.go:44-108 | the single tunnel's waits begin with the second delay; it gives up after exactly MaxAttempts starts |
| Reconnect.LoopsAreShifted | internal/client/tunnel/reconnect.go:44-108 | both call `Start` equally often, MaxAttempts times if that is positive, and one wait sequence is the other shifted by one step |
| Reconnect.DelayClosedForm | internal/client/tunnel/shared.go:651-654 | for a whole multiplier M the wait after k > 0 failures is min(Initial * M^k, Max), and also for k = 0 if and only if Initial <= Max |
| Reconnect.DelaysGrowToBound | internal/client/tunnel/shared.go:651-654 | for any scaling that does not shrink, waits never shrink and never exceed Max |
| Reconnect.FactorAtLeastOneGrowsToBound | internal/client/tunnel/shared.go:651-654 | the same for a real multiplier of at least one with truncation |
| HostRouting.GetLocalPortForHost | internal/client/tunnel/shared.go:574-598 | the port `Route` gives for the order in which the map happens to be iterated |
| HostRouting.ScanFinds | internal/client/tunnel/shared.go:581-585 | the port of some key that is the host or a prefix of it up to a dot, and nothing only if there is none |
| HostRouting.StripPortOf | internal/client/tunnel/shared.go:575-578 | what follows the last colon is dropped, and a host without a colon stays as it is |
| HostRouting.FallbackNeverFires | internal/client/tunnel/shared.go:587-595 | if the scan finds nothing, the first label is no key either |
| HostRouting.OrderIrrelevantIffMatchesAgree | internal/client/tunnel/shared.go:581-585 | the answer is independent of the map order if and only if all matching keys have the same port |
| HostRouting.RouteIsLookup | internal/client/tunnel/shared.go:574-598 | for dot-free keys the answer is a lookup of the host's first label, in every order |
| HostRouting.DottedKeysAreAmbiguous | internal/client/tunnel/shared.go:581-585 | a dotted key beside its first label makes two orders answer differently |
| HostRouting.BoundNameReachesItsPort | internal/server/server.go:391-397 | a name the server bound as name.root is routed by the client to the port configured for name, with or without a port in the host |
| WrapText.WrapText | internal/client/tui/tui.go:601-630 | the nested loops end for every text and width with the lines `Wrapped` gives |
| WrapText.FindBreakPoint | internal/client/tui/tui.go:612-618 | the last space at a position from 1 to width - 1, or the width if there is none |
| WrapText.WrappingLosesOnlyBreakSpaces | internal/client/tui/tui.go:601-630 | every line fits the width, 70 unless it is positive, and is nonempty unless the text is; a text that fits is one line; the text is the lines with an empty or one-space separator after each; all other characters are there in order |
| WrapText.SeparatorFollowsBreak | internal/client/tui/tui.go:619-624 | a line without a separator after it is full, has no space to break at, and the next one does not begin with a space |
| WrapText.BreakIsGreedyIff | internal/client/tui/tui.go:612-618 | a break is the last possible one up to the width if and only if no word ends exactly at the width with a space before it |
| WrapText.LineIsGreedyIff | internal/client/tui/tui.go:601-630 | the same for every line of a text, each being cut off what the lines and separators before it leave |
| WrapText.ExactFitIsMovedDown | internal/client/tui/tui.go:612-618 | a witness: a word that ends exactly at the width moves to the next line |

## Left out

- Network, TLS, yamux, HTTP parsing and hijacking: a session is a number with a closed flag, goroutines are interleaved steps, and what a peer or sink answers is a parameter.
- SQL, GORM and the calendar: tables are maps or sequences with unique-key checks, each statement is atomic, and days are opaque.
- Integer widths: counters, sizes and durations are unbounded; overflow of `int64` is not modelled.
- Floating point: the histogram sums reals, the backoff scaling is a function (with truncation to an integer for a real factor), and the P90 index is floor(9n/10).
- Randomness, hashing, cookies, CSRF and OAuth: tokens and hashes are parameters, assumed fresh or injective where a lemma says so.
- `AddUserBandwidth`, `SeedData`, `CreateToken`, `CreateDomain`, `UpdateUser`, `AcceptTerms`, abuse reports and the top-N reports: no limit or invariant of interest, or unused by the proxy.
- ChargingWriter.BandwidthChargingWriter.Copy: one direction of a copy; the two directions together, and that a denial of one closes both, are in the runs of `ChargedStreams`, where each write is one step.
- `maybeNotifyBandwidthExceeded` and the `onLimit` log lines: notification, without effect on the accounting.
- Authentication in the handshake: `HandleConnection` starts with the authenticated user; the storage model covers what a token validates to.
- Locks of the pending-login store, the inspector and the statistics: each method holds its mutex throughout, so a call is one step and their runs are sequences of calls. One simplification: the geolocation field of a pending login is not stored.
- Event types, payloads and timestamps of the bus: an event is an opaque value, in the runs its publication number.
- `SetServerLatency`, metric registration and the text exposition format: plain assignments and formatting.
- `sort.Slice` in `Snapshot`: a sort function; `Stats.SortingRoutineIsIrrelevant` shows that any other sorting gives the same.
- Configuration, health checks, `ConnectionLimiter`, `IPRateLimiter`, dashboard handlers, templates, TUI rendering, updater, Sentry and logging: plumbing, user interface, or behaviour of libraries that are not part of this model.

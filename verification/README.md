# Verified model of the GPU gateway's alerting, configuration and replay logic

This project models the parts of the repository whose behaviour is a protocol, a
hand-written algorithm or an accounting rule, and proves what they promise for every
input and every run. `dafny verify dfyconfig.toml` checks all of it.

| modules | what they model |
|---|---|
| `EditDistance`, `WordErrorRate`, `TextNormalization` | the word-error-rate table of the smoke test and the text it is fed |
| `AlertSeverity`, `AlertPipeline`, `Alerter`, `AlertProtocol`, `AlertSpacing` | the alerter: classification, the shared dedup keys, bounded per-channel queues, any number of replicas |
| `ClickUpMachines`, `ClickUpClient` | the ClickUp send loop: retries, circuit breaker, rate limiter, time |
| `PodConfig`, `ConfigNames`, `ConfigWrite`, `ConfigRequests`, `ConfigAudit` | pod-config writes: gateway and dashboard validation, stale snapshots, the answer to a request name by name, the audit log |
| `ReplayPool`, `ReplayFaults`, `ReplayLosses`, `ReplayFixtures` | the load-replay worker pool: its runs, what a fixture can do to it, and what single records and delays do |
| `AdminKeys` | the admin-key cache |
| `EconomyReport`, `BillingReconcile` | cost accrual and reconciliation |
| `AuditExport`, `SilentWav` | the audit exporter and the WAV header |

Code that changes state in place is a class or a method with loops, proved against a
function of the old state; the protocols are runs over those same functions. Clocks,
randomness, the network and the scheduler are parameters. Money and rates are exact.

Three facts are read straight off the definitions and help with the results: a config
write changes no column but its own (`OneColumnPerWrite`); hits and rejections of an admin
key leave the cache alone, and an active key is accepted at the next successful query
(`OnlyLookupsWrite`); a boot during a critical incident always pages and leaves the dedup
keys alone, one during a warning is gated, any other does nothing (`BootPaging`).

## Where the code and its documentation part ways

- `word_error_rate` returns 1 for an empty reference and any non-empty hypothesis; its
  docstring's formula would give the hypothesis length. `RateIsNormalizedDistanceIff`
  says exactly when the two agree.
- The ClickUp breaker's comment (clickup.go:182-184) says a 429 is not a breaker failure.
  The code returns its own error type for a 429 (line 259), which the success filter
  (lines 191-202) counts as a failure. The model follows the code
  (`ClientErrorsAndTheBreaker`), and a consequence is that a fourth POST in one Send is
  possible only after the breaker's open period (`FourthPostWaitsOutTheBreaker`).
- severity.go:210-213 says only transition events of the emergency machine are
  alert-worthy; the code looks at the state alone (`EmergKindIsIgnored`).
- alerter.go:201-206 says an info event claims the key so that a later promotion of the
  incident still dedups. A promotion has another state and so another fingerprint; what
  keeps pages safe is the opposite fact, that no lower tier shares a critical
  fingerprint (`PagesSafeExactly`).

## Findings: properties that hold only under a condition

- Whether a lower-tier alert can silence a page depends on colons in state and type
  strings. `ShadowsExactly` gives the events that can, `PagesSafeUnlessShadowed` the exact
  condition on a deployment's events, `WellFormedEventsKeepPagesSafe` the condition on
  each event alone.
- With Redis failing, the 300 s spacing of a fingerprint survives exactly when no critical
  event carries it (`SpacedDespiteFailuresExactly`): lower tiers fail closed.
- A replayed record whose tenant cannot be hashed, or whose route is no string, raises
  outside the transport `try` and ends its consumer; the gathering passes the exception on
  and the other consumers are cancelled. So a run can raise without a report
  (`RaisesExactly`), end with a sound record unanswered (`LosesExactly`), or hang, because
  all consumers are gone and the producer waits on a full queue (`HangsExactly`,
  `BlockedNeverEnds`). One record with a numeric route is enough for each
  (`OneBadRouteLoses`, `OneBadRouteHangs`). A delay that does not convert to a float raises
  as well (`OneHugeDelayRaises`), and an infinite one, such as `"inf"`, `Infinity` or
  `1e999`, puts the producer to sleep for good: the time window is looked at only between
  lines (`OneInfiniteDelayHangs`). With `--max-concurrency 0`, which is accepted,
  a short fixture returns an empty report.
- Two bound writes between reloads can cross a min/max pair (`StaleBoundsCrossExactly`),
  two hour writes can collide (`StaleHoursCollideExactly`), and an integer bound outside
  32 bits wraps (`WrappedBoundKeepsPairExactly`, `WrappedBoundBreaksPair`). An UPDATE that
  is committed and reported as failed counts as a write for all of these.
- Such an UPDATE also leaves a change without an audit row: the log explains the row
  throughout a run exactly when there is none that changes a value, and every recorded
  value is stored as given (`EveryRunExplainedExactly`).
- A null value is decoded as zero by the gateway and refused by the dashboard on numeric
  columns (`DashboardStricterOnlyOnNull`); it is also what makes an audit row differ from
  the stored value (`StoredUnchangedExactly`).
- Re-running the billing reconcile after a successful `--apply` finds drift again when
  today's billed sum is negative, when it is positive and the counter cannot be read this
  time, and when it is zero and the counter, unreadable the first time, holds tokens;
  otherwise it is quiet (`RerunDriftsExactly`).
- The 60 s bound on a revoked admin key grows by the time between a lookup's query and its
  cache write (`AcceptedWasActive`, `RevokedKeyAccepted`).
- A Retry-After of more than 9223372036 s wraps in the 64-bit duration and can be over in
  less than a second (`RateLimitedPause`, `HugeRetryAfterIsShort`).

## Model

| member | source | states |
|---|---|---|
| EditDistance.NeighboursDifferByAtMostOne | scripts/integration-smoke/smoke-chat-ifix.py:203-212 | cells of the distance table that share an edge differ by at most one, which is why the unconditional diagonal on a match loses nothing |
| EditDistance.NoScriptIsCheaper | scripts/integration-smoke/smoke-chat-ifix.py:203-212 | every edit script turning the reference into the hypothesis costs at least the distance |
| EditDistance.Cheapest | scripts/integration-smoke/smoke-chat-ifix.py:203-212 | a script that turns the reference into the hypothesis at exactly the distance |
| EditDistance.DistIsCheapestScript | scripts/integration-smoke/smoke-chat-ifix.py:195-213 | the distance is the minimum cost over all insert/delete/substitute scripts |
| EditDistance.ZeroIffEqual | scripts/integration-smoke/smoke-chat-ifix.py:169-172 | the distance is zero exactly for equal word lists |
| EditDistance.Symmetric | scripts/integration-smoke/smoke-chat-ifix.py:203-213 | the distance is symmetric |
| EditDistance.ComposeRunsBoth | scripts/integration-smoke/smoke-chat-ifix.py:203-213 | two scripts run one after the other are one script that costs no more than both |
| EditDistance.Triangle | scripts/integration-smoke/smoke-chat-ifix.py:203-213 | the distance satisfies the triangle inequality |
| EditDistance.DistBounds | scripts/integration-smoke/smoke-chat-ifix.py:180-183 | the distance lies between the difference and the maximum of the lengths |
| WordErrorRate.CellEquation | scripts/integration-smoke/smoke-chat-ifix.py:199-212 | borders and recurrence of the table, read on prefixes |
| WordErrorRate.NewTable | scripts/integration-smoke/smoke-chat-ifix.py:197-202 | the allocated table with its deletion column and insertion row |
| WordErrorRate.FillRow | scripts/integration-smoke/smoke-chat-ifix.py:203-212 | the inner loop turns a correct row above into a correct row and touches no other row |
| WordErrorRate.EditTable | scripts/integration-smoke/smoke-chat-ifix.py:195-213 | the filled table's last cell is the distance of the two word lists |
| WordErrorRate.WordErrorRate | scripts/integration-smoke/smoke-chat-ifix.py:166-213 | the rate of two texts, early returns included, is the rate of their word lists |
| WordErrorRate.RateRange | scripts/integration-smoke/smoke-chat-ifix.py:167-185 | for a non-empty reference the rate is zero exactly on agreement, one on an empty hypothesis, at most max(n,m)/n, and above one only when the hypothesis is longer |
| WordErrorRate.RateIsNormalizedDistanceIff | scripts/integration-smoke/smoke-chat-ifix.py:169-193 | the code's rate is the documented distance over max(n,1) exactly when the reference is non-empty or the hypothesis has at most one word |
| WordErrorRate.RateOfEmptyReference | scripts/integration-smoke/smoke-chat-ifix.py:189-191 | against an empty reference the rate is 0 for an empty hypothesis and 1 for any other |
| WordErrorRate.BreaksAreAlike | scripts/integration-smoke/smoke-chat-ifix.py:186-213 | two texts that differ only in which breaking character separates two words have rate 0 |
| TextNormalization.NormalizeText | scripts/integration-smoke/smoke-chat-ifix.py:137-163 | the character loop yields the normalized text |
| TextNormalization.SplitOfJoin | scripts/integration-smoke/smoke-chat-ifix.py:162-163 | splitting undoes joining with single spaces |
| TextNormalization.BreakCutsSplit | scripts/integration-smoke/smoke-chat-ifix.py:163 | each of Python's 29 breaking characters, listed one by one, separates the words before it from those behind it |
| TextNormalization.UnbrokenIsOneWord | scripts/integration-smoke/smoke-chat-ifix.py:163 | a text without any of them is one word, or none when empty; with the row above this determines splitting |
| TextNormalization.NormalizedWords | scripts/integration-smoke/smoke-chat-ifix.py:138-163 | the rate sees exactly the words cut out by marks and white space, none empty, none with a mark or space |
| TextNormalization.MarkCutsWords | scripts/integration-smoke/smoke-chat-ifix.py:144-153 | a punctuation or symbol character anywhere is a word boundary |
| TextNormalization.NormalizedCutsAt | scripts/integration-smoke/smoke-chat-ifix.py:144-163 | marks and breaking characters separate the normalized words wherever they stand |
| TextNormalization.UnmarkedWordStays | scripts/integration-smoke/smoke-chat-ifix.py:144-163 | a word without marks comes through lower-cased and otherwise unchanged |
| TextNormalization.NormalizedIsTidy | scripts/integration-smoke/smoke-chat-ifix.py:162-163 | white space is collapsed to single blanks and trimmed |
| TextNormalization.NormalizeIsIdempotent | scripts/integration-smoke/smoke-chat-ifix.py:137-163 | normalizing twice is normalizing once, for any lower-casing that settles |
| AlertSeverity.WhoIsPaged | gateway/internal/alert/severity.go:88-267 | the on-call channel is targeted exactly by a primary GPU breaker opening, an emergency pod state or a confirmed primary death, and the other channels by critical and warning events together |
| AlertSeverity.WhoIsAlerted | gateway/internal/alert/severity.go:88-267 | channel by channel and in literal states and types, exactly which events reach it: clickup and brevo hear of every opened breaker, shedding turned on, the four alerting emergency states and confirmed primary deaths |
| AlertSeverity.FingerprintIdentifiesIncident | gateway/internal/alert/severity.go:88-243 | under the colon conditions equal fingerprints mean the same stream, upstream or type, and state; for a confirmed death the same reason |
| AlertSeverity.FingerprintDeterminesSeverity | gateway/internal/alert/severity.go:88-243 | with colon-free states and primary types other than `death`, equal fingerprints mean equal tiers |
| AlertSeverity.ShadowsExactly | gateway/internal/alert/severity.go:88-243 | a lower-tier event shares some critical fingerprint exactly when it is an emergency event whose state ends in a colon and a critical state, or a primary event of type `death` or `death:...` |
| AlertSeverity.VictimIsHidden | gateway/internal/alert/severity.go:88-243 | each such event comes with a critical event it would hide |
| AlertSeverity.OnlyShadowsShareCritical | gateway/internal/alert/severity.go:88-243 | no other lower-tier event has the fingerprint of a critical one |
| AlertSeverity.WellFormedDoesNotShadow | gateway/internal/alert/severity.go:88-243 | the colon conditions exclude every such event |
| Alerter.DedupStore.SetNX | gateway/internal/alert/dedup.go:69-87 | SET NX with a 300 s expiry, where a failed call may still have claimed the key |
| Alerter.Process.DedupShouldSend | gateway/internal/alert/dedup.go:69-87 | the gate's answer and its effect on the keys, fail-open for critical and fail-closed otherwise |
| Alerter.Process.Enqueue | gateway/internal/alert/alerter.go:234-255 | one fan-out target: skipped when not configured, enqueued when the queue has room, dropped otherwise |
| Alerter.Process.DispatchAll | gateway/internal/alert/alerter.go:221-256 | the fan-out loop offers the message once to each channel of its tier |
| Alerter.Process.HandleEvent | gateway/internal/alert/alerter.go:191-257 | an event is appended to exactly the queues of the configured channels it reaches that have room, when the gate is open: bypassed, the key free, or Redis failing on a page; and the whole effect on the keys and the history |
| Alerter.Process.ReconcileBoot | gateway/internal/alert/alerter.go:317-366 | a boot surfaces an active incident, past the gate when it is critical and through it when it is a warning |
| Alerter.Process.WorkerTake | gateway/internal/alert/alerter.go:269-276 | a free worker takes the oldest job of its channel |
| Alerter.Process.WorkerFinish | gateway/internal/alert/alerter.go:276-289 | a returning Send frees the worker, whatever its result |
| AlertPipeline.FanOutPerChannel | gateway/internal/alert/alerter.go:234-256 | the fan-out touches each named channel once and no other |
| AlertPipeline.DispatchBalanced | gateway/internal/alert/alerter.go:221-256 | dispatching a message keeps every channel's books |
| AlertPipeline.WorkerStepBalanced | gateway/internal/alert/alerter.go:269-289 | a worker's step keeps every channel's books |
| AlertPipeline.BooksOfAChannel | gateway/internal/alert/alerter.go:221-289 | per channel: targeted = not configured + dropped + accepted; accepted is, in order, sent then in hand then queued; queues hold at most 64; warnings never reach chatwoot and info events reach nothing |
| AlertPipeline.DropsOnlyWhenFull | gateway/internal/alert/alerter.go:243-255 | a message aimed at a configured channel is lost exactly when its queue is full |
| AlertPipeline.EventReachesItsChannels | gateway/internal/alert/alerter.go:191-256 | the same for a whole life: each channel reached is offered the message, no other lane changes |
| AlertPipeline.RepeatsAreGated | gateway/internal/alert/dedup.go:69-87 | after a free key was tried, the event is dispatched again exactly when nothing was claimed or 300 s have passed |
| AlertPipeline.DrainsInOrder | gateway/internal/alert/alerter.go:269-289 | a free worker sends n queued messages, oldest first, and leaves the rest waiting |
| AlertProtocol.EveryRunBalanced | gateway/internal/alert/alerter.go:191-289 | the books balance for every replica in every interleaving of events, boots, crashes and worker steps |
| AlertProtocol.GateInvariantHolds | gateway/internal/alert/dedup.go:69-87 | every dedup key was claimed a full window before its expiry by a gated event of that fingerprint, dispatched if critical |
| AlertProtocol.NoMaskingKeepsPagesSafe | gateway/internal/alert/alerter.go:191-219 | with Redis errors and any replicas, a suppressed critical event follows a dispatched critical event of the same fingerprint by less than 300 s |
| AlertProtocol.PagesSafeExactly | gateway/internal/alert/alerter.go:191-219 | pages are safe in every run exactly when no lower-tier event in play shares a fingerprint with a critical one |
| AlertProtocol.SilencedPage | gateway/internal/alert/dedup.go:78-86 | otherwise there is a run, with Redis answering throughout, in which a page is silenced |
| AlertProtocol.MaskingIsCarriedShadowing | gateway/internal/alert/severity.go:88-243 | masking takes one carried lower-tier event of the shadowing form and a carried critical event with its fingerprint; boots add none |
| AlertProtocol.PagesSafeUnlessShadowed | gateway/internal/alert/alerter.go:191-219 | pages are safe in every run exactly when the streams carry no shadowing event together with a critical event it shadows |
| AlertProtocol.WellFormedEventsKeepPagesSafe | gateway/internal/alert/alerter.go:191-219 | with colon-free states and colon-free primary types other than `death`, every run with any replicas, crashes and Redis failures keeps pages safe |
| AlertProtocol.QuietWindowReopens | gateway/internal/alert/dedup.go:69-87 | in every run, 300 quiet seconds free every key: any event is dispatched again |
| AlertSpacing.EveryRunSpaced | gateway/internal/alert/dedup.go:78-86 | without Redis errors, gated dispatches of one fingerprint by all replicas are at least 300 s apart, and only critical boots pass the gate |
| AlertSpacing.WindowBound | gateway/internal/alert/alerter.go:296-366 | in any window under 300 s a fingerprint is dispatched at most once plus once per critical boot in it |
| AlertSpacing.LowTiersStaySpaced | gateway/internal/alert/dedup.go:79-83 | however Redis fails, a fingerprint no critical event carries keeps its gated dispatches 300 s apart |
| AlertSpacing.SpacedDespiteFailuresExactly | gateway/internal/alert/dedup.go:69-87 | with arbitrary Redis replies, the gated dispatches of a fingerprint are 300 s apart in every run exactly when the streams carry no critical event with it |
| ClickUpMachines.HistoryMeaning | gateway/internal/alert/clickup.go:230-270 | a history is allowed exactly when each POST was admitted by the breaker, was not early for an exhausted quota, and found the breaker and quota its predecessor left |
| ClickUpMachines.ThreeFailuresOpen | gateway/internal/alert/clickup.go:185-190 | three failing POSTs in a row leave the breaker open, or already waited out an open period |
| ClickUpMachines.FourPostsSpanAnOpenPeriod | gateway/internal/alert/clickup.go:185-204 | of four POSTs whose first three failed, some neighbours are more than the open period apart |
| ClickUpMachines.AnnouncedResetIsHonoured | gateway/internal/alert/clickup.go:114-156 | after a response reporting no quota left, no POST starts before the reset it announces |
| ClickUpMachines.BreakerReadsOutcomes | gateway/internal/alert/clickup.go:185-202 | the breaker's state read off the statuses: fewer than three failures in a row, closed; from three on, open until 60 s after the last |
| ClickUpMachines.AdmittedExactly | gateway/internal/alert/clickup.go:185-202 | a POST is admitted exactly when fewer than three failures came last or 60 s have passed since |
| ClickUpMachines.ExhaustedExactly | gateway/internal/alert/clickup.go:114-156 | the limiter waits exactly while the quota last reported is used up and the reset last reported is ahead |
| ClickUpMachines.VerdictExactly | gateway/internal/alert/clickup.go:303-331 | 2xx is success, a cancellation or 4xx other than 429 permanent, 429 a retry-after, anything else retryable |
| ClickUpMachines.RateLimitedPause | gateway/internal/alert/clickup.go:303-362 | after a 429 the seconds asked for are those to an announced reset at least a second ahead, else the Retry-After, else one; they are waited for exactly when they are at most 9223372036, and then the pause is at least a second and ends less than a second before the reset |
| ClickUpMachines.HugeRetryAfterIsShort | gateway/internal/alert/clickup.go:355-359 | a Retry-After of 18446744074 seconds wraps to a pause of less than one |
| ClickUpClient.AdaptiveRateLimiter.WaitIfExhausted | gateway/internal/alert/clickup.go:114-134 | returns only once the recorded quota is not exhausted, unless the context ended |
| ClickUpClient.AdaptiveRateLimiter.Observe | gateway/internal/alert/clickup.go:137-156 | records the two headers, ignoring absent and unparsable ones |
| ClickUpClient.Client.Try | gateway/internal/alert/clickup.go:230-270 | one attempt makes its POST exactly when a request can be built and it is not refused; refused it is permanent, and a request that cannot be built counts against the breaker and is retried |
| ClickUpClient.Client.BackOff | gateway/internal/alert/clickup.go:272-275 | the loop gives up exactly on a permanent outcome, an ended context or after 15 minutes, and else pauses as asked |
| ClickUpClient.Client.Retry | gateway/internal/alert/clickup.go:272-275 | one POST per attempt, each with its attempt's outcome, until success, four tries, giving up or refusal, and never less |
| ClickUpClient.Client.Send | gateway/internal/alert/clickup.go:218-284 | the same of a whole Send: it succeeds exactly when its last POST was 2xx, and makes its first POST unless that is refused |
| ClickUpClient.WhySendStops | gateway/internal/alert/clickup.go:218-284 | why a Send stops, in statuses and times: 2xx, four POSTs, a permanent outcome, the context, 15 minutes, or three failures in a row within 60 s |
| ClickUpClient.EachRetryWasDue | gateway/internal/alert/clickup.go:272-331 | a POST followed by another failed in a retryable way with the context alive and less than 15 minutes gone, and the next kept the pause |
| ClickUpClient.OutageThenRecovery | gateway/internal/alert/clickup.go:218-284 | on a fresh client a 503 is retried and the 200 that follows ends the Send |
| ClickUpClient.FourthPostWaitsOutTheBreaker | gateway/internal/alert/clickup.go:52-59 | a Send with four POSTs has waited out a whole open period between two of them |
| PodConfig.GatewayIsDashboardPlusTyping | gateway/internal/admin/config_write.go:145-409 | on one snapshot, for every non-null value and all 36 columns, the gateway accepts exactly what the dashboard accepts and the column's type admits |
| PodConfig.PlainAcceptsExactly | gateway/internal/admin/config_write.go:148-237 | the values the six unbounded fields accept, element by element for the lists |
| PodConfig.CastExactly | gateway/internal/admin/config_write.go:383-409 | the 32-bit conversion is exact exactly in the 32-bit range |
| PodConfig.StoredUnchangedExactly | gateway/internal/admin/config_write.go:293-409 | an accepted value is stored unchanged exactly when it holds no null and, on an integer bound, fits 32 bits |
| ConfigNames.NamesSelectColumns | gateway/internal/admin/config_write.go:145-289 | each of the 36 columns has one kind and name, and no other name selects it |
| ConfigWrite.Handler.ServeHTTP | gateway/internal/admin/config_write.go:123-143 | the status of a request and the row it leaves, unknown fields and failing UPDATEs, committed or not, included |
| ConfigWrite.Handler.WriteLevel | gateway/internal/admin/config_write.go:293-342 | a quantity is checked against its bounds and, for an hour, against 0-23 and the other hour |
| ConfigWrite.Handler.WriteBound | gateway/internal/admin/config_write.go:345-409 | a bound is checked against its counterpart in the snapshot alone |
| ConfigWrite.Handler.WritePlain | gateway/internal/admin/config_write.go:148-237 | an unbounded field is decoded, checked and written |
| ConfigRequests.AnsweredExactly | gateway/internal/admin/config_write.go:123-409 | for every kind, field name and value, with all names and limits literal: 200 exactly for an acceptable value whose UPDATE succeeds, 500 exactly when it fails or for a null list, else 400 |
| ConfigRequests.StoredExactly | gateway/internal/admin/config_write.go:145-409 | what an answered request leaves in the row: the value itself, zero or false for a null, or nothing |
| ConfigRequests.DashboardExactly | dashboard/src/lib/admin-actions-core.ts:419-508 | by name, exactly the values the dashboard lets through |
| ConfigWrite.EveryRunTyped | gateway/internal/admin/config_write.go:145-289 | row and snapshot keep their column types in every run |
| ConfigWrite.LevelWritesAreExact | gateway/internal/admin/config_write.go:293-342 | an accepted quantity is stored as decoded in every run, with no range hypothesis |
| ConfigWrite.OrderlyRunsKeepPairs | gateway/internal/admin/config_write.go:145-409 | with a reload between committed writes to one pair, reported or not, and 32-bit integer bounds, every reachable row keeps min < max for all ten quantities and the two hours apart |
| ConfigWrite.StaleBoundsCrossExactly | gateway/internal/admin/config_write.go:345-409 | two bound writes on one snapshot can cross exactly when both are committed, reported or not, and the quantity is an amount or its integer bounds are at least two apart |
| ConfigWrite.StaleHoursCollideExactly | gateway/internal/admin/config_write.go:293-342 | two hour writes on one snapshot can collide exactly when both are committed and some hour is inside both bounds and taken by neither |
| ConfigWrite.WrappedBoundKeepsPairExactly | gateway/internal/admin/config_write.go:383-409 | an accepted integer bound, of any size and on either side, keeps its pair exactly when its 32-bit cast is still on its side |
| ConfigWrite.WrappedBoundBreaksPair | gateway/internal/admin/config_write.go:383-409 | one beyond the 32-bit range, on either side, is accepted and breaks every pair |
| ConfigAudit.Dashboard.Update | dashboard/src/lib/admin-actions-core.ts:523-650 | the action succeeds exactly when both validators and the UPDATE do, then writes one audit row with the live old value; a PATCH that commits and then fails changes the row and writes none |
| ConfigAudit.ReplayIsLastNew | dashboard/src/lib/admin-actions-core.ts:580-590 | replaying the log gives each column the last value recorded for it, or its initial one |
| ConfigAudit.ActionExplainedExactly | dashboard/src/lib/admin-actions-core.ts:574-650 | an action leaves the log explaining the row exactly when a recorded value is stored as given and an unreported write stores what was there, even if the gateway validated against a stale snapshot |
| ConfigAudit.EveryRunExplainedExactly | dashboard/src/lib/admin-actions-core.ts:523-650 | in a serial run the log explains the row after every action exactly when every action is of that kind |
| ConfigAudit.EveryRunExplained | dashboard/src/lib/admin-actions-core.ts:523-650 | when failed PATCHes leave the row alone and values are stored as given, the log replays to the row and each old value is the last new one |
| ConfigAudit.UnreportedWriteIsUnexplained | dashboard/src/lib/admin-actions-core.ts:574-590 | a changed level whose PATCH commits and then fails is not explained by the log |
| ReplayPool.EveryRunInv | scripts/integration-smoke/load-replay.py:514-569 | in every interleaving records leave the queue in order, sentinels follow them, every taken record is in flight, ended its consumer or has one result, and a run ends only by all consumers exiting or over an exception |
| ReplayPool.EachRecordOnce | scripts/integration-smoke/load-replay.py:353-434 | no record is replayed twice, only enqueued ones that do not raise have a result, and the queue and in-flight bounds hold |
| ReplayPool.ReturnIsComplete | scripts/integration-smoke/load-replay.py:563-569 | a run that returns lost no consumer; with a consumer the records with a result are exactly the enqueued ones, none of which raises; without one there is no result, whatever was enqueued |
| ReplayPool.RaiseHasCause | scripts/integration-smoke/load-replay.py:347-569 | a run raises only over an enqueued record that raises or over a delay that does not convert to a float, integers beyond the doubles included |
| ReplayPool.EveryStepLightens | scripts/integration-smoke/load-replay.py:526-569 | every possible step lowers a measure |
| ReplayPool.RunsAreBounded | scripts/integration-smoke/load-replay.py:526-569 | no run takes more than 4·records + 2·consumers + 2 steps |
| ReplayPool.RunOut | scripts/integration-smoke/load-replay.py:526-569 | every run goes on until nothing more can happen; a producer asleep on an infinite delay stays so |
| ReplayFaults.StuckMeansBlocked | scripts/integration-smoke/load-replay.py:547-569 | a stuck pool has its producer asleep on an infinite delay, or has lost every consumer with more work behind than the queue holds |
| ReplayFaults.BlockedHangs | scripts/integration-smoke/load-replay.py:547-569 | a fixture of that kind has a run that hangs |
| ReplayFaults.AsleepHangs | scripts/integration-smoke/load-replay.py:555-558 | a fixture whose first delay the producer does not get past is infinite has a run that hangs |
| ReplayFaults.HangsExactly | scripts/integration-smoke/load-replay.py:514-569 | the pool can hang exactly when the first delay the producer does not get past is infinite, or enough raising records precede more readable records and sentinels than the queue holds |
| ReplayFaults.BlockedNeverEnds | scripts/integration-smoke/load-replay.py:514-569 | a fixture of the second kind, read to its end, never lets the run end in any schedule |
| ReplayFaults.AsleepNeverEnds | scripts/integration-smoke/load-replay.py:555-558 | nor does one of the first kind |
| ReplayFaults.HangIsDecidedByTheFixture | scripts/integration-smoke/load-replay.py:514-569 | every fixture either hangs in all schedules that read it to its end or in none at all |
| ReplayFaults.SoundFixturesReturn | scripts/integration-smoke/load-replay.py:514-569 | with a consumer, no raising record and only delays that convert and are finite after the speedup, every finished run returns |
| ReplayLosses.RaisesExactly | scripts/integration-smoke/load-replay.py:347-569 | some run raises exactly when a record in reach raises, or one whose delay does not convert to a float can be reached |
| ReplayLosses.LosesExactly | scripts/integration-smoke/load-replay.py:347-569 | some run ends with an enqueued sound record unanswered exactly when a record raises and a sound one is before it with a second consumer, or less than a queue behind it; without consumers, when a sound one fits the queue |
| ReplayFixtures.OneBadRouteLoses | scripts/integration-smoke/load-replay.py:368-372 | one record with a numeric route and a sound one after it, with any consumers: some run leaves the sound one unanswered |
| ReplayFixtures.OneBadRouteHangs | scripts/integration-smoke/load-replay.py:368-372 | one record with a numeric route and eight sound ones after it hang a single consumer in every schedule |
| ReplayFixtures.OneBadRouteHangsExactly | scripts/integration-smoke/load-replay.py:522-569 | with one consumer, a bad route in front of n records can hang the pool exactly when n is at least eight |
| ReplayFixtures.OneInfiniteDelayHangs | scripts/integration-smoke/load-replay.py:555-558 | one infinite delay hangs any number of consumers in every schedule that reads to the end |
| ReplayFixtures.OneHugeDelayRaises | scripts/integration-smoke/load-replay.py:555-558 | one integer delay beyond the doubles can make the run raise, whatever follows |
| ReplayFixtures.FiniteDelaysWakeExactly | scripts/integration-smoke/load-replay.py:555-558 | a finite delay is slept through exactly when it is below 2^1024 - 2^970 times the speedup |
| ReplayFixtures.IntegerDelaysExactly | scripts/integration-smoke/load-replay.py:555-558 | an integer delay is unreadable exactly from 2^1024 - 2^970 on, in magnitude, and else waits like the number |
| ReplayFixtures.OtherDelaysExactly | scripts/integration-smoke/load-replay.py:555-558 | booleans, NaN, infinities, strings, null, lists and objects as delays |
| ReplayFixtures.FiniteDelayReturns | scripts/integration-smoke/load-replay.py:514-569 | such a finite delay, before any sound records and with any consumers: every finished run returns with every enqueued record answered, and read to its end with all of them |
| ReplayFixtures.RoutesThatEndAConsumer | scripts/integration-smoke/load-replay.py:347-372 | with a tenant that has a key, exactly the routes that are no string and not empty, zero, false or null end the consumer |
| ReplayFixtures.TenantsThatEndAConsumer | scripts/integration-smoke/load-replay.py:347-366 | with any other tenant, exactly non-empty lists and objects do |
| AdminKeys.Verifier.Verify | gateway/internal/admin/middleware.go:89-146 | the verdict and the cache it leaves, for every combination of failing calls |
| AdminKeys.AnswersExactly | gateway/internal/admin/middleware.go:89-125 | which answer a key gets: missing, cached, failing query, invalid or the table's identity |
| AdminKeys.CachedForAMinute | gateway/internal/admin/middleware.go:127-138 | a fresh answer serves without the table for exactly 60 s |
| AdminKeys.VerifyIsLookupAndStore | gateway/internal/admin/middleware.go:111-138 | an undisturbed Verify is a lookup and at once its cache write |
| AdminKeys.EntriesWereActive | gateway/internal/admin/middleware.go:127-138 | every cache entry records a moment at which the table had that row, a TTL before its expiry or earlier by at most the time between query and write |
| AdminKeys.AcceptedWasActive | gateway/internal/admin/middleware.go:89-146 | in every run, with lookups interleaved, an accepted key was active with the returned identity within the last 60 s plus the longest time between a query and its write |
| AdminKeys.RevokedKeysAreRefused | gateway/internal/admin/middleware.go:35-41 | a key inactive for that long is refused |
| AdminKeys.RevokedKeyAccepted | gateway/internal/admin/middleware.go:127-138 | the bound is sharp: for every lag there is a run in which a key revoked right after its query is accepted to the last millisecond of it |
| EconomyReport.Accrue | gateway/internal/admin/economy.go:201-225 | totals, hours and the per-day buckets of the accrual loop |
| EconomyReport.PhantomByDate | gateway/internal/admin/economy.go:227-237 | the phantom map, a later row of a day replacing an earlier one |
| EconomyReport.MergedDays | gateway/internal/admin/economy.go:229-246 | the strictly ascending union of phantom and Vast days |
| EconomyReport.Economy | gateway/internal/admin/economy.go:201-257 | the totals and one series row per day of the union with that day's amounts |
| EconomyReport.Operations | gateway/internal/admin/operations.go:219-250 | month and today cost as sums of the same per-row cost |
| EconomyReport.ClosedRowExactly | gateway/internal/admin/economy.go:203-210 | a closed row costs what was billed and ran its own hours |
| EconomyReport.OpenRowExactly | gateway/internal/admin/economy.go:211-219 | an open row costs price times hours since its start times the exchange rate |
| EconomyReport.OneMoreLifecycle | gateway/internal/admin/operations.go:219-250 | what one more row adds to month, day, today and hours |
| EconomyReport.SavingExactly | gateway/internal/admin/economy.go:247-257 | in each series row, cost and saving together are the phantom amount |
| EconomyReport.SeriesAddsUp | gateway/internal/admin/economy.go:197-257 | the series' Vast costs add up to the total, which is the operations month cost on the same rows and instant |
| EconomyReport.CostGrows | gateway/internal/admin/economy.go:211-219 | a row's cost is non-negative and never falls with time, for non-negative prices |
| EconomyReport.TotalGrows | gateway/internal/admin/operations.go:219-250 | so is every filtered total, and today's part never exceeds the month's |
| BillingReconcile.Reconciler.ReconcileTenant | gateway/cmd/gatewayctl/billing.go:132-214 | one tenant's today row decides drift and, with --apply, the rewrite, which can fail applied or not |
| BillingReconcile.Reconciler.Reconcile | gateway/cmd/gatewayctl/billing.go:130-228 | exit 0 exactly when no query or needed rewrite fails and, without --apply, nothing drifts; with --apply exactly the drifting counters are rewritten, on exit 1 those up to the first failing tenant; without it nothing is written |
| BillingReconcile.DriftThreshold | gateway/cmd/gatewayctl/billing.go:172-182 | a compared row drifts exactly when the gap exceeds a thousandth of the billed sum |
| BillingReconcile.TenantDriftsExactly | gateway/cmd/gatewayctl/billing.go:150-182 | drift read off the rows: tokens in and out together, a missing or unreadable counter as zero, and the negative and zero sums |
| BillingReconcile.HalvesRoundAway | gateway/cmd/gatewayctl/billing.go:188-194 | half a second of audio rounds away from zero |
| BillingReconcile.RewrittenMeaning | gateway/cmd/gatewayctl/billing.go:188-212 | each drifting tenant's counter of today mirrors its billed row, audio to the nearest second, and no other counter changes |
| BillingReconcile.RerunDriftsExactly | gateway/cmd/gatewayctl/billing.go:150-228 | a rerun on the same billing drifts exactly for a negative billed sum, a positive one with the counter unreadable now, or a zero one whose counter was unreadable before and holds tokens |
| AuditExport.PlaceholderToolCalls | scripts/integration-smoke/audit-log-export.py:201-222 | the loop replaces the arguments of every function call in a list |
| AuditExport.SanitizeBody | scripts/integration-smoke/audit-log-export.py:225-293 | the sanitised document, skips and malformed bodies included |
| AuditExport.CallsChangeInArgumentsOnly | scripts/integration-smoke/audit-log-export.py:210-222 | a tool call changes in its arguments alone, and none is added or lost |
| AuditExport.SanitizeIsIdempotentAndClean | scripts/integration-smoke/audit-log-export.py:225-293 | sanitising is idempotent, leaves only placeholder arguments at both levels, drops `audio.filename`, `file.url`, `image.url` and the `filename` and `url` under audio, file and image, on the transcription route also the keys audio, file, data and bytes, and touches nothing outside the named keys |
| AuditExport.EveryLineIsClean | scripts/integration-smoke/audit-log-export.py:225-293 | the same with every key literal, and what sensitive, missing and malformed bodies become |
| AuditExport.WhatSanitizingKeeps | scripts/integration-smoke/audit-log-export.py:225-293 | key by key, what a sanitised object keeps of the original |
| AuditExport.MessagesChangeInCallsOnly | scripts/integration-smoke/audit-log-export.py:256-268 | a message changes in its tool calls alone, and none is added or lost |
| AuditExport.EmitJsonl | scripts/integration-smoke/audit-log-export.py:384-436 | each line comes from its row, in order and from exactly the rows that are not sensitive and have a tenant, with each of the row's fields and a clean body; emitted + skipped = rows read, and every row without a tenant is reported |
| AuditExport.DelayIsTheGap | scripts/integration-smoke/audit-log-export.py:414-419 | a line's delay is the time since the last timestamp written, never negative |
| AuditExport.DelaysTelescope | scripts/integration-smoke/audit-log-export.py:414-419 | the delays add up to last minus first emitted timestamp exactly when those are in order, and otherwise exceed it |
| SilentWav.GenerateSilentWAV | pod/health-bridge/probes.go:179-203 | the buffer's length, its header bytes and silent samples |
| SilentWav.HeaderDecodes | pod/health-bridge/probes.go:188-201 | every header field is read back from its offset in the RIFF/WAVE layout |
| SilentWav.SizesAreExactUpTo | pod/health-bridge/probes.go:182-201 | the RIFF and data sizes are the true ones exactly up to 134217 seconds |

## Left out

- HTTP, JSON text, SQL and the Redis wire protocol: payloads are decoded values or malformed, queries and commands succeed or fail.
- Atomicity: `handleEvent` and one PATCH are single steps; a crash between the dedup claim and the enqueue, and retries inside the Redis client library, are not modelled.
- A nil Redis client: a wiring bug that the alerter treats like a Redis failing without effect, and that skips boot reconciliation.
- Message titles and bodies, metrics and log lines: a message stands for the event it is built from.
- Reset instants near the end of the 64-bit range, whose seconds wrap inside the time library.
- gobreaker and backoff internals: one trial request, a 60 s open period and a 15 min elapsed-time limit as documented; the exponential schedule is an arbitrary non-negative interval.
- ConfigWrite.OrderlyRunsKeepPairs: the handler reads bounds and config from the loader in two calls; the model takes one snapshot, which no pair spans.
- PodConfig.GatewayIsDashboardPlusTyping: JSON numbers are exact reals without their spelling; the float64 rounding of amounts is not modelled, nor that Go refuses `5.0` or `1e2` for an integer, which a PATCH not sent by the dashboard could hold (JavaScript writes both as plain integers).
- JavaScript's Infinity: it passes the dashboard's checks on a bound and is sent as JSON null, which the gateway decodes to 0; dashboard values are JSON values here.
- PodConfig.PlainAcceptsExactly: the same integer spellings in `host_id` and the id lists.
- EconomyReport.Economy: exact arithmetic in place of float64, the date strings as ordered day keys, and the date set kept sorted as it grows; the ROI and served-locally ratios are single quotients.
- BillingReconcile.Reconciler.Reconcile: the grouped query is taken to return one row per day, and tenants to be listed once.
- ReplayPool.EveryRunInv: consumers are interchangeable, so idle, exited and ended ones are counted; time and the request itself are steps; the preflight scan, which refuses lines that are no objects and tenants without a key, is taken as passed; `--speedup` is a finite number, though NaN and infinity are let through; delays are exact reals.
- Building the replay report from the results, where a route that cannot be hashed raises once more.
- Percentiles, gate booleans and exit codes of the smoke and load scripts: finite and easy.
- The consumption roll-ups of the dashboard: sums and a sort like those of the economy report, and easier.
- Breaker, shed, emergency and primary state machines, proxying, quota and the podconfig loader: not part of this model.
- Operator administration, sessions and e-mail in the dashboard: plumbing around library calls.

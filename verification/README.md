# A verified model of avtool's stateful parts

avtool matches files against known-bad SHA-256 hashes and lets the user quarantine, delete,
ignore or report a match; a web service sells licenses for it. This project models the parts of
both that carry state and proves what they keep over whole runs, with failures, crashes and
interleavings included.

| file | component |
|---|---|
| `RateLimit.dfy` | the sliding-window rate limiter: one key's list, all keys, and the class that compacts slices in place over shared backing arrays |
| `Watcher.dfy` | the debouncing file watcher: select loop, timers, goroutines blocked on the channel |
| `Billing.dfy` | the webhook handlers as programs of single SQL statements; crash and redelivery |
| `LicenseHistory.dfy` | sequential runs of webhook events: who holds a license, what a row says, independence of users |
| `WebhookPool.dfy` | handlers in flight at the same time, interleaved statement by statement |
| `BillingServer.dfy` | the endpoint and the license functions, updating the tables in place |
| `Options.dfy`, `Files.dfy` | an optional value; paths and files |
| `Quarantine.dfy` | the quarantine store: records and file bodies, cut off after any step |
| `HashDb.dfy` | the hash table: normalisation, Upsert with source priority, Remove |
| `Hex.dfy`, `Scanner.dfy` | hexadecimal digests and the scan of a file or a walk |
| `Review.dfy` | the detection queue, the prompt and the review loop over files, store, queue and input |
| `Notify.dfy` | the AppleScript escaper and the notification script |

Each component has a pure half, which says what a step does to a state and carries the proofs,
and, where the program updates something in place, a class or method proved equal to it.

How the outside is modelled:

- A SQL statement and a system call are atomic. A failing call and a dying process look the same:
  operations take the point at which they ended (`Cut`, `Ending`, `PurgeEnding`, `Move`), the
  number of statements that succeed (`budget`), or how the calls of one detection go (`Env`).
- The SHA-256 digest is any function (`Digest`, `Server.sha256`). Random license keys are drawn
  fresh; where two draws must differ, the statement says so.
- Clock readings are integers. The limiter's clock is read before its lock is taken, so its
  theorems measure how far same-key readings fall back in lock order (`Skewed`).
- AUTOINCREMENT ids are never reused. `users.stripe_customer_id` does not change during a run.

Where the code and its own documentation part:

- `internal/web/ratelimit/ratelimit.go:12-13` promises at most max successes in any trailing window. With clock readings
  up to d behind the lock order this holds exactly when max <= 1, window <= 0 or d = 0
  (`RateLimit.DocumentedGuarantee`); the lengths that are protected are given by
  `RateLimit.GuaranteedLengths`.
- `internal/web/ratelimit/ratelimit.go:33-36` says memory is bounded by the keys in the window. Keys are never deleted
  (`RateLimit.KeysNeverForgotten`), so this holds exactly as long as every key ever asked about was asked about within the
  last window (`RateLimit.MemoryBoundExactly`; `RateLimit.QuietKeyIsHeld` is a run that exceeds it).
- `docs/superpowers/specs/2026-08-18-antivirus-tool-design.md:62-64` says a manual removal is not
  reintroduced by the next sync. It is, exactly when the sync holds the hash
  (`HashDb.RemovalLastsUntilNextBatch`, `HashDb.RemovalUndoneBySync`).
- `internal/web/handlers/api.go:35` says a license implies an active subscription. A past_due
  update breaks this (`LicenseHistory.LicenseWithoutActiveSubscription`); the runs after which it
  holds are those of `LicenseHistory.LicenseImpliesActiveExactly`. The converse breaks when one of
  two subscriptions is deleted (`LicenseHistory.ActiveRowWithoutLicense`,
  `LicenseHistory.ActiveImpliesLicenseExactly`). `LicenseHistory.LicenseIffEntitled` is what a
  license does stand for.
- One live license per user needs handlers that do not overlap
  (`WebhookPool.LiveLicenseBoundIsExact`).
- A restore after a failed cross-device quarantine can overwrite an intact original: exactly when
  the copy had been stopped short (`Quarantine.RestoreAfterAnyQuarantine`,
  `Quarantine.PartialBodyOverwritesOriginal`).

## Model

| member | source | states |
|---|---|---|
| RateLimit.GuaranteedLengths | internal/web/ratelimit/ratelimit.go:12-58 | exactly which interval lengths never hold more than max successes of a key when clocks fall back by at most d: none is excluded for max <= 0, up to window for max = 1, up to window - d otherwise |
| RateLimit.DocumentedGuarantee | internal/web/ratelimit/ratelimit.go:12-13 | the documented promise for the full window holds if and only if max <= 1, window <= 0 or the clocks never fall back |
| RateLimit.RateBound | internal/web/ratelimit/ratelimit.go:38-58 | for one key and clocks at most d apart, any interval (a, a + window - d] holds at most max(0, max) successes |
| RateLimit.LimiterBound | internal/web/ratelimit/ratelimit.go:38-58 | the same bound over every run of calls to any keys, and no stored list ever exceeds max(0, max) |
| RateLimit.SkewOverruns | internal/web/ratelimit/ratelimit.go:38-45 | for max >= 2 a longer interval can hold max + 1 successes, so the bound is tight |
| RateLimit.SingleSlot | internal/web/ratelimit/ratelimit.go:44-58 | with max = 1 successes are a full window apart whatever the clocks do |
| RateLimit.PruningLosesNothing | internal/web/ratelimit/ratelimit.go:44-49 | beyond the highest cutoff used so far the pruned list equals the full success history |
| RateLimit.RefinesFullHistory | internal/web/ratelimit/ratelimit.go:44-58 | a call not earlier than the key's previous ones is allowed if and only if fewer than max successes of the whole history lie in (now - window, now] |
| RateLimit.LimiterRefinesFullHistory | internal/web/ratelimit/ratelimit.go:37-59 | the same decision over runs with calls for other keys in between |
| RateLimit.ReadmittedExactlyWhen | internal/web/ratelimit/ratelimit.go:51-58 | after any number of denials a key is allowed again by exactly the calls at or after its oldest counted success plus the window |
| RateLimit.KeysAreIndependent | internal/web/ratelimit/ratelimit.go:44-57 | a key's list and successes depend only on the calls for that key |
| RateLimit.AnsweredByKey | internal/web/ratelimit/ratelimit.go:37-59 | a call in any run is answered as in the run of its key's calls alone, so the one-key results hold of every key |
| RateLimit.KeysNeverForgotten | internal/web/ratelimit/ratelimit.go:33-57 | the map's keys are all keys ever asked about, not only those in the window |
| RateLimit.MemoryBoundExactly | internal/web/ratelimit/ratelimit.go:33-57 | the map has at most as many keys as were asked about in the last window if and only if no key was last asked about earlier |
| RateLimit.QuietKeyIsHeld | internal/web/ratelimit/ratelimit.go:33-57 | a concrete run in which a key stays in the map long after its window |
| RateLimit.FreshConcat | internal/web/ratelimit/ratelimit.go:44-49 | pruning filters piece by piece and keeps the order |
| RateLimit.KeptIsShort | internal/web/ratelimit/ratelimit.go:51-57 | a key's list never grows past max(0, max) |
| RateLimit.Limiter.constructor | internal/web/ratelimit/ratelimit.go:25-31 | a new limiter holds no keys and an empty history |
| RateLimit.Limiter.Compact | internal/web/ratelimit/ratelimit.go:44-49 | the in-place loop leaves exactly the in-order timestamps after the cutoff at the front of the array |
| RateLimit.Limiter.Append | internal/web/ratelimit/ratelimit.go:56 | append extends the list by the new timestamp, in the same array or a new one |
| RateLimit.Limiter.Record | internal/web/ratelimit/ratelimit.go:44-58 | one call's pruning, decision and recording on its key's slice |
| RateLimit.Limiter.SliceOf | internal/web/ratelimit/ratelimit.go:44 | an absent key reads as an empty slice that shares no array |
| RateLimit.Limiter.Store | internal/web/ratelimit/ratelimit.go:52-57 | storing one key's slice keeps the lists of all others and the separation of arrays |
| RateLimit.Limiter.Allow | internal/web/ratelimit/ratelimit.go:37-59 | the answer and the new table are those of the history extended by this call; slices of other keys are untouched and arrays stay separate |
| Watcher.EventsConserved | internal/watcher/watcher.go:39-55 | in every reachable interleaving, accepted events of a path = stops that caught a timer + armed timers + blocked senders + onFile calls |
| Watcher.NoChangeLost | internal/watcher/watcher.go:39-55 | a path changed since onFile last started on it has an armed timer or a blocked sender, also after a receive deleted a newer timer's entry |
| Watcher.ChangeCanBeDelivered | internal/watcher/watcher.go:35-55 | while the loop runs, such a change can always be delivered with no further event |
| Watcher.BurstCollapses | internal/watcher/watcher.go:46-55 | a burst with gaps below the debounce time, interleaved with other paths, gives exactly one onFile call, at least the debounce time after its last change |
| Watcher.BurstProgress | internal/watcher/watcher.go:46-55 | at every point of a burst the path has one armed timer, or one blocked sender, or has been delivered once |
| Watcher.RunningExactly | internal/watcher/watcher.go:35-60 | from its start the loop runs exactly as long as it was not stopped; a reported watcher error does not end it |
| Watcher.SilentAfterStop | internal/watcher/watcher.go:37-38 | after a stop no call of onFile starts, no event is accepted and no timer is stopped, whatever timers still expire |
| Watcher.CallingExactly | internal/watcher/watcher.go:53-55 | the loop is inside onFile exactly from a receive to the return that follows |
| Watcher.OneCallAtATime | internal/watcher/watcher.go:35-60 | calls of onFile never overlap, and during one the loop takes no event, no other path, no error and no stop |
| Watcher.BooksKept | internal/watcher/watcher.go:11-55 | every accepted event armed one timer of its own, due 300 milliseconds after it; the pending map has an entry for exactly the paths that changed since onFile last started on them |
| Watcher.BurstHappens | internal/watcher/watcher.go:35-60 | runs exist in which any number of changes, an error and 300 milliseconds lead to one call of onFile and then a stop |
| Watcher.InvStep | internal/watcher/watcher.go:35-60 | every step keeps: a pending entry names its path's latest timer, and a changed path's latest timer is armed or blocked |
| Watcher.ConservedStep | internal/watcher/watcher.go:35-60 | every step of the protocol keeps the event balance |
| Watcher.Loop.constructor | internal/watcher/watcher.go:32-33 | the loop starts with no timers and nothing pending |
| Watcher.Loop.OnEvent | internal/watcher/watcher.go:39-52 | an event stops the pending timer if it is still armed, arms a new one and records it as pending; an irrelevant one does nothing |
| Watcher.Loop.StopTimer | internal/watcher/watcher.go:47-49 | Stop affects only a timer that has not expired |
| Watcher.Loop.OnExpiry | internal/watcher/watcher.go:50-52 | an expired timer's goroutine waits to send |
| Watcher.Loop.OnFire | internal/watcher/watcher.go:53-55 | a receive deletes the path's pending entry and starts onFile on the path |
| Watcher.Loop.OnReturn | internal/watcher/watcher.go:55 | the loop is back at its select statement |
| Watcher.Loop.OnError | internal/watcher/watcher.go:56-60 | a reported error changes nothing; a closed error channel ends the loop |
| Watcher.Loop.OnStop | internal/watcher/watcher.go:37-38 | the loop returns |
| Billing.UninterruptedHandler | internal/web/billing/webhook.go:90-161 | the statements of a handler, run to the end, have the combined effect and the response of the handler as a whole |
| Billing.RedeliveryEqualsOneRun | internal/web/billing/webhook.go:116-160 | any number of attempts cut off anywhere, then one complete one, leave the same rows and live-license counts as one clean run and alter no revoked license |
| Billing.PartWayStep | internal/web/billing/webhook.go:90-161 | every cut leaves each table as before the event or as after a clean run |
| Billing.CutShape | internal/web/billing/webhook.go:90-161 | each table is left as it was or as by a clean run, and licenses change only after the subscription row did |
| Billing.LiveAfterProcess | internal/web/billing/webhook.go:125-160 | an active event gives its user one live license if there is none, a deletion leaves the owner none, other users keep theirs |
| Billing.ProcessKeepsRevoked | internal/web/license/license.go:73-79 | handling an event never changes a revoked license |
| Billing.LiveAfterRevoke | internal/web/license/license.go:73-79 | revoking all leaves the user no live license and others theirs |
| Billing.LiveAfterRevokeOne | internal/web/license/license.go:57-66 | revoking by key takes exactly that license from the live ones, stamps its row and changes no other |
| Billing.LiveAfterInsert | internal/web/license/license.go:27 | an inserted license adds one live license to its user only |
| LicenseHistory.LicenseIffEntitled | internal/web/billing/webhook.go:90-161 | after any sequential run a user has a valid license, and then exactly one, if and only if some active event of theirs came after the last deletion of a row they own |
| LicenseHistory.LicenseWithoutActiveSubscription | internal/web/handlers/api.go:35-38 | a concrete run after which a live license exists with no active subscription |
| LicenseHistory.LicenseImpliesActiveExactly | internal/web/handlers/api.go:35-38 | after a run, a live license implies an active row of its user if and only if: if an active event came after the last deletion of a row of theirs, then an active event was the last to write some row of theirs |
| LicenseHistory.ActiveImpliesLicenseExactly | internal/web/billing/webhook.go:139-161 | an active row implies a live license if and only if the same holds the other way round |
| LicenseHistory.ActiveRowWithoutLicense | internal/web/billing/webhook.go:139-161 | a concrete run: deleting one of two active subscriptions leaves an active row and no license |
| LicenseHistory.ActiveRowIffStillActive | internal/web/billing/webhook.go:116-156 | a user has an active row exactly when an active event was the last to write one of their rows |
| LicenseHistory.RowSaysLastEvent | internal/web/billing/webhook.go:116-156 | a subscription row carries the status and period of the last event that wrote it and the user of the first |
| LicenseHistory.RowSaysHistory | internal/web/billing/webhook.go:116-151 | after any run a subscription row is determined: user and customer of the first event that wrote it, tier standard, period of the last created or updated event, and its status unless a deletion came after it |
| LicenseHistory.RowExists | internal/web/billing/webhook.go:97-120 | a row exists exactly when some created or updated event of a known customer with a period was handled |
| LicenseHistory.LicenseSaysHistory | internal/web/billing/webhook.go:125-161 | after any run the license with the key an event drew exists exactly when that event was active and found no license of its user; it is that user's and is revoked exactly when a row of theirs was deleted since, at the time of the first such deletion |
| LicenseHistory.OwnerIsRowUser | internal/web/billing/webhook.go:116-120 | a row belongs to the user of the first event that wrote it, and exists exactly from then on |
| LicenseHistory.UserProjection | internal/web/billing/webhook.go:90-161 | a user's rows and licenses after any run are those after the events about that user alone |
| LicenseHistory.DifferentUsersCommute | internal/web/billing/webhook.go:90-161 | events about different users can be handled in either order |
| LicenseHistory.UnknownIsNoOp | internal/web/billing/webhook.go:97-149 | events about unknown customers or subscriptions change nothing |
| WebhookPool.LiveLicenseBound | internal/web/billing/webhook.go:116-134 | with at most n handlers in flight, live licenses of a user plus handlers about to insert one never exceed n |
| WebhookPool.LiveLicenseBoundIsExact | internal/web/billing/webhook.go:125-134 | a limit on live licenses holds of all interleavings if and only if it is at least n |
| WebhookPool.BoundedStep | internal/web/billing/webhook.go:90-161 | every statement, arrival, crash and key revocation keeps the bound |
| WebhookPool.RevokedForGood | internal/web/license/license.go:57-66 | once a key is revoked its license stays revoked in every interleaving |
| WebhookPool.InFlight | internal/web/billing/webhook.go:35 | a handler is in flight exactly when it arrived and has not left since |
| WebhookPool.SequentialRunsAreReachable | internal/web/billing/webhook.go:50-86 | handlers that never overlap can leave the tables of every sequential run |
| BillingServer.KeyTextInjective | internal/web/license/license.go:14-22 | different random bytes give different license keys |
| BillingServer.KeyReadsBack | internal/web/license/license.go:14-22 | a key is AVTOOL- and four groups of capital hexadecimal digits from which its random bytes read back |
| BillingServer.Server.AcknowledgedIsDone | internal/web/billing/webhook.go:50-86 | an answer of 200 means that the whole event is carried out; a handler that got to its end answers 500 exactly for a known customer without a period or with a key that already exists |
| BillingServer.Server.constructor | internal/web/billing/webhook.go:35 | the tables start empty |
| BillingServer.Server.NewKey | internal/web/license/license.go:14-22 | the key is AVTOOL- and four groups of capital hexadecimal; short randomness is an error |
| BillingServer.Server.Generate | internal/web/license/license.go:13-32 | a key is returned exactly when its row was inserted, and nothing changes otherwise |
| BillingServer.Server.Validate | internal/web/license/license.go:34-55 | a key is valid for a user if and only if its row is that user's and is not revoked |
| BillingServer.Server.Revoke | internal/web/license/license.go:57-66 | revoking by key stamps that row alone, also if it was stamped before |
| BillingServer.Server.RevokeAllForUser | internal/web/license/license.go:73-79 | no live license of the user remains, and earlier revocations keep their time |
| BillingServer.Server.UpsertSubscription | internal/web/billing/webhook.go:90-137 | tables and error are those of the handler's statements up to the failing one; an unknown customer is its own error |
| BillingServer.Server.CancelSubscription | internal/web/billing/webhook.go:139-162 | the same for a deletion, which draws no key; an unknown subscription is no error |
| BillingServer.Server.HandleWebhook | internal/web/billing/webhook.go:50-86 | dispatch by event type; an unknown customer answers 200, a failure 500 |
| Quarantine.BodyInjective | internal/quarantine/quarantine.go:20-25 | body paths of different ids or hashes never collide |
| Quarantine.DecimalReadsBack | internal/quarantine/quarantine.go:20-25 | ids are printed in decimal without leading zeros |
| Quarantine.CrashSafety | internal/quarantine/quarantine.go:27-96 | after any operations cut off anywhere, every body belongs to an existing record with restored = 0, and a restored or purged id has no body |
| Quarantine.InvStep | internal/quarantine/quarantine.go:27-96 | every operation, however it ends, keeps the directory free of orphans |
| Quarantine.ContentPreserved | internal/quarantine/quarantine.go:44-76 | after a successful quarantine the content stays in its body through other operations, and a successful restore puts exactly it back |
| Quarantine.KeepsStep | internal/quarantine/quarantine.go:27-96 | no operation but its own completed restore or purge takes a body away or changes it |
| Quarantine.QuarantineNeverLoses | internal/quarantine/quarantine.go:27-53 | after any cut the file is at its path or whole in its body |
| Quarantine.RestoreNeverLoses | internal/quarantine/quarantine.go:55-77 | after any cut the content is in the body or whole at the original path |
| Quarantine.RestoreAfterAnyQuarantine | internal/quarantine/quarantine.go:55-143 | a restore after a quarantine that reached its move and any other operations succeeds exactly when something was moved and the restore runs to its end, and then gives the original content back if and only if the copy was not stopped short |
| Quarantine.PartialBodyOverwritesOriginal | internal/quarantine/quarantine.go:133-142 | a concrete failed copy whose restore truncates the intact original |
| Quarantine.QuarantineReports | internal/quarantine/quarantine.go:27-53 | an id is returned exactly when the record was inserted, the file moved, whether renamed or copied, and the last step worked; no other record or file changes |
| Quarantine.RestoreReports | internal/quarantine/quarantine.go:55-77 | a restore succeeds exactly when the record is there and not restored and its body moved; otherwise no record changes |
| Quarantine.PurgeReports | internal/quarantine/quarantine.go:79-96 | a purge succeeds exactly when the record was there and its row is deleted, and then no file has a body name of the id; no other record or file changes |
| Quarantine.PurgedForever | internal/quarantine/quarantine.go:79-96 | after a successful purge and any later operations the record is gone, has no body, and every restore and purge of its id is refused |
| Quarantine.RestoredOnce | internal/quarantine/quarantine.go:66-68 | after a successful restore and any later operations a second one is refused and changes nothing |
| Quarantine.Vault.constructor | internal/store/store.go:28-34 | the record table starts empty and ids start at 1 |
| Quarantine.Vault.Move | internal/quarantine/quarantine.go:123-143 | rename, or copy and then remove; success means the target has the node and the source is gone |
| Quarantine.Vault.QuarantineAt | internal/quarantine/quarantine.go:27-53 | record first, then move, then chmod; the id is returned only when all of it succeeded |
| Quarantine.Vault.RestoreAt | internal/quarantine/quarantine.go:55-77 | unknown or restored ids are refused; the row is marked only after the move |
| Quarantine.Vault.PurgeAt | internal/quarantine/quarantine.go:79-96 | the body goes before the row; a missing body is no error |
| HashDb.NormalizeFindsVariants | internal/hashdb/hashdb.go:10-15 | the normal form has no capitals and no space around it and is a spelling of the string, and it is the only such key |
| HashDb.SameKeyIffSameSpelling | internal/hashdb/hashdb.go:10-15 | two strings share a key exactly when they are the same text up to letter case and the space around them |
| HashDb.CaseDoesNotMatter | internal/hashdb/hashdb.go:10-15 | exchanging capitals and small letters anywhere leaves the key |
| HashDb.SpaceDoesNotMatter | internal/hashdb/hashdb.go:13-15 | so does putting space around the string |
| HashDb.NormalizeIdempotent | internal/hashdb/hashdb.go:13-15 | normalising twice is normalising once |
| HashDb.UpsertIsFinal | internal/hashdb/hashdb.go:24-47 | a batch succeeds exactly when no entry has a refused source; the entry after it is the last manual one before a refused entry, else an existing manual one, else the last feed one before a refused entry, else the existing one |
| HashDb.UpsertIdempotent | internal/hashdb/hashdb.go:24-47 | applying a batch twice is applying it once, also when it is refused on the way |
| HashDb.InterleavingIrrelevant | internal/hashdb/hashdb.go:24-47 | how feed and manual entries are interleaved in a batch without refused sources does not matter |
| HashDb.FailedUpsertAppliesPrefix | internal/hashdb/hashdb.go:41-45 | an insert refused by the source constraint leaves exactly the entries before it applied |
| HashDb.SyncsKeepManual | docs/superpowers/specs/2026-08-18-antivirus-tool-design.md:135-137 | no number of syncs, complete or cut short, overwrites or removes a manual entry |
| HashDb.RemovalLastsUntilNextBatch | internal/hashdb/hashdb.go:91-98 | a removed key comes back if and only if the next batch holds a spelling of it before any refused entry |
| HashDb.RemovalUndoneBySync | docs/superpowers/specs/2026-08-18-antivirus-tool-design.md:62-64 | a concrete sync that reintroduces a manually removed hash |
| HashDb.TableHoldsLiveKeys | internal/hashdb/hashdb.go:24-98 | after any run of upserts, complete, cut short or refused, and removals the table holds exactly the keys added and not removed since, all of them normalised |
| HashDb.UpsertKeys | internal/hashdb/hashdb.go:24-47 | a batch adds exactly the normalised hashes of its entries before a refused one |
| HashDb.LookupFinds | internal/hashdb/hashdb.go:49-66 | a lookup finds exactly the row whose key the hash is a spelling of |
| HashDb.HashTable.UpsertEntry | internal/hashdb/hashdb.go:26-44 | one entry: a feed entry never replaces a manual one, a bad source is refused |
| HashDb.HashTable.UpsertEntries | internal/hashdb/hashdb.go:24-47 | the loop applies the entries in order up to the first refusal or failure |
| HashDb.HashTable.RemoveHash | internal/hashdb/hashdb.go:91-98 | removes the normalised hash |
| Hex.EncodeInjective | internal/scanner/scanner.go:34 | different digests print differently |
| Hex.EncodeReadsBack | internal/scanner/scanner.go:34 | printed bytes read back, in small letters or, where asked for, capitals |
| Scanner.ScanMatchesExactly | internal/scanner/scanner.go:37-62 | after any run on the table, a file matches if and only if it is regular, of at most 500 MiB and readable, and some spelling of its hash is live; the match carries the table's row; scanning fails exactly for files that are missing or such files that cannot be read |
| Scanner.HashIsNormal | internal/scanner/scanner.go:34-54 | a printed digest is a key: its own normal form |
| Scanner.Scan | internal/scanner/scanner.go:64-86 | the walk collects the matches in order and goes on past files that fail |
| Scanner.MatchesAreExact | internal/scanner/scanner.go:64-86 | a match is reported if and only if its path was walked and scans to it |
| Scanner.MatchesInOrder | internal/scanner/scanner.go:64-86 | a walk of two parts reports the matches of the first and then those of the second |
| Scanner.MatchesOnce | internal/scanner/scanner.go:64-86 | each match is reported once |
| Review.ReviewTouchesOnlyMatches | cmd/avtool/review.go:51-87 | whatever fails, no file changes; one that is gone was at the path of a detection, had the queued hash and is in the database; what is new are bodies and records of detections, and no body is left without a record |
| Review.ReviewKeepsInv | cmd/avtool/review.go:51-87 | a review of detections outside the quarantine directory keeps the invariant of the store |
| Review.ContentIsHeldOrDeleted | cmd/avtool/review.go:51-87 | in every run, halted or not, every content is still in some file or was deleted at the path of a detection in its turn |
| Review.RemovedIsDeletedOrSaved | cmd/avtool/review.go:51-87 | a file that went away was deleted in the turn of a detection of it or is whole in the store under a new record of its path, when no detection names a body file that does not exist yet |
| Review.RemovedIsRecorded | cmd/avtool/review.go:83-86 | in a run that is not halted the row of a deleted file says so |
| Review.PendingAreFailures | cmd/avtool/review.go:51-87 | the detections left pending are exactly those whose prompt returned an error and those the loop did not get past because a queue update failed |
| Review.QueueAfter | internal/detections/detections.go:57-63 | each row ends with the outcome of its own turn if the loop went on after it, and no other row changes |
| Review.ActionsWithinAnswers | internal/prompt/prompt.go:39-65 | deletions never exceed the y/yes lines read as confirmations, which follow a d/delete line each; quarantine records never exceed the q/quarantine lines read as choices |
| Review.ActsAsAnswered | internal/prompt/prompt.go:39-65 | a detection is deleted exactly when it passed the recheck, its choice line says d, the next line says y and the removal works; it gets a record exactly when it passed, its choice line says q and the insert works |
| Review.RecheckExactly | cmd/avtool/review.go:56-67 | a detection is put to the user exactly when its file is readable, regular, of at most 500 MiB, still has the queued hash and the hash is known, from whatever source, and then with its path, hash and table row |
| Review.PromptReplies | internal/prompt/prompt.go:39-79 | the action, the report entry, the lines read and the files touched for every choice, a choice being a word in any letter case with space around it |
| Review.AnswersAreWords | internal/prompt/prompt.go:46-57 | answers are compared up to letter case and the space around them |
| Review.TurnLaw | cmd/avtool/review.go:51-87 | a turn skips as stale, and then reads nothing, exactly the detections that are not put to the user; it stops the loop exactly when the queue update fails; a report holds path, hash and name |
| Review.CompletedExactly | cmd/avtool/review.go:79-86 | the loop goes on after a turn exactly when no queue update failed up to then; a prompt error does not stop it |
| Review.SkippedExactly | cmd/avtool/review.go:56-72 | a detection that got its turn is recorded as skipped-stale exactly when its file is missing, not readable, not scannable, changed, or no longer known to be bad |
| Review.ExhaustedInputTouchesNothing | internal/prompt/prompt.go:39-45 | once input is exhausted no file, record or report changes |
| Review.RemovedPathIsSkipped | cmd/avtool/review.go:56-63 | after a path was removed, later detections of it are resolved as skipped-stale and read no input |
| Review.PromptGentle | internal/prompt/prompt.go:48-78 | one prompt affects at most its own file, which goes away only into the store or by a confirmed deletion; ignoring and reporting leave the store as it is, deleting removes that file and nothing else |
| Review.ReadLineSplits | internal/prompt/prompt.go:39-57 | a read takes a piece off the front of the input, up to the first newline or all of it, and reports EOF or the error exactly when there is no newline |
| Review.LinesMakeUpInput | internal/prompt/prompt.go:39-57 | the lines read one after the other make up the whole input, in order, and only the last can lack its newline |
| Review.ListedIsPending | internal/detections/detections.go:32-55 | the pending list is the set of unresolved rows, each once |
| Review.ListedInOrder | internal/detections/detections.go:32-55 | the pending list follows the given order |
| Review.Session.Enqueue | internal/detections/detections.go:21-30 | adds one unresolved row under a new id |
| Review.Session.ListPending | internal/detections/detections.go:32-55 | accumulates the unresolved rows in order |
| Review.Session.NextLine | internal/prompt/prompt.go:39 | line and remaining input make up the input before; a newline is only at the end of the line; EOF or an error is reported exactly when it is missing, and then nothing is left |
| Review.Session.ResolvePrompt | internal/prompt/prompt.go:35-79 | the choices, the confirmation and the error cases of one prompt |
| Review.Session.Resolve | internal/detections/detections.go:57-63 | marks one row with its resolution, or fails |
| Review.Session.RunReview | cmd/avtool/review.go:51-88 | the loop re-verifies, prompts and resolves every item in order and stops when a queue update fails |
| Notify.Escape | internal/notify/notify_darwin.go:14-34 | the loop computes the escaped text |
| Notify.EscapeRoundTrip | internal/notify/notify_darwin.go:14-34 | a literal reader stops exactly at the closing quote and returns the text without dropped control characters |
| Notify.EscapeInjective | internal/notify/notify_darwin.go:14-34 | texts are escaped alike if and only if they differ in dropped characters only |
| Notify.ScriptRoundTrip | internal/notify/notify_darwin.go:9-12 | the script reads back as exactly the title and message given |

## Left out

- HTTP routing, sessions, consent, templates, static pages, the Stripe SDK, signature checks and JSON parsing of events: no state of the models depends on them. A rejected or unparsable request is an event that is never delivered.
- Request paths other than the license and webhook functions that write the tables (checkout, signup): the customer mapping is fixed.
- MySQL's case-insensitive collation of subscription and customer ids, row ids and foreign keys.
- HashDb.NormalizeFindsVariants: lowercases ASCII letters only, where strings.ToLower knows all of Unicode; hashes are hexadecimal. Trimming uses Unicode's full list of space characters.
- HashDb.NormalizeIdempotent: the same.
- HashDb.SameKeyIffSameSpelling: the same, letter case being that of A to Z; so are HashDb.CaseDoesNotMatter and Review.AnswersAreWords.
- Notify.Escape: works on runes; how Go decodes invalid UTF-8 is not modelled.
- Times in quarantine records and report entries, timestamps stored as RFC 3339 text, and the ordering of lists by them; the pending list is proved correct for every order.
- The quarantine directory's path has no trailing slash, hashes contain no slash, and paths are compared as text: filepath.Join's cleaning, symbolic links on the way to a path and links followed while copying are not modelled. File permissions are not part of a file.
- Quarantine.Vault.Move: copying is one step with a chosen number of bytes written, not a loop over buffers; io.Copy is library code.
- Two avtool processes working on the same store at once; the queue and store theorems are about one process, with other programs changing files outside the quarantine directory.
- Review.RemovedIsDeletedOrSaved: not for detections that name, in advance, the body of a later record; a later turn can take such a body away again, and Review.ContentIsHeldOrDeleted is what holds then.
- RateLimit.Limiter.Append: the capacity of a grown array is twice the length plus one; Go's growth policy differs, and no contract depends on it. Middleware and ClientIP are not modelled.
- Which paths Watch manages to register before its loop starts, and the text it prints.
- LicenseHistory.Run: revocation by key (license.Revoke) is part of the interleavings in WebhookPool, not of sequential runs; no handler calls it.
- The CSV feed's fetching and parsing, command-line wiring, configuration, heartbeat output and the report log's file format.

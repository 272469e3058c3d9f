# Alerting service: a verified model

Events and clock ticks drive one state machine per alert: none, pending, firing, resolved. A manager
mirrors each transition into a store of cards and ticks and into notification channels. Several copies
of one fact exist side by side: the engine's state, the card, the tick that expires it, and the
references of messages and issues in other systems. This project models that service in Dafny 4.11
and proves that the copies agree over whole runs, and exactly where they part.

`dafny verify dfyconfig.toml` checks everything.

## How it is built

The project has three layers.

1. **One instance, imperatively.** `EngineModel` (Engine.dfy), `MemoryStoreModel` (MemoryStore.dfy),
   `Delivery.Dispatcher` (Delivery.dfy) and `ManagerModel` (Manager.dfy) are classes whose methods
   change their fields step by step. Each method is proved against a function on values: `EngineSpec` says what an
   event or a tick does to the state of one alert, `AlertFlow` says what every manager operation does
   to a *slice*, which is everything the service holds about one alert (engine state, card, tick, put-off
   refresh, delivery log), and `Service` says what an operation does to all slices at once. A method's
   postcondition gives the whole new state of all alerts, and therefore also that the other alerts are
   untouched.
2. **Runs.** The theorems are about those functions and hold for every run: `Lifecycle`, `SlidingWindow`,
   `Eviction`, `Recovery`, `Decisions` and `Continuity` for the engine; `EngineRuns`, `AlertRuns`, `Records`,
   `Expiry`, `Messages`, `Repeats`, `Deliveries` and `Requests` for one alert through the manager; `Arrivals`,
   `ServiceRuns` and `ServiceTicks` for the whole service;
   `Failures`, `Leftovers`, `Trackers`, `Batches`, `Restarts` and `OffHours` for what is left behind when
   something fails or is suppressed, and exactly when; `Threads` and `Replies` for which message a
   notification answers. `Witnesses` builds the runs that show the failing cases.
3. **Many instances.** `Protocol` is a step relation: any number of instances interleave the reads,
   compare-and-set writes, deletes and crashes of decision writes, expiries and reference writes on one
   card. `Cards` holds the card rewriting that both layers share. A process there runs one operation at a
   time; goroutines of one instance that run concurrently are several processes. `OneAtATime` says what
   needs a single one.

Beside them stand the small algorithms: `AlertKey`, `Wildcard`, `OffWindows` and `Retry`.

Times are integers in nanoseconds. An operation reads the clock once, an expiry once more for each of its
two looks at the tick, and the clock does not go back within a run. Rules are fixed; `ValidRule`, `ValidRoutes` and `ValidWindow` are what configuration
validation guarantees. Transport answers, the hash and the local calendar are parameters (`World`).

## What the proofs found

The model follows the code where its documentation says something else. Each property that the code
does not have in general is stated with the exact condition under which it holds.

- The pending delay is not restarted when the condition turns false (internal/engine/engine.go:284-311
  against README.md:267). `Continuity.DelayIsContinuousIff` says for which rules that cannot be seen at any
  event or tick, `Continuity.DelayIsContinuousInTimeIff` for which it cannot happen at any instant.
- `notify.on_pending` (README.md:268) has no effect, because the engine never asks for a notification
  on entering pending (internal/engine/engine.go:262-283): `OnPending.OnPendingHasNoEffect`.
- A heartbeat alert is not repeated while its heartbeat is missing, because the tick skips the report
  of firing ids (internal/engine/engine.go:201-208): `Recovery.ReportsAllFiringIff`.
- "Always one resolved notification" (README.md:281) fails both ways when operations run concurrently. There
  can be two: `Protocol.LateInstanceResolvesTwice`; what holds is `Protocol.GrantsAreSeparated`. There can be
  none: `OneAtATime.RemovalsGrantedIff`.
- Two concurrent operations are enough for a delete to remove an alert that fires:
  `OneAtATime.DeletesOnlyResolvedIff`.
- A resolve inside an off window leaves the active-only message for good: `OffHours.InStepIffNeverSilenced`.
- A resolve that cannot be announced leaves a card whose raise time the next episode inherits:
  `Leftovers.LeftoversAreInherited`.
- A silence timeout not longer than the window loses events that are still in the window:
  `SlidingWindow.ResetsUnseenIff`.
- A failing decision stops a tick after the engine has moved every alert of the rule; decisions that were
  not applied are never made again: `Failures.LostTransition`, `Failures.LostStaysLost`.
- A failed send loses the references of messages created on the routes before it:
  `Failures.FiringKeepsMatchIff`.
- A tracker route on a rule with a pending delay gets stuck when the alert resolves before it fires:
  `Trackers.NeverStuckIff`.
- An expiry after a restart drops the references kept in the card: `Restarts.RestartSafeIff`.
- Repeats move the Mattermost thread root (README.md:443): `Threads.ResolvedAnswersOpeningIff`.
- Rule names that need sanitizing are not found under their own prefix when the rule is removed, and a name
  with a slash finds another rule's alerts: `AlertKey.OwnPrefixIff`, `AlertKey.SlashNameListsOthers`.
- A heartbeat alert that resolves inside a batch gets its tick back: `Batches.BatchAgreesIff`.
- The card of a resolve counts no events when the engine resolves, because the engine resets its counters
  before the card is written (internal/engine/engine.go:325-336, internal/app/manager.go:432-435); an expiry
  keeps the count (internal/app/manager.go:250-263): `Failures.ResolvedCardCounts`.

## Model

| member | source | states |
|---|---|---|
| Protocol.WritesAreAtomic | internal/app/manager.go:234-284 | For any number of processes and any interleaving of reads, compare-and-set writes, deletes and crashes, with revisions never reused, every write is one its operation would make on the card stored just before it; deletes are not restricted |
| Protocol.CasSeesWhatWasRead | internal/state/nats_store.go:165-200 | With revisions never reused, a revision that still matches means the very card that was read is still stored |
| Protocol.GrantIffStateChanged | internal/app/manager.go:423-475 | Where every write is atomic in that sense, a write entitles its process to notify exactly when it created the card or changed the card's state |
| Protocol.GrantsAreSeparated | internal/app/manager.go:423-489 | Two notifications granted for one state are separated, in write order, by a delete or by a write of another state |
| Protocol.RepeatedResolveIsRecreation | internal/app/manager.go:436-459 | With no reopening in between, a later write that resolves again is granted a notification exactly when it follows a delete, and then it created the card again |
| Protocol.ExternalRefsGrow | internal/app/manager.go:977-1015 | Within one card lifetime the set of route keys with a stored reference only grows |
| Protocol.RefsReturnIsTrue | internal/app/manager.go:977-1015 | Storing references ends within three attempts; a nil return with the card present means the card held every update at one point of its history |
| Protocol.RefWritesAreIsolated | internal/app/manager.go:990-1008 | A reference write changes no other field of a live card, and no other write changes its references |
| Protocol.ReusedRevisionsGrantTwice | internal/state/memory_store.go:108-115 | When a recreated card restarts at revision 1, an update read before the delete still succeeds: a reachable history with two firing notifications in a row |
| OneAtATime.OneAtATimeIff | internal/app/manager.go:342-409 | Every history is one that a single process, running its operations one after another, could have left, exactly when at most one operation runs at a time; concurrent goroutines of one instance count as several processes |
| OneAtATime.OneByOneIff | internal/app/manager.go:394-475 | The histories of a single process are exactly those whose writes are atomic, whose deletes each follow a resolve at once, and whose revisions the store assigns |
| OneAtATime.AtomicWritesIff | internal/state/memory_store.go:108-140 | Over all runs every write is atomic exactly when revisions are never reused or at most one operation runs at a time |
| OneAtATime.DeletesOnlyResolvedIff | internal/app/manager.go:400-407 | Deletes are unguarded: over all runs no delete removes an open card exactly when at most one operation runs at a time, within one instance too |
| OneAtATime.RemovalsGrantedIff | internal/app/manager.go:394-405 | Over all runs every removed card had its resolved notification granted in its lifetime, exactly when at most one operation runs at a time |
| OneAtATime.RemovedUnannounced | internal/app/manager.go:459-489 | A resolve that loses its compare-and-set to a reference write is granted nothing and its process deletes the firing card all the same |
| OneAtATime.OpenCardDeleted | internal/app/manager.go:400-407 | A reachable history in which an alert fires again between another process's resolve and its delete, and the delete removes the firing card |
| Protocol.LateInstanceResolvesTwice | internal/app/manager.go:436-459 | Even without reuse there is a reachable history with two resolved notifications for one episode |
| EngineModel.DropStale | internal/engine/engine.go:566-583 | The loop that drops stale window points computes the pruned window and its running sum |
| EngineModel.RuntimeState.ApplyActiveCondition | internal/engine/engine.go:256-323 | The in-place none/pending/firing transition moves the whole state and decides as `ApplyActive` says |
| EngineModel.RuntimeState.ApplyHeartbeat | internal/engine/engine.go:105-142 | The in-place heartbeat branch: first heartbeat initializes, a heartbeat of an open alert starts or completes the recovery |
| EngineModel.RuntimeState.ApplyTick | internal/engine/engine.go:166-240 | The in-place tick of one state: transitions, recovery, silence timeout, and whether the alert is reported for repeats |
| EngineModel.RuntimeState.ResetAfterResolve | internal/engine/engine.go:325-336 | A resolve resets evaluation fields and keeps identity, silence timer and delivery marks |
| EngineModel.Engine.ProcessEvent | internal/engine/engine.go:84-146 | An event moves exactly one alert's state, to the value and decision of `EventStep`; every other state is unchanged |
| EngineModel.Engine.TickRuleWithFiring | internal/engine/engine.go:159-242 | A tick moves exactly the rule's own states, returns at most one decision per alert and all of them, and reports each firing id once, whatever the map order |
| EngineModel.Engine.CompactStates | internal/engine/engine.go:644-700 | Compaction never evicts an active state, evicts every stale one, leaves at most max(cap, active) states, beyond the stale ones removes only while the cap is exceeded and only least recently seen inactive states, and returns exactly the number removed |
| EngineModel.EvictionCompacts | internal/engine/engine.go:667-699 | Removing sorted candidates until the cap is met is a compaction in that sense |
| EngineModel.SortedByAge | internal/engine/engine.go:680-687 | Candidates are a permutation ordered by last-seen time |
| EngineModel.Engine.RemoveAlertState | internal/engine/engine.go:247-251 | Removes one alert's state and nothing else |
| Lifecycle.ReachableStates | internal/engine/engine.go:84-336 | Invariant of every run: stored state is never resolved, `PendingSince` is set exactly while pending, raise time exactly while open, the window sum is the window's sum, and a total-count alert is open exactly while its count reaches the threshold |
| Lifecycle.TransitionsFollowLifecycle | internal/engine/engine.go:256-336 | Over any run the state changes of one alert form a prefix of `(opening resolved)*`, opening being firing, or pending with or without firing, and lead to the state held |
| Lifecycle.WalksAreEpisodes | internal/engine/engine.go:256-323 | The transition table accepts exactly the prefixes of that pattern |
| Lifecycle.FiringAfterDelay | internal/engine/engine.go:284-311 | Firing out of pending comes at least the configured delay after the step that entered pending, with the raise condition true at both steps |
| Lifecycle.OpensOnCondition | internal/engine/engine.go:84-104 | Every opening happens at a step whose raise condition is true |
| Decisions.ChangesFollowHistory | internal/engine/engine.go:84-323 | Over any run every state change of one alert is exactly what its history says: pending and firing exactly when the events since the last reset, those in the window, or the age of the last heartbeat meet the rule, and firing out of pending exactly once the whole delay has passed; a count alert resolves exactly at a tick after its silence timeout, a heartbeat alert exactly when it has recovered |
| Decisions.CountersAreExact | internal/engine/engine.go:92-104 | Over any run the counters of an alert are the sums of the events since it last closed or was evicted |
| OnPending.OnPendingHasNoEffect | internal/app/manager.go:546-555 | Whatever `notify.on_pending` says in the rule and in the service, every run leaves the same engine state, card, tick and deliveries, step by step |
| Continuity.DelayIsContinuousIff | internal/engine/engine.go:284-311 | The condition, evaluated at every event and every tick through the pending delay, is true over every run exactly for total-count rules, for window rules with threshold 1 whose silence timeout is not longer than the window, and for heartbeat rules without hysteresis; for all others a run is given in which it dips and the delay is not restarted |
| Continuity.DelayIsContinuousInTimeIff | internal/engine/engine.go:284-311 | At every instant of the delay, between the steps too, the condition is true over every run exactly for total-count rules and for heartbeat rules without hysteresis |
| SlidingWindow.WindowIsExact | internal/engine/engine.go:98-104 | The incremental window is exactly the events since the last reset that are not older than the width, over every run |
| SlidingWindow.RaiseTestIsNaive | internal/engine/engine.go:98-104 | The raise test of an event equals the naive sum over that history reaching the threshold, and the running sum equals that sum |
| SlidingWindow.PruneFilters | internal/engine/engine.go:566-583 | On points in time order dropping the stale prefix is filtering by the cutoff |
| SlidingWindow.ResetsInvisible | internal/engine/engine.go:171-188 | With a silence timeout longer than the window, resets and idle evictions cannot be seen in the window |
| SlidingWindow.ResetsUnseenIff | internal/engine/engine.go:171-188 | The window equals the naive one over the whole run, for every run, exactly when `silence_sec + hysteresis_sec > window_sec` |
| Eviction.EvictionUnseen | internal/engine/engine.go:644-663 | For such rules a run with arbitrary idle evictions makes the same decisions as the run without them |
| Eviction.EvictionInvisibleIff | internal/engine/engine.go:644-663 | Idle eviction is invisible over all runs exactly for count rules with threshold 1 and for window rules whose window is shorter than the idle threshold |
| Recovery.ResolvesAfterStableRecovery | internal/engine/engine.go:105-142 | With hysteresis H a heartbeat alert resolves at t only if a real heartbeat received while it was open came at or before t - H and no tick since saw a gap; a tick that sees a gap restarts the recovery |
| Recovery.ResolvesAtFirstHeartbeat | internal/engine/engine.go:113-142 | Without hysteresis the resolving steps are exactly the heartbeats of an open alert |
| Recovery.ResolvesIffRecovered | internal/engine/engine.go:113-231 | With hysteresis the resolving steps are exactly the heartbeats, and the ticks that see no gap, at which the first heartbeat of the current recovery is at least the hysteresis old; it is the earliest one received while the alert was open after the last tick that saw a gap |
| Recovery.ReportsAllFiringIff | internal/engine/engine.go:189-234 | A tick reports every firing alert for repeats exactly for count rules; a heartbeat alert whose heartbeat is missing fires unreported |
| Recovery.TickProtectsIff | internal/app/manager.go:200-208 | Compaction right after a tick keeps every heartbeat state, over every run, exactly when the idle threshold is at least `missing_sec` |
| AlertKey.Sanitize | internal/engine/key_builder.go:78-104 | A path segment is the trimmed text with each character kept, lower-cased or replaced by an underscore, and a single underscore when nothing is left |
| AlertKey.BuildAlertKey | internal/engine/key_builder.go:18-67 | The builder loops compute the alert id, or none for a nameless rule or a missing key tag |
| AlertKey.SortedKeyTags | internal/engine/key_builder.go:69-79 | The key tags come out as the sorted arrangement of the rule's tags, whether or not they were in order |
| AlertKey.KeyIgnoresTagOrder | internal/engine/key_builder.go:18-79 | The alert id does not depend on the order of `from_tags` |
| AlertKey.CanonicalInjective | internal/engine/key_builder.go:40-58 | The canonical text of newline-free tag values determines them, whatever the tag names are |
| AlertKey.SameAlertIff | internal/engine/key_builder.go:18-67 | With a collision-free hash and newline-free values, two events of a rule share an id exactly when sanitized variable and all key tag values agree |
| AlertKey.CollidesIff | internal/engine/key_builder.go:40-58 | With newlines allowed, and some key tag listed once, two different alerts of a rule can share an id exactly when the rule lists another tag besides |
| AlertKey.OneTagDetermines | internal/engine/key_builder.go:40-58 | One key tag, however often it is listed, is determined by the canonical text even with newlines |
| AlertKey.PrefixIff | internal/state/store.go:37-39 | An id starts with a slash-free rule prefix exactly when the sanitized rule name equals the lower-cased, trimmed name |
| AlertKey.OwnPrefixIff | internal/state/store.go:37-39 | A rule's alerts are listed under its own prefix exactly when every character of its trimmed name survives sanitizing |
| AlertKey.PrefixSeparatesRules | internal/state/store.go:37-39 | For names of allowed characters a prefix selects the alerts of exactly the rules with that name up to case |
| AlertKey.SlashNameListsOthers | internal/state/store.go:37-39 | A rule named x/y selects exactly the alerts whose rule segment is lower-cased x and whose variable segment is lower-cased y, whoever owns them |
| AlertKey.DeepNameListsNothing | internal/state/store.go:37-39 | A rule name with more slashes selects no alert when digests hold no slash |
| Wildcard.MaskMeansGlob | internal/config/config.go:2052-2070 | For backslash-free masks the three textual passes compile to a regular expression that matches exactly the glob relation, ignoring case, on newline-free subjects |
| Wildcard.PassesSubstitute | internal/config/config.go:2052-2070 | The three passes are one character-wise substitution of the escaped text |
| Wildcard.SubjectFaithfulIff | internal/engine/matcher.go:104-113 | On a given subject every mask means its glob exactly when the subject has no newline |
| Wildcard.FaithfulIffBackslashFree | internal/config/config.go:2052-2070 | A mask whose backslashes stand before wildcards, backslashes or plain punctuation means its glob on every newline-free subject exactly when it has no backslash, or holds a newline and so matches nothing |
| OffWindows.ContainsIffCovers | internal/config/config.go:1883-1916 | The weekday and minute test of a valid window holds exactly when some listed day's window, overnight ones included, covers the minute on the line of local minutes |
| OffWindows.NotifyOffActiveAt | internal/config/config.go:1768-1794 | The search loop finds a covering window exactly when there is one |
| Retry.SendWithRetry | internal/notify/notify.go:173-225 | The loop ends after at most `max_attempts` sends, sends nothing after a success, a permanent error or a cancellation, and waits the initial delay each time or, when exponential, the doubled delay capped by the maximum |
| Retry.BackoffIsCappedIff | internal/notify/notify.go:217-222 | Every wait is min(initial * 2^i, max) exactly when initial <= max |
| Retry.TotalWaitIsBounded | internal/notify/notify.go:197-222 | With a limit, the waits add up to at most one maximum per retry |
| MemoryStoreModel.MemoryStore.RefreshTick | internal/state/memory_store.go:48-57 | Sets one tick to expire at last-seen plus TTL, or never |
| MemoryStoreModel.MemoryStore.HasTick | internal/state/memory_store.go:62-90 | Two looks with their own clock readings: present if either finds the tick alive, deleted only if neither does |
| MemoryStoreModel.MemoryStore.CreateCard | internal/state/memory_store.go:108-115 | Creates at revision 1 only when the card is absent |
| MemoryStoreModel.MemoryStore.PutCard | internal/state/memory_store.go:120-124 | Writes unconditionally one revision further |
| MemoryStoreModel.MemoryStore.UpdateCard | internal/state/memory_store.go:129-140 | Writes only over the expected revision; a missing card and a conflict change nothing |
| MemoryStoreModel.MemoryStore.DeleteCard | internal/state/memory_store.go:145-151 | Removes the card and its tick |
| MemoryStoreModel.MemoryStore.ListAlertIDsByRule | internal/state/memory_store.go:156-167 | Lists exactly the stored ids under the rule's prefix, each once |
| Delivery.Dispatcher.Send | internal/notify/notify.go:149-168 | One attempt on one route: what the channel is asked to do by state and stored reference, and what is recorded |
| Cards.MergedRefs | internal/app/manager.go:994-1002 | Merging keeps every stored key, holds every update afterwards, and changes nothing exactly when all updates were held |
| ManagerModel.Manager.NotifyRoutes | internal/app/manager.go:595-616 | Routes are sent in order up to the first failure, which loses the results of the earlier ones |
| ManagerModel.Manager.CaptureDeliveryEffects | internal/app/manager.go:925-956 | After a delivery the engine holds opening messages, references and delivery times of that alert only |
| ManagerModel.Manager.PersistExternalRefs | internal/app/manager.go:977-1015 | With one writer the first attempt stores the merged references in one card and changes nothing else |
| ManagerModel.Manager.DispatchNotification | internal/app/manager.go:676-689 | One notification delivered directly moves one alert exactly as `Dispatched` says: off windows, sends, marks, stored references |
| ManagerModel.Manager.PersistDecisionCard | internal/app/manager.go:432-475 | With one writer the card of a transition is created or rewritten, and notifying is allowed exactly when the state is new to the card |
| ManagerModel.Manager.ApplyDecision | internal/app/manager.go:342-409 | One decision moves the tick, card, marks, log and engine state of one alert as `Applied` says, and no other alert |
| ManagerModel.Manager.ProcessEvent | internal/app/manager.go:97-128 | One event runs under the rules in order, dropping what is out of order or not accepted, up to the first failure |
| ManagerModel.Manager.Push | internal/app/manager.go:69-71 | One event on its own is one step of the service |
| ManagerModel.Manager.FlushTickRefresh | internal/app/manager.go:411-418 | Writes one tick refresh per distinct alert id of the batch |
| ManagerModel.Manager.PushBatch | internal/app/manager.go:76-88 | A batch that succeeds is one step of the service; one that fails loses its put-off tick refreshes |
| ManagerModel.Manager.RepeatAlert | internal/app/manager.go:149-198 | The repeat loop of one alert, with one key or one key per route |
| ManagerModel.Manager.TickRule | internal/app/manager.go:142-199 | All decisions of a rule, then the repeats of what fires, in any order of alerts; a failure stops it at one alert with the rest undone |
| ManagerModel.Manager.Tick | internal/app/manager.go:133-211 | A tick that succeeds is one step of the service; one that fails stopped in some rule at some alert |
| ManagerModel.Manager.ResolveByTTL | internal/app/manager.go:234-284 | An expired tick, found by two looks, resolves, announces and removes one alert from its card, with its own clock reading; an unknown rule leaves the resolved card behind |
| AlertRuns.CapturedRefs | internal/app/manager.go:925-956 | The references the engine captures are the old ones overwritten by exactly the updates sent to the card |
| AlertRuns.DispatchedKeeps | internal/app/manager.go:899-956 | A notification, failed or not, changes nothing but log, marks and references, and keeps engine and card references equal |
| AlertRuns.PersistedMirrors | internal/app/manager.go:423-475 | The card written for an opening or a pending-to-firing change tells what the engine holds, and its notification is allowed |
| AlertRuns.DidSyncs | internal/app/manager.go:342-409 | Every operation on an alert keeps engine state, card and tick in step, unless it failed while announcing a resolve |
| AlertRuns.RunsStaySynced | internal/app/manager.go:342-475 | After any run of one alert without such a failure: a card exists exactly while the engine holds it as pending or firing; state, raise time, pending time and references agree; a tick exists exactly beside the card |
| Expiry.ClocksAgreeIff | internal/app/manager.go:354-365 | For a count rule the stored tick is gone exactly when an engine tick would resolve, at every instant of every run, exactly when the timeout is positive and every event of an open alert meets the threshold (total counts, or window counts with threshold 1) |
| Expiry.ClocksAgreeAt | internal/config/config.go:703-712 | For such rules the tick of an open alert expires at last-seen plus timeout |
| Expiry.WindowTickNeverLate | internal/config/config.go:703-712 | The tick of an open window-count alert is gone whenever the engine's timer has run out |
| Messages.MessagesFollowAlerts | internal/app/manager.go:831-865 | With working transports, notifications never off and no tracker behind a pending delay: over any run every active-only message and tracker issue is live exactly while its alert fires, under the reference that engine and card hold, and was never created twice, edited or removed out of turn |
| Messages.FailsIffBlocked | internal/notify/notify.go:893-923 | With working transports a notification fails exactly when a tracker is asked to resolve an issue it never opened |
| Messages.DidMessages | internal/notify/notify.go:438-490 | Each operation on an alert succeeds and keeps that correspondence |
| Repeats.RepeatsAreSpaced | internal/app/manager.go:149-198 | Over any run with successful sends, a repeat on a key comes at least `repeat_every` after every earlier delivery of the episode on that key, also in the tick that fired |
| Repeats.RunRemembers | internal/app/manager.go:949-953 | Every delivery of the current episode is remembered under its repeat key by a time not earlier than its own |
| Deliveries.DeliversExactly | internal/app/manager.go:149-198 | Over any run with working transports and notifications on, the log grows at each operation by exactly one delivery per route that it should: all routes at an opening and at the close of a firing alert, those that need no message at the close of a pending one, and, at a tick that reports a firing alert, exactly when repeats are switched on, exactly the routes on which no delivery of the episode is younger than the interval; otherwise nothing |
| Deliveries.AnnouncedUnlessOnCard | internal/app/manager.go:459-475 | From any state, also one that a restart left, an alert that starts firing is announced on every route exactly unless its card was firing already |
| Deliveries.SilentWhenOff | internal/app/manager.go:669-689 | No operation delivers anything at a minute when notifications are off |
| Deliveries.FailingRoutesStopNone | internal/app/manager.go:183-197 | With a key per channel a reporting tick asks exactly the routes that are due, whatever the transports answer |
| Requests.EntriesAreRequests | internal/notify/notify.go:544-562 | Over any run, whatever the transports answer, each delivery is what its route's channel asks for: every history route that is no tracker has posted the transport's answer to that very delivery, over HTTP without a message to answer, and only trackers are ever left unasked |
| Service.DistinctNamesOwn | internal/engine/key_builder.go:18-67 | Rules whose names differ after sanitizing never make the same alert id |
| Service.CountEventsNeverResolve | internal/engine/engine.go:92-104 | An event of a count rule never resolves its alert |
| Service.BatchEqualsSequence | internal/app/manager.go:76-88 | For count rules, heartbeat rules without hysteresis and a clock that never goes back a batch leaves the same engine, cards, ticks and deliveries as its events one at a time, and fails on the same event |
| Arrivals.PushReachesItsAlerts | internal/app/manager.go:97-128 | A complete push moves, under every rule, exactly the alert of the event's key, whose silence timer restarts or which closes, and no alert at all when the event is later than a positive `max_late_ms`, further ahead than a positive `max_future_skew_ms`, not accepted or without a key |
| Arrivals.IgnoredEventsReachNothing | internal/app/manager.go:105-115 | An event that a rule ignores leaves the rule's alerts alone also when it fails under another rule |
| Arrivals.BatchIsPushes | internal/app/manager.go:76-88 | For such rules a complete batch is a sequence of complete pushes of its events, in order |
| Batches.BatchAgreesIff | internal/app/manager.go:411-418 | Whatever the transports answer, after any run of an alert a batch is the same as its events one at a time exactly for count rules and for heartbeat rules without hysteresis |
| Batches.BatchLeavesTick | internal/app/manager.go:354-365 | Every heartbeat rule with hysteresis has a run and a batch of two heartbeats after which a tick is left without a card |
| ServiceRuns.EventAlike | internal/app/manager.go:354-365 | Ticks and put-off refreshes never influence engine, card, deliveries or success, so batches of any rules agree in these with single events |
| ServiceRuns.TickSliceKeepsCard | internal/app/manager.go:142-147 | A tick of all rules is, for one alert, a tick of its own rule |
| ServiceRuns.CardsMirrorEngine | internal/app/manager.go:69-284 | After any run of complete pushes, batches, ticks and expiries over all rules and alerts, a card exists exactly for the alerts the engine holds as pending or firing, and tells the same |
| ServiceRuns.TickMeetsCap | internal/app/manager.go:200-204 | With a cap, each complete tick of a run leaves at most that many engine states, or only those of pending and firing alerts |
| EngineRuns.RunsFollowEngine | internal/app/manager.go:97-147 | Over any run through the manager the engine state of an alert is that of the engine alone under the events, ticks and evictions since it last held nothing, so the theorems on engine runs hold inside the service |
| Records.CardsRecordChanges | internal/app/manager.go:423-475 | Over any run a card is written exactly when its alert changes state, apart from references, with the time, count and value that the engine then holds, and with the cause when it closed |
| Records.HeartbeatTicksFollow | internal/app/manager.go:354-365 | Over any run the tick of an open heartbeat alert runs out `missing_sec + hysteresis_sec` after the last event or tick of its rule |
| Records.ExpiryActsIff | internal/app/manager.go:234-284 | An expiry closes and removes an open alert exactly when its tick had run out at the first look, and does nothing otherwise |
| Records.OrphansAreClosedSilently | internal/app/manager.go:250-272 | An open alert whose rule is gone is resolved on its card alone, which stays, tells the cause and keeps everything else; nothing is sent |
| ServiceTicks.TicksFollowEngine | internal/app/manager.go:69-284 | If batches serve no heartbeat rule with hysteresis, the ticks agree as well, for every alert of the service |
| Failures.LostTransition | internal/app/manager.go:142-147 | When a tick stops at a failing decision, the copies of an alert agree exactly unless its decision was applied and its resolve could not be announced, or was not applied and changed the state |
| Failures.SticksIff | internal/app/manager.go:382-407 | A tick leaves a resolved card behind exactly when it resolves the alert while notifications are on and some route refuses, a condition on the state before the tick |
| Leftovers.LeftoversAreInherited | internal/app/manager.go:459-475 | Over any run the card of a resolve that failed stays resolved until the alert opens again, and the next episode's card still tells the raise time and holds the references of the last |
| OffHours.InStepIffNeverSilenced | internal/app/manager.go:669-689 | For rules without trackers and with working transports, over any run every active-only message stays live under exactly the reference the engine holds, exactly when no firing alert with a live message is closed inside an off window |
| Failures.LostStaysLost | internal/app/manager.go:342-365 | An alert that fires without a card never gets one before it resolves |
| Failures.FiringKeepsMatchIff | internal/app/manager.go:595-616 | After a firing notification over any routes, every owned message is live under exactly the reference the engine holds, unless notifications were on and a route that owns a message without a reference comes before the first route that fails |
| Failures.FiringFailsIff | internal/notify/notify.go:893-917 | A firing notification fails exactly when some transport does, not counting trackers that already have an issue |
| Trackers.NeverStuckIff | internal/notify/notify.go:909-917 | With working transports, no run leaves a resolved card behind exactly when the rule has no tracker behind a pending delay; for every other rule a run that does is given, through a tick or an event |
| Restarts.AccountedIffNeverBlind | internal/app/manager.go:961-1015 | Over any run with restarts anywhere, every owned message stays live under exactly the reference of its card, exactly when no expiry resolves an alert with a live message that the engine has forgotten |
| Restarts.ExpiryRemovesIff | internal/app/manager.go:234-284 | An expiry removes the owned messages of an alert exactly when the engine knows the alert, or when there were none |
| Restarts.RestartSafeIff | internal/app/manager.go:269-283 | A rule is safe from restarts over every run exactly when it owns no message or its tick never expires; for every other rule a run is given that restarts while the alert fires and loses the message when the tick runs out |
| Threads.ResolvedAnswersOpeningIff | internal/notify/notify.go:606-632 | Over any run the notification that resolves a firing alert is one Mattermost post that answers the latest post of the episode, and that is the opening post exactly when no repeat was posted |
| Threads.FiringPosts | internal/notify/notify.go:606-632 | A firing notification over any routes posts once on each Mattermost history route, as an answer to the stored post, and stores the new one instead |
| Replies.ResolvedAnswersFirst | internal/app/manager.go:857-862 | Over any run the notification that resolves a firing alert is one Telegram post that answers the first post of the episode, however many repeats came between |

## Left out

- Protocol.WritesAreAtomic: assumes revisions that are never reused, as the NATS key-value store gives; the in-memory store restarts at 1, and `OneAtATime.AtomicWritesIff` says exactly when the claim holds for it.
- Protocol.RefsReturnIsTrue: an update of a missing card counts as a conflict, as in the NATS store; the in-memory store's separate not-found answer is modelled in `MemoryStore.UpdateCard` only.
- MemoryStoreModel.MemoryStore.HasTick: the two looks are one atomic call, so a refresh that another goroutine makes between them is not modelled.
- ManagerModel.Manager.PersistExternalRefs: cards are values, so the source's mutation of the map that the in-memory store returned is not modelled.
- ManagerModel.Manager.DispatchNotification: delivers directly; the notification queue, its worker and its dead-letter stream are not modelled.
- ManagerModel.Manager.PersistDecisionCard: has one writer, so the conflict and reload branches cannot be reached; `Protocol` models them for many.
- ServiceTicks.TicksFollowEngine: excludes batches that serve heartbeat rules with hysteresis, for which `Batches.BatchLeavesTick` shows the claim false; `ServiceRuns.CardsMirrorEngine` covers them for engine and cards.
- Messages.MessagesFollowAlerts: assumes working transports, notifications never off and no tracker behind a pending delay; `Failures.FiringKeepsMatchIff`, `OffHours.InStepIffNeverSilenced` and `Trackers.NeverStuckIff` say what happens without each.
- Deliveries.DeliversExactly: assumes the same; `Deliveries.SilentWhenOff`, `Deliveries.FailingRoutesStopNone` and `Failures.FiringFailsIff` say what happens without.
- OffHours.InStepIffNeverSilenced: excludes trackers, whose resolve fails instead when the issue was never opened (`Messages.FailsIffBlocked`).
- AlertKey.SameAlertIff: takes SHA-1 in hexadecimal as a collision-free function; its internals are not modelled.
- AlertKey.Sanitized: trims and lower-cases ASCII and the two Latin-1 spaces only; Unicode folding is not modelled.
- AlertKey.CollidesIff: is stated for rules that list some key tag once; of rules that list every tag at least twice it is only proved that a single tag never collides (`AlertKey.OneTagDetermines`).
- Wildcard.MaskMeansGlob: covers the regular expressions that masks compile to, with ASCII case folding, not general expressions of the `match` operator.
- Wildcard.FaithfulIffBackslashFree: does not cover backslashes before letters, digits or characters with a meaning of their own, nor at the end of a mask, because those escapes of regular expressions are not modelled.
- OffWindows.NotifyOffActiveAt: takes windows already parsed and a local minute count without daylight-saving jumps.
- Retry.SendWithRetry: wall-clock timers are replaced by the sequence of waits; a retry policy without a limit is observed up to a horizon.
- Rule.accepts: predicates other than wildcard masks (ranges, lists, equality, floating-point values) are an opaque condition on the event.
- Machine integers: counters, sums and durations are unbounded; an overflow of 64 bits is not modelled.
- References with surrounding white space and message ids that do not parse.
- Message texts, templates, durations in notifications, logging and metrics.
- HTTP, Telegram, Mattermost and tracker requests: only the decision what to ask of the transport is modelled.
- NATS buckets, per-message TTL markers and JSON codecs.
- Locks and goroutines inside one instance: its operations are atomic and happen one after another.
- Configuration decoding, defaults and merging, and reloads, with the cleanup of removed rules that notifies without a card write.
- The user interface, the registry and the dashboards.

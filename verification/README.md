# A verified model of certminder's alerting

certminder inspects TLS certificates once per cycle and turns what it finds into alerts. This
project models the parts whose correctness is hard to see by reading them, and proves what they
promise, for every input and every run:

- **The alert evaluator.** `Evaluate` follows `evaluate` and `_unreachable_result` loop by loop and
  is proved equal to a transition stated on sets of problem keys (`Evaluator.Emitted`,
  `Evaluator.NextState`). Folded over a whole history, that transition equals a stateless
  description in terms of streaks of consecutive sightings and past alerts (`History`): the complete
  state and the complete, ordered event list. From there: the state invariant, renotify timing,
  stabilisation, the chain of certificate rotations, and exactly which recoveries an alert preceded.
- **The inspection cycle.** `RunOnce` loads, checks, evaluates, delivers, rolls back, prunes and
  saves. On whole runs of cycles: what each cycle does to each target, at-least-once delivery,
  replay of the delivered events, retention, independence of the checking order, and the round trip
  of the state file. `Daemon` closes the gap to the evaluator: over any run, digests, failing sinks,
  changing rules and forgotten targets included, what is stored and what was delivered about a target
  are the state and the events of its *committed* sightings, those whose cycle was delivered or that
  had nothing to report. Between two digests that is a plain history, so the theorems about histories
  hold of the store and the log. `Protocol` cuts the cycle into small steps with sinks that
  fail one by one, cycles that raise and crashes between any two steps, and proves that each alert
  the file on disk claims is stamped with the time of a cycle that delivered it. `Loop` proves that
  the methods `RunOnce` and `RunLoop` only ever take such steps and that the store they leave is the
  one the theorems about runs speak of; `Honesty` gives the exact lists of targets for which the claim
  holds.
- **The sinks.** Filters, their stacking, the building of a notifier from its options, and the
  delivery of one batch to all sinks.
- **Text and arithmetic kernels.** `${VAR}` interpolation, Prometheus labels, the Slack escape, the
  hostname expression, and the subprocess time budget.

A check by certinspect is an arbitrary result; a sink answers each batch with anything, an exception
included. Time is a real number, and theorems about timing assume that the clock does not run
backwards. An `Observation` is what one check result shows, target by target (`Evaluator.Observe`,
whose meaning is `Evaluator.ObserveProper`); the transition and the theorems about runs are stated on
observations, so they hold for every history of check results. `Verdicts` says what one evaluation
answers in terms of the fields of the result and of the previous state alone.

Two conditions that the code relies on, and does not check, appear in the theorems. No two targets
of a cycle may share a name: discovered hosts are deduplicated, statically configured ones are not
(`src/certminder/scheduler.py:130-136`), and with a shared name a rollback restores an intermediate
state. And no target may list `unreachable` in `expect`. `Honesty.NeverOverclaimsExactly` proves that
these two conditions are exactly what the safety of the stored state needs.

Where the documentation of certminder and its code disagree, the model follows the code and the exact
extent is proved in `Expectations` (line numbers of `README.md` are those of certminder's own):

- `README.md:322-323` says that an expected problem is not tracked. It is tracked if and only if it is
  `unreachable` and the target is down (`ExpectedIsTracked`).
- That a recovery tells of a problem that was alerted holds of every recovery except that of an
  expected `unreachable`, and of that one never (`RecoveryFollowsAlert`, with the run
  `ExpectedUnreachableRecovers`).
- `README.md:326` says that a kind taken off `expect` alerts again on the next cycle. For every kind but
  `unreachable` it does if and only if one sighting confirms a problem; an outage that was confirmed
  while it was expected is alerted only when its renotify interval is over (`NoLongerExpected`), and
  without renotify not at all (`OutageStaysSilent`).
- To put a kind on `expect` while its problem lasts makes the next cycle that reaches the target announce
  the problem as cleared (`ClearedExactly`).
- `README.md:294` says that a rotation is reported when the fingerprint differs from that of the last cycle.
  A digest, which by default every start of the daemon begins with, compares with nothing and reports no
  rotation (`RotationLog.CycleRotations`); between digests the delivered rotations form one chain.

`src/certminder/atomic.py` forces the file but not its directory to disk, so a power loss may bring back
the file of an earlier cycle. `Atomic.CrashIsAtomic` and `Protocol.PersistedNeverOverclaims` allow for it.

`dafny verify dfyconfig.toml` checks the project.

## Model

| member | source | states |
|---|---|---|
| Models.AlertKindOfAlertKey | src/certminder/models.py:182-193 | the kind of a key is recovered whatever the target is called, '\|' in its name included |
| Models.AlertKeyInjective | src/certminder/models.py:177-184 | two events share a deduplication key only when target and kind agree |
| Models.DocumentedKinds | src/certminder/models.py:57-76 | each kind has its documented name |
| Evaluator.DetectProblemsDistinct | src/certminder/evaluator.py:173-192 | one certificate's faults are reported in detector order, at most one per dimension, and never as unreachable, rotation or recovery |
| Evaluator.DetectionTable | src/certminder/evaluator.py:28-167 | a kind of problem is reported exactly when its documented trigger is present, with its documented severity and details |
| Evaluator.ObserveProper | src/certminder/evaluator.py:367-370 | every detected problem that is not expected is indexed under its own key, nothing else is, and none is lost |
| Evaluator.UnreachableResult | src/certminder/evaluator.py:281-317 | events and new state of an unreachable target are those of the common transition |
| Evaluator.UnreachableSpec | src/certminder/evaluator.py:289-317 | an unreachable cycle drops every other problem silently, and alerts only when confirmed, unexpected and due |
| Evaluator.Evaluate | src/certminder/evaluator.py:320-405 | the two loops compute exactly the transition stated on sets: events in order and the whole new state; a replaced fingerprint of a reached target is announced first, and the status and fingerprint kept are those of the result |
| Verdicts.StoredExactly | src/certminder/evaluator.py:226-317 | on the fields of the result: a problem that is shown and not expected is stored as active iff it was, or its count with this cycle reaches the threshold, and otherwise as pending with that count; an outage counts even when expected |
| Verdicts.NothingElseStored | src/certminder/evaluator.py:372-405 | every key stored after an evaluation is that of a kind of problem of this target |
| Verdicts.StampsExactly | src/certminder/evaluator.py:274-278 | a stored alert is stamped now if it is told now, and keeps its stamp otherwise |
| Verdicts.EventsExactly | src/certminder/evaluator.py:281-405 | on the fields of the result: an event is reported iff it is the documented event of a problem to be told, the rotation from the stored fingerprint to a different one, or the recovery of a stored alert that is gone |
| Verdicts.EventsInOrder | src/certminder/evaluator.py:350-397 | the one rotation comes first, then the alerts in the order of their keys, then the recoveries in the order of theirs, nothing twice |
| Evaluator.ConfirmAll | src/certminder/evaluator.py:375-382 | the first loop splits the observed problems into active ones and pending ones with their incremented counts |
| Evaluator.Announce | src/certminder/evaluator.py:388-395 | the second loop emits the new or due problems in key order and stamps exactly those |
| History.HistoryRefinement | src/certminder/evaluator.py:226-405 | after any history the stored state equals the one described by streaks, past alerts and the last fingerprint seen, and the last cycle reports exactly the described events in order |
| History.ConfirmRefinement | src/certminder/evaluator.py:226-238 | a problem is active iff its streak has reached the threshold, and pending with its streak iff it is observed and has not |
| History.AlertRefinement | src/certminder/evaluator.py:263-272 | a problem is alerted iff it is confirmed and either some problem is promoted in this very cycle or the interval since its last alert is over |
| History.ClearRefinement | src/certminder/evaluator.py:397 | a recovery is announced iff the target is reached, the problem was confirmed and its streak is now 0 |
| Expectations.ExpectedIsTracked | README.md:322-323 | an expected kind is stored, as active or pending, iff it is unreachable and the target is down |
| Expectations.ClearedExactly | src/certminder/evaluator.py:397 | an active problem is announced as cleared iff the target is reached and the problem is gone or has become expected |
| Expectations.RecoveryFollowsAlert | src/certminder/evaluator.py:397 | in any history of a target, a problem announced as cleared was alerted during the streak that just ended iff it is not an outage the target expects |
| Expectations.ExpectedUnreachableRecovers | src/certminder/evaluator.py:299-317 | a target that expects to be unreachable is stored as active without any event, and its return announces a recovery no alert preceded |
| Expectations.NoLongerExpected | README.md:326 | a kind expected one cycle and not the next alerts at once iff one sighting confirms it; an outage iff it is confirmed only now or its interval is over |
| Expectations.OutageStaysSilent | src/certminder/evaluator.py:299-311 | without renotify, an outage that is already stored as active is not alerted for as long as it lasts, whatever `expect` says |
| Reports.EmittedMembers | src/certminder/evaluator.py:350-397 | the report of a cycle holds the alerted problems, the recoveries and the rotation, all about its target, and nothing else |
| Reports.AlertReported | src/certminder/evaluator.py:388-393 | an alert event for a key is reported iff the key is alerted |
| Reports.RecoveryReported | src/certminder/evaluator.py:211-223 | the recovery event of a key is reported iff the key is cleared |
| Reports.NextKeys | src/certminder/evaluator.py:399-405 | the keys stored are exactly those observed, each either active and stamped or pending |
| Reports.NextStateConsistent | src/certminder/evaluator.py:372-405 | every evaluation, whatever non-negative counters it starts from, leaves alerts strictly sorted and stamped, counts within 1..N-1, and unreachable alone |
| Reports.ConsistentRoundTrip | src/certminder/state.py:32-52 | such a state survives to_dict and from_dict unchanged |
| Timers.RenotifyRate | src/certminder/evaluator.py:263-272 | c re-alerts of a standing problem take at least c renotify intervals |
| Timers.NeverOverdue | src/certminder/evaluator.py:388-395 | after every cycle that may alert it, an active problem was alerted less than one interval ago |
| Timers.AlertSpacing | src/certminder/evaluator.py:263-278 | the kept stamp is the time of the last alert; the next comes at least one interval and less than the interval plus the cycle gap later |
| Timers.Stabilises | src/certminder/evaluator.py:320-405 | with renotify off, after at most N equal observations the state is a fixed point and nothing more is reported |
| Timers.StabilisesNoSooner | src/certminder/evaluator.py:226-238 | the bound N is exact for a target first seen with a problem |
| Fingerprints.EmittedRotations | src/certminder/evaluator.py:351-365 | a cycle announces a rotation exactly when the stored fingerprint is replaced by a different one |
| Fingerprints.RotationsAreChanges | src/certminder/evaluator.py:351-365 | the rotations of a run are exactly the changes in the sequence of non-empty fingerprints seen, and they telescope |
| RotationLog.CycleRotations | src/certminder/evaluator.py:351-365 | a checked target's events hold a rotation iff its fingerprint differs from the stored one and the cycle is no digest |
| RotationLog.DeliveredRotationsChain | src/certminder/scheduler.py:171-197 | over any run, each rotation delivered since the last committed digest, or since the target was forgotten, starts from the fingerprint the previous one announced; without either that is the whole log |
| State.EntryRoundTrip | src/certminder/state.py:32-52 | writing a state and reading it back loses nothing iff its alert list is in order |
| State.StoreRoundTrip | src/certminder/state.py:63-83 | a saved store loads back unchanged iff every alert list is in order |
| State.LoadedExactly | src/certminder/state.py:42-83 | a complete file gives its well-formed entries under their names, an absent field as empty, and nothing else |
| State.StateStore.constructor | src/certminder/state.py:58-83 | loading keeps the well-formed entries and nothing else; a file that is missing, cannot be opened or does not parse gives the empty store |
| State.StateStore.Set | src/certminder/state.py:89-91 | replaces one entry and leaves the others |
| State.StateStore.Prune | src/certminder/state.py:93-105 | keeps exactly the entries checked at or after the cutoff |
| State.LastCycleMeaning | src/certminder/state.py:107-122 | last_cycle answers iff some entry has a check time, and then with the entries no other is more recent than, unchanged |
| Atomic.ProgressMeaning | src/certminder/atomic.py:18-25 | before the rename the path holds the old file, after it the complete new one with its permissions; the temporary file is private until it gets them |
| Atomic.CrashIsAtomic | src/certminder/atomic.py:10-28 | recovery from a crash or power loss after any step finds a file the path has held or exactly the new one, never a torn one, and the new one only after the rename |
| Atomic.FileSystem.AtomicWrite | src/certminder/atomic.py:10-28 | a write that fails at any step leaves the old file and no temporary; every state passed through recovers to the new file or one held before |
| Notifiers.SendMeaning | src/certminder/notifiers/__init__.py:25-46 | through any stack of filters the sink gets one batch, the admitted events in order, and none at all when nothing is admitted |
| Notifiers.FilterOrderIrrelevant | src/certminder/notifiers/__init__.py:72-91 | which of the two filters is outermost cannot be observed |
| Notifiers.BuildNotifierMeaning | src/certminder/notifiers/__init__.py:49-91 | a notifier is built iff its type, its constructor and both filter options accept, the first that does not deciding the error; then `critical` admits only critical events, `warning` all but informational ones, and `kinds` only those listed |
| Notifiers.BuiltBatch | src/certminder/notifiers/__init__.py:25-46 | the batch such a notifier hands to its sink is, in order, what passes those options |
| Notifiers.OwedOne | src/certminder/scheduler.py:211-214 | a notifier is called with its admitted events, and not at all when there are none |
| Notifiers.OwedConcat | src/certminder/scheduler.py:211-214 | the calls of a delivery are each notifier's own, one after the other |
| Notifiers.ParseKindsMeaning | src/certminder/notifiers/__init__.py:73-81 | the allowlist holds a kind iff its value is among the names |
| Notifiers.Deliver | src/certminder/scheduler.py:205-222 | every notifier is handed its admitted events, and the batch is delivered iff every sink accepted them |
| Scheduler.NewcomersMeaning | src/certminder/scheduler.py:130-136 | every new discovered name is kept exactly once |
| Scheduler.NewcomersFirst | src/certminder/scheduler.py:132-135 | a name is kept by the first target that bears it |
| Scheduler.AllTargets | src/certminder/scheduler.py:121-136 | the loop returns the static list followed by the newcomers |
| Scheduler.TargetsExactly | src/certminder/scheduler.py:91-136 | after the static targets a cycle checks, in the order of the sources and their answers, every answer of every source that did answer whose name is new; a failed source takes nothing from the others |
| Scheduler.AllTargetsDistinct | src/certminder/scheduler.py:121-136 | the names of a cycle are distinct iff the static ones are |
| Scheduler.EvaluateAll | src/certminder/scheduler.py:168-186 | the loop over the results folds each one into the store, the remembered states and the events |
| Scheduler.RollBack | src/certminder/scheduler.py:192-195 | exactly the targets that produced events get back the state they had before, stamped as seen now |
| Scheduler.RunOnce | src/certminder/scheduler.py:139-202 | the cycle checks the static targets and the newcomers; the saved file is the store after evaluation, rollback and pruning; the report says whether every sink took everything; it raises when a check does, the state file is not text or the save fails, leaving the file as it was, and when the metrics fail, with the new file in place |
| Cycles.CycleEvents | src/certminder/scheduler.py:171-186 | with distinct names, the events of a cycle about one target are those of its own evaluation |
| Cycles.AfterChecked | src/certminder/scheduler.py:188-197 | a checked target gets its new state, or its old one stamped now if it had events that were not delivered, and is never pruned |
| Cycles.AfterUnchecked | src/certminder/scheduler.py:196 | a target that is not checked keeps its entry until it is older than the retention |
| Cycles.DigestConfirms | src/certminder/scheduler.py:174-184 | a digest confirms and tells all it observes, whatever is stored and however many sightings the threshold asks for |
| Cycles.DigestShowsEverything | src/certminder/scheduler.py:168-197 | after a delivered digest every problem a check shows and the target does not expect is stored as alerted and is among the events, an expected outage apart |
| Runs.TargetStep | src/certminder/scheduler.py:171-197 | in any run a cycle either takes a target's evaluation over and logs its events, or puts it back and logs nothing, or does not check it |
| Daemon.CommittedRefinement | src/certminder/scheduler.py:168-197 | over any run of completed cycles with distinct names, whatever the sinks, digests, rules and clock do, the stored state and the delivered events of a target are those of its committed sightings |
| Daemon.RunSinceRestart | src/certminder/scheduler.py:174-184 | since the last digest, or since the target was forgotten, that record is a plain history started from the state the digest left, while the rules stay the same |
| Daemon.StoredByStreak | src/certminder/scheduler.py:174-184 | in every such run a problem is stored as active iff, within its current streak of committed sightings, the streak once reached the threshold in force, which in a digest is 1; otherwise it is pending with its streak |
| Daemon.StoredIsDescribed | src/certminder/scheduler.py:168-197 | in runs without digests, with one set of rules and the target never forgotten, the store and the log are those described by streaks and past alerts, failed deliveries included |
| Daemon.DeliveredRecoveryFollowsAlert | src/certminder/scheduler.py:168-197 | in every run, when a problem of a target is announced as cleared, a reader of the delivered events has an alert of it open iff it is not an outage the target expects, of which none was ever delivered |
| Persistence.SavedReloads | src/certminder/state.py:124-127 | every store a run of cycles saves is read back unchanged |
| Persistence.StoredConsistent | src/certminder/scheduler.py:168-197 | every stored state of every run satisfies the state invariant, digests, rollbacks and pruning included |
| Retention.RetainedExactly | src/certminder/scheduler.py:185-196 | after any run a target is stored iff its last check is at most 604800 s old, and is stamped with it |
| Retention.LastCycleExactly | src/certminder/state.py:107-122 | last_cycle names exactly the targets of the most recent cycle that checked anything, while that cycle is within the retention |
| Order.OrderIrrelevant | src/certminder/scheduler.py:168-197 | permuting the results of a cycle changes neither the saved store nor the targets rolled back |
| Order.SameOwnEvents | src/certminder/scheduler.py:171-186 | permuting the results of a cycle changes no target's own events |
| Redelivery.LaterReportsContain | src/certminder/evaluator.py:263-272 | evaluation ignores last_seen and, as time passes, reports a supersequence |
| Redelivery.AtLeastOnce | src/certminder/scheduler.py:188-200 | across any number of cycles that raised or were not delivered, with an unchanged result, every later one reports in order all that an earlier one did |
| Redelivery.EventuallyDelivered | src/certminder/scheduler.py:188-200 | when such a stretch ends in a delivered cycle, the delivered events include everything each failed cycle reported |
| Redelivery.AlertComesUpAgain | src/certminder/scheduler.py:188-200 | an alert that was new or due is in every later cycle of such a stretch as long as its problem is observed, whatever else about the target changes |
| Redelivery.RecoveryComesUpAgain | src/certminder/scheduler.py:188-200 | a recovery is in every later cycle of such a stretch as long as the target is reached and the problem is gone |
| Replay.ReplayContainsStored | src/certminder/scheduler.py:171-197 | whoever follows the delivered events about a target has every stored alert open |
| Replay.ReplayEqualsStored | src/certminder/scheduler.py:171-197 | with threshold 1, no digest and the target never forgotten, exactly the stored alerts are open |
| Honesty.HonestCycle | src/certminder/scheduler.py:168-197 | after one cycle each stored alert is stamped with the time of a cycle in the log that delivered it, whatever the checks find and the sinks answer |
| Honesty.NeverOverclaimsExactly | src/certminder/scheduler.py:130-195 | a list of targets is safe in this sense iff names are distinct and none expects to be unreachable |
| Protocol.NextKeeps | src/certminder/scheduler.py:156-197 | every step of the protocol, exceptions and crashes included, keeps the invariant |
| Protocol.PersistedNeverOverclaims | src/certminder/scheduler.py:188-197 | in every reachable state, and after any crash there, the file is complete and each alert it claims is stamped with the time of a cycle whose alert for it no sink refused |
| Loop.CycleReaches | src/certminder/scheduler.py:156-200 | a cycle that is not cut short, whatever fails in it, is a path of protocol steps to the store, log and digest flag it leaves |
| Loop.RunCycle | src/certminder/scheduler.py:225-232 | every RunOnce, raising or not, is such a path, keeps the invariant, and stores and logs what the theorems about runs say |
| Loop.DigestUntilDelivered | src/certminder/scheduler.py:257-265 | startup digests are repeated until the first delivered one and never after it |
| Loop.RunLoop | src/certminder/scheduler.py:257-268 | the loop hands each cycle the flag that rule gives, is a path of protocol steps, leaves a store that claims only delivered alerts, and, from a saved store, the store of the run of the cycles that replaced the file, with its delivered events if no save failed |
| Env.ReadsExactly | src/certminder/env.py:16-18 | every string has exactly one reading as literals, escapes and references, and the scan finds it |
| Env.InterpolateSubstitutes | src/certminder/env.py:53-71 | interpolation substitutes the tokens of that reading; substituted text is never scanned again |
| Env.InterpolateFails | src/certminder/env.py:63-69 | interpolation fails iff a referenced variable is unset, and names one such |
| Env.InterpolateDepends | src/certminder/env.py:53-71 | the result depends on the referenced variables only |
| Env.DoublingProtects | src/certminder/env.py:56-63 | doubling every dollar sign makes any text come out as it was, under any environment |
| Env.ValueIsVerbatim | src/certminder/env.py:64-69 | a reference is replaced by the value as it stands, references in it included |
| Env.ReferenceBecomesValue | src/certminder/env.py:16-18 | a reference to a name of letters, digits and underscores, in braces or not, becomes the value of its variable, whatever follows it, and fails if there is none |
| Env.OtherTextStays | src/certminder/env.py:62-71 | a doubled dollar sign becomes one, and text that begins neither an escape nor a reference stays |
| Env.InterpolateAllMeaning | src/certminder/env.py:74-88 | the whole value is interpolated iff each of its strings can be; shape, keys and other scalars stay |
| Metrics.EscapeFusion | src/certminder/metrics.py:18-20 | the three replacements together are a map of single characters |
| Metrics.LabelRoundTrip | src/certminder/metrics.py:23-25 | a reader of the exposition format recovers exactly the rendered labels, for all values |
| Metrics.MetricsAgreeWithAlerts | src/certminder/metrics.py:46-54 | the exported problems are those the evaluator tracks, plus the expected ones |
| Slack.EscapeFusion | src/certminder/notifiers/slack.py:20-22 | the three replacements together are a map of single characters |
| Slack.EscapeInverts | src/certminder/notifiers/slack.py:20-22 | escaped text has no raw angle bracket and resolves back to the text |
| Discovery.HostnameExactly | src/certminder/discovery.py:22-25 | the expression matches a whole text iff its dot-separated labels obey the limits of section 2.3.4 of RFC 1035, with underscores, and the four letters outside ASCII that ignoring case lets through |
| Discovery.ExtractHostnames | src/certminder/discovery.py:32-50 | the result is the strictly sorted set of hostnames among the concrete names, with the number of distinct rejected ones |
| Strings.StrLessMeaning | src/certminder/discovery.py:50 | sorted strings are in lexicographic order: the first differing character decides, and the end of a string is smallest |
| Engine.SubprocessTimeout | src/certminder/engine.py:25-51 | the computed budget is the least time that no legitimate run exceeds, each try being held to its own timeout or else to the general one |
| Engine.BudgetSuffices | src/certminder/engine.py:25-51 | no legitimate run, with retries, two handshakes and three downloads, outlasts its budget |
| Engine.BudgetAttained | src/certminder/engine.py:25-51 | some legitimate run needs all of it |
| Engine.BudgetMonotone | src/certminder/engine.py:37-51 | more retries, or timeouts that allow more, never shrink the budget |

## Left out

- Message wording, `printable`, timestamps and heartbeat text: only kind, target, severity and details of an event are modelled.
- Running certinspect, building its arguments and mapping its exit codes: a check is an arbitrary result, a discovery an arbitrary list of targets or a failure.
- Slack, webhook, SMTP and console transports: a sink accepts, declines or raises. What a constructor demands of its options besides the two filter options is one truth value.
- JSON, YAML and dotenv parsing and path handling: configurations and state files start from typed values; a file that does not parse is `Torn`, one that is not text is `Garbled`.
- Configuration validation and merging: only the bounds it guarantees appear, as preconditions.
- Rendering the whole metrics file: labels and the choice of problem series are modelled, numbers and HELP lines are not.
- How `Target.name` is put together from host, port and label: a name is any string.
- Thread pools: they preserve order and are a sequence map.
- Email ordering: it is a stable sort of the events.
- Floating-point rounding and clocks that run backwards: time is real and theorems about timing assume an ordered clock.
- Loop.RunLoop: runs as many cycles as it is given instead of for ever; sleeping and the heartbeat line are left out.

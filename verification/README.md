# GateShell agent: a verified model

The GateShell agent is a small Go daemon that samples a host, keeps a history, streams samples to
clients, evaluates alert rules and pushes alerts to paired devices. Most of its parts are little
state machines whose promises are about whole runs, often with several goroutines at work. This
project models those parts in Dafny 4.11 and proves the promises for every run.

`dafny verify dfyconfig.toml` checks the whole project.

## How the model is built

- Times and durations are integers counting nanoseconds. `0` is Go's zero time, durations are 64-bit,
  and `Sub` saturates as `time.Time.Sub` does. Metric values and percentages are reals.
- Objects that the source updates in place are classes (`Evaluator`, `WidgetNotifier`, `Collector`,
  `Store`, `Channel`, `Server`, `Reader`, `ConfigFile`). Their methods follow the source statement by
  statement, and their contracts say what they do in terms of functions on values. For the five with
  run theorems (`Evaluator`, `WidgetNotifier`, `Collector`, the device registry's `Store`, `Server`) that
  is a step of the machine the lemmas about runs are about, and `Drive` and `Perform` methods take the
  objects through the runs.
- Goroutines are interleavings of atomic steps: a step is a critical section, a channel operation or a
  read of a shared field. A schedule is any sequence of enabled steps.
- The world outside is a parameter: the clock, the relay's answer to each send, whether a file write
  succeeds, the scanned process table, the text form of durations.

| module | source | what it covers |
|---|---|---|
| `Alerts`, `AlertRuns`, `AlertHistory`, `ServiceHistory` | `internal/alerts/alerts.go` | the evaluator, its runs, and closed forms of its state |
| `AlertChanges`, `AlertInterference` | `internal/alerts/alerts.go` | the closed form under changing rules; which rule sets disturb each other |
| `WidgetThrottle` | `internal/pushrelay/widget.go` | the claim, publish, roll-back throttle |
| `CollectorLoop` | `internal/collector/collector.go` | the loop, `SetInterval` and the wake channel |
| `TokenStore`, `TokenStoreRuns`, `Publisher` | `internal/pushrelay/tokenstore.go`, `publisher.go` | the registry over its slice buffer, restarts, fan-out |
| `Broadcast` | `internal/api/api.go` | live streaming |
| `MemoryStore` | `internal/store/memory.go` | the capped history |
| `ProcStat`, `TopProcesses` | `internal/collector/procstat.go`, `reader.go` | the stat-line parser and the top-N reader |
| `Config` | `internal/config/config.go` | layering, saving and reloading |
| `AtomicWrites`, `TokenStoreRaces`, `ConfigRaces` | `internal/pushrelay/tokenstore.go`, `internal/config/config.go` | calls racing on a file that is replaced through a temporary one |
| `Runs`, `Sequences`, `GoTime`, `Samples`, `Wrappers` | | shared types and lemmas |

## What the proofs found

- **Shared names.** Two rules with one name share one state, and neither `validateRules`
  (`internal/api/api.go:460-492`) nor loading a file forbids it. Over all histories every rule sends
  exactly what it would send alone if and only if of any two different rules sharing a name one is inert,
  that is of unknown metric or comparator (`AlertInterference.UndisturbedIffCompatible`). With two live
  namesakes either only one of two due notifications is sent, or a rule reports a recovery it would never
  report alone; `SharedNameInterferes` gives a single sample for that.
- **Services watched twice.** Every service rule sends exactly what it would send alone if and only if the
  rules on one service are copies without repeats (`AlertInterference.UndisturbedIffCompatibleServices`).
  Of different rules only the first in the list reports an outage, and a repeating rule given twice
  reminds of an outage that was never reported, on the very first sample.
- **Services first seen down.** No outage message is sent for them, and their reminder clock still reads
  the zero time, so with a positive repeat interval the very next observation brings "still DOWN"
  (`ServiceHistory.FirstSeenDown`).
- **Stale throttle stamps.** When two failed publishes overlap and settle in claim order, the first one's
  stamp comes back. That never silences a later sample if and only if no earlier effective interval is
  shorter than the present one (`WidgetThrottle.ThrottleIsJustIff`). It takes overlapping calls: one at a
  time, as the agent's single sink makes them (`cmd/gateshell-agent/main.go:323-328`), calls are
  throttled exactly with cause (`WidgetThrottle.OneAtATimeThrottleIsJust`).
- **A paused interval does not survive a restart.** The comment at `internal/config/config.go:146-149` promises that an
  app-driven interval does, and `0` means paused, but a saved `0` is dropped when the file is merged, so
  the agent comes back with the default interval. A saved negative one keeps it from starting.
  `Config.RestartRestoresSaves` states which interval a restart has, flags and environment included.
- **A file holding `null`.** It loads as if no file were given, but saving to it assigns to a nil map and
  panics (`Config.NullLoadsLikeNoFile`, `Config.ConfigFile.SaveFields`).
- **Negative repeat intervals are not encoded.** A rule survives its own JSON form exactly when its
  repeat interval is not negative (`Config.RuleRoundTrip`); decoded rules always are.
- **Registering during a failing send.** A device that registers while a fan-out is under way keeps that
  registration if and only if no send from the current one on is answered as gone for its token; one that
  registers again while the send to it is failing loses the new registration too
  (`Publisher.RegistrationSurvivesIff`).
- **Failed registry writes.** Until a restart they make no difference to the list; a restart rolls it
  back to the last successful write, no further and no less (`TokenStoreRuns.RestartRollsBack`).
- **Racing registry writes.** The list is written outside the lock, through one temporary file. When all
  calls have returned, the file holds the list as it was for the call that wrote last; it is the list in
  memory if and only if the calls that had the lock later leave that unchanged
  (`TokenStoreRaces.FileHoldsListIff`). A call may also fail although its list is what the file holds
  (`TokenStoreRaces.OverlappingWriteFails`).
- **Racing configuration saves.** Reading and writing share no lock either. Of an interval save and a rules
  save both survive if and only if the first was in place when the second read the file, or the setting
  overwritten was there before (`ConfigRaces.BothSurviveIff`).
- **Duplicate tokens in a hand-made file.** The registry loader does not deduplicate;
  `TokenStoreRuns.LoadIsWellFormedIff` states exactly which files load to a well-formed list.

Where comments and code disagree the model follows the code: `TopProcessesReader.Read` reads `/proc` and
sorts although its comment speaks of `ps`; `QueryRange` uses a binary search although its comment speaks
of a linear scan; TOML configuration files are refused although the `Config` comment lists them; a flag
given as an empty text or a zero interval counts as unset although the `FlagOverrides` comment says that
only a nil pointer does.

## Model

| member | source | states |
|---|---|---|
| Alerts.Evaluator.SetRules | internal/alerts/alerts.go:208-213 | replaces both rule sets and keeps every rule's and service's state |
| Alerts.Evaluator.Handle | internal/alerts/alerts.go:224-240 | evaluates the sample against all numeric rules and then all service rules, in order |
| Alerts.Evaluator.EvaluateRule | internal/alerts/alerts.go:242-304 | the in-place update and the message equal the numeric state machine; at most one message is sent, carrying the rule's own figure from the sample, on the wrong side of the threshold for a fire or repeat and not for a recovery; an unobserved sample changes no state, an unmet one clears it |
| Alerts.Evaluator.EvaluateServiceRule | internal/alerts/alerts.go:306-351 | likewise for a service rule: the status is recorded, a first observation sends nothing, a recovery clears the clock, other services keep their state |
| Alerts.FindStatus | internal/alerts/alerts.go:307-316 | the scan stops at the first entry with the service's name |
| Alerts.StatusOfIsFirst | internal/alerts/alerts.go:307-316 | the status used is that of the first entry with the service's name, and missing exactly when no entry has it |
| Alerts.PercentRuleMeaning | internal/alerts/alerts.go:364-383 | a memory or disk percentage rule compares used over total with the threshold, and a zero total observes nothing |
| Alerts.MetricReads | internal/alerts/alerts.go:359-383 | a sample's value for a metric is the field the metric names, or 100 times used over total, and there is none for an unknown metric or a zero total |
| Alerts.ObserveMeans | internal/alerts/alerts.go:243-257 | a rule is observed met or unmet exactly when its comparator is known and that value is on the wrong side of the threshold or not |
| Alerts.InertIffNeverObserved | internal/alerts/alerts.go:248-257 | a rule is observed by no sample at all exactly when its metric or comparator is unknown; any other can be breached at any time |
| Alerts.ValidateRules | internal/api/api.go:460-492 | the API accepts exactly the rule sets whose rules are named, of known metric and comparator, with no negative `For`, and whose service rules are named and watch something; an error names a fault that is there |
| AlertRuns.Drive | internal/alerts/alerts.go:195-240 | the evaluator object driven by any sequence of rule changes and samples reaches the state of the run function |
| AlertRuns.RuleNamesAreIndependent | internal/alerts/alerts.go:228-264 | over every run, rule changes included, the messages and state under a rule name equal those of an evaluator only ever given that name's rules |
| AlertRuns.ServicesAreIndependent | internal/alerts/alerts.go:306-326 | the same for the rules watching one service |
| AlertRuns.EpisodesAreWellFormed | internal/alerts/alerts.go:259-304 | over every run a rule name's messages are a prefix of (fire, repeat*, recovered)*, and it is firing exactly while an episode is open |
| AlertRuns.MessagesAreBorneOut | internal/alerts/alerts.go:224-304 | over every run each message about a rule belongs to a sample and a rule in force for it, and carries that rule's own figure, on the side of the threshold that the message says |
| AlertRuns.SampleSendsInOrder | internal/alerts/alerts.go:228-240 | a sample's messages are those of numeric rules, then those of service rules, each in the order of the rules and at most one a rule |
| AlertHistory.FixedRunRefinesSolo | internal/alerts/alerts.go:228-264 | a rule that shares its name only with copies of itself and inert rules has in a shared evaluator the state and messages of the rule run alone |
| AlertHistory.StateIsClosedForm | internal/alerts/alerts.go:266-292 | `conditionSince` is the start of the maximal suffix of observations meeting the condition, and the rule fires exactly when that suffix is non-empty and spans at least `For` |
| AlertHistory.FiringIsBreachSpanningFor | internal/alerts/alerts.go:242-292 | the same of the running evaluator, for every rule of such a set |
| AlertHistory.MessagesMarkTheEdges | internal/alerts/alerts.go:266-304 | a first fire is sent exactly when the breach comes to span `For`, a recovery exactly when it stops to |
| AlertHistory.NextMessageIsDetermined | internal/alerts/alerts.go:278-304 | after a notification the next message is a recovery at the first sample off the condition, or a repeat at the first one observed at least `RepeatInterval` later, else none |
| AlertHistory.EpisodeBudget | internal/alerts/alerts.go:282-292 | a stretch of length D from an episode's first fire holds at most 1 + D/R notifications, and exactly one when repeats are off |
| AlertChanges.ClosedFormUnderChanges | internal/alerts/alerts.go:208-304 | over every run with rule changes, `conditionSince` is the start of the maximal breach ending the run, each observation judged by the rule then in force, and the name is firing (its episode open) exactly when that breach at some observation had lasted the `For` then in force |
| AlertInterference.SilentIffInert | internal/alerts/alerts.go:248-292 | a rule never sends a message exactly when its metric or comparator is unknown |
| AlertInterference.UndisturbedIffCompatible | internal/alerts/alerts.go:228-304 | over all histories every rule itself sends exactly the messages it would send alone, if and only if of any two different rules sharing a name one is inert |
| AlertInterference.OnlyFirstSaysDown | internal/alerts/alerts.go:237-240 | when a service goes down, of all the rules watching it only the first in the list says so |
| ServiceHistory.FixedRunRefinesSoloService | internal/alerts/alerts.go:237-239 | a service watched by one rule, or by copies without repeats, has the state and messages of that rule run alone |
| ServiceHistory.EventsMarkTheEdges | internal/alerts/alerts.go:325-350 | "is DOWN" exactly at observed up-to-down edges, a recovery exactly at down-to-up edges when requested, a reminder only within an outage and with repeats on |
| ServiceHistory.NextReminderIsDetermined | internal/alerts/alerts.go:330-337 | after an outage message or reminder, the next reminder comes exactly at the first down observation at least `RepeatInterval` later |
| ServiceHistory.FirstSeenDown | internal/alerts/alerts.go:319-337 | a service first seen down gets no outage message, and with repeats on a reminder at its next down observation once the clock exceeds `RepeatInterval` |
| AlertInterference.UndisturbedIffCompatibleServices | internal/alerts/alerts.go:306-350 | over all histories every service rule itself sends exactly the messages it would send alone, if and only if any two rules watching one service are equal and without repeats |
| WidgetThrottle.Interval | internal/pushrelay/widget.go:63-69 | the cadence is the larger of the poll interval and `MinWidgetInterval` |
| WidgetThrottle.WidgetNotifier.TryClaim | internal/pushrelay/widget.go:78-90 | the claim section refuses exactly when throttled, otherwise stamps the slot and remembers the old stamp |
| WidgetThrottle.WidgetNotifier.RollBack | internal/pushrelay/widget.go:96-100 | the roll-back restores the old stamp only if the slot is still its own |
| WidgetThrottle.WidgetNotifier.Notify | internal/pushrelay/widget.go:73-104 | an undisturbed call publishes exactly when not throttled, and a failed publish costs nothing |
| WidgetThrottle.Perform | internal/pushrelay/widget.go:80-101 | the two critical sections are exactly the steps of the interleaving model |
| WidgetThrottle.LiveClaimsAreSpaced | internal/pushrelay/widget.go:63-104 | under every interleaving, settle order and interval change, claims in flight or succeeded are at least `MinWidgetInterval` apart and never later than the stamp |
| WidgetThrottle.ThrottledIffRecentLiveClaim | internal/pushrelay/widget.go:80-103 | while no earlier effective interval was shorter than the present one, a call is throttled exactly when a claim in flight or succeeded lies within the last interval |
| WidgetThrottle.GrownIntervalThrottlesOnFailure | internal/pushrelay/widget.go:88-101 | for every longer interval after a shorter one that fails: the restored stamp of a failed claim throttles although no claim is live |
| WidgetThrottle.ThrottleIsJustIff | internal/pushrelay/widget.go:63-103 | every schedule over given past intervals throttles exactly with cause, if and only if none of them is effectively shorter than the present one |
| WidgetThrottle.OneAtATimeThrottleIsJust | internal/pushrelay/widget.go:73-104 | when each call settles before the next begins, a call is throttled exactly when a claim in flight or succeeded lies within the last interval, for every history of intervals |
| CollectorLoop.Collector.SetInterval | internal/collector/collector.go:103-115 | an undisturbed call stores the interval and leaves a wake pending |
| CollectorLoop.Collector.StoreInterval | internal/collector/collector.go:104-106 | the locked part of the call changes the interval only |
| CollectorLoop.Collector.SignalLoop | internal/collector/collector.go:111-114 | the non-blocking send fills the one slot or gives up |
| CollectorLoop.Collector.ReadAtTop | internal/collector/collector.go:123-127 | the loop ticks exactly when the interval it reads is positive |
| CollectorLoop.Collector.EnterWait | internal/collector/collector.go:129-131 | the wait is on the interval read after the tick |
| CollectorLoop.Collector.LeaveWait | internal/collector/collector.go:140-160 | a wait ends by the timer, a wake or cancellation, a wake being consumed |
| CollectorLoop.Drive | internal/collector/collector.go:103-160 | the collector object takes every interleaving of calls, loop steps and passing time |
| CollectorLoop.NoWakeupIsLost | internal/collector/collector.go:103-160 | in every reachable state with no caller between store and signal, a waiting loop waits on the current interval or has a wake pending; never more than one is; a paused wait with a positive interval can be left |
| CollectorLoop.TicksArePaidFor | internal/collector/collector.go:121-160 | over every run ticks are at most 1 + the timer expiries + the `SetInterval` calls in it, each after reading a positive interval |
| CollectorLoop.TimerTicksAreSpaced | internal/collector/collector.go:121-160 | over every run a tick brought about by the timer begins at least the time waited for after the tick before it |
| CollectorLoop.QuietTicksAreSpaced | internal/collector/collector.go:121-160 | from any reachable state with no wake pending, while nobody calls `SetInterval`, ticks are at least the interval apart, but for the first of a pass already begun; while paused there are none |
| CollectorLoop.LoopCanMove | internal/collector/collector.go:121-160 | with a positive interval and all callers done the loop has a step of its own, now or when at most the interval has passed |
| CollectorLoop.TickWithinFourSteps | internal/collector/collector.go:121-160 | with a positive interval left alone, the fourth step of the loop has begun a tick at the latest |
| CollectorLoop.CancelEndsLoop | internal/collector/collector.go:129-160 | after a cancelled wait the loop takes no further step and begins no tick |
| TokenStore.NormalizeEnvironment | internal/pushrelay/tokenstore.go:28-33 | development stays development, everything else is production |
| TokenStore.Store.constructor | internal/pushrelay/tokenstore.go:72-112 | loading gives the decoded list without empty tokens, or the single device of the older file shape |
| TokenStore.Open | internal/pushrelay/tokenstore.go:75-92 | opening fails exactly on a file that cannot be read or decoded |
| TokenStore.Store.All | internal/pushrelay/tokenstore.go:115-121 | a fresh copy of the list |
| TokenStore.Store.Find | internal/pushrelay/tokenstore.go:135-144 | the first registration with the token, if any |
| TokenStore.Store.Set | internal/pushrelay/tokenstore.go:156-182 | an empty token is refused; otherwise the device is updated in place or appended, and the file holds the new list or is untouched when the write fails |
| TokenStore.Store.Remove | internal/pushrelay/tokenstore.go:187-201 | compacting the buffer over itself leaves exactly the other registrations in order |
| TokenStoreRuns.Drive | internal/pushrelay/tokenstore.go:72-220 | the store object driven by any run, restarts included, reaches the list and file of the run function |
| TokenStoreRuns.LoadIsWellFormedIff | internal/pushrelay/tokenstore.go:94-110 | a file loads to unique non-empty tokens in the two environments exactly when it lists no token twice |
| TokenStoreRuns.LoadKeepsDevices | internal/pushrelay/tokenstore.go:95-103 | loading keeps every device with a token, in order, with its label and normalised environment |
| TokenStoreRuns.OlderFileKeepsItsDevice | internal/pushrelay/tokenstore.go:104-110 | a file of the older shape loads to its one device |
| TokenStoreRuns.RunIsWellFormed | internal/pushrelay/tokenstore.go:156-220 | every run from such a file keeps list and file so, failed writes included |
| TokenStoreRuns.SuccessfulWriteReloads | internal/pushrelay/tokenstore.go:203-220 | after any successful write, reloading the file gives the list in memory |
| TokenStoreRuns.FileHoldsLastWrite | internal/pushrelay/tokenstore.go:203-220 | over every run the file reloads to the list there was at the last successful write |
| TokenStoreRuns.RestartRollsBack | internal/pushrelay/tokenstore.go:72-112 | a restart gives back exactly the list at the last successful write |
| TokenStoreRuns.FailedWritesUnseen | internal/pushrelay/tokenstore.go:156-201 | without a restart the list does not depend on which writes failed |
| TokenStoreRuns.RestartIsInvisible | internal/pushrelay/tokenstore.go:72-112 | while writes succeed a restart at any moment changes nothing |
| TokenStoreRuns.RegistryRefinesMap | internal/pushrelay/tokenstore.go:156-220 | over every such run, failed writes and restarts included, the list is an insertion-ordered map: tokens in order of first registration since removal, and for each the environment and label its history gives, a restart taking back what was not written |
| TokenStoreRuns.KnownLabelSurvives | internal/pushrelay/tokenstore.go:164-173 | until a known device is removed it stays listed with the last non-empty label given, or its earlier one when none was: an empty label never erases a known one |
| TokenStoreRaces.FileHoldsListIff | internal/pushrelay/tokenstore.go:156-220 | for every interleaving of racing calls, once all have returned the list is that of the calls in lock order, the file (and a restart) has it as it was for the call that wrote last, and the two agree exactly when the calls that had the lock later leave it unchanged |
| TokenStoreRaces.NewDevicesKeptIff | internal/pushrelay/tokenstore.go:156-220 | while every call registers a new device, the file holds the list exactly when the last call to have the lock was the last to write |
| TokenStoreRaces.CrossedWritesLag | internal/pushrelay/tokenstore.go:178-220 | for any two calls there is an interleaving in which both succeed and the file lacks the second change |
| TokenStoreRaces.OverlappingWriteFails | internal/pushrelay/tokenstore.go:203-220 | and one in which the second fails although the file holds its list |
| AtomicWrites.SettledHoldsLastStored | internal/pushrelay/tokenstore.go:214-219 | once all calls have returned the file holds the content of the one that wrote the temporary file last, whoever renamed it |
| Publisher.DisplayLabel | internal/pushrelay/tokenstore.go:50-55 | a device is always shown by a name, its own label when it has one |
| Publisher.ReportExplains | internal/pushrelay/publisher.go:74-91 | the errors correspond one to one and in order to the devices not delivered to, each says whether its device was gone, and names it by its own label if it has one |
| Publisher.FanOut | internal/pushrelay/publisher.go:74-92 | every device of the copied snapshot is tried once and in order although the live buffer is compacted and extended meanwhile; the errors are exactly those of the devices not delivered to; the registry goes through exactly the other calls and the removals of tokens reported gone |
| Publisher.Publish | internal/pushrelay/publisher.go:65-92 | no device is an error; otherwise success exactly when every send succeeded, and else one error for each device that was not delivered to, saying which and how |
| Publisher.UndisturbedPruning | internal/pushrelay/publisher.go:74-92 | with no other call in between, the registry afterwards is the old one minus exactly the tokens reported gone |
| Publisher.UndisturbedPruningWritten | internal/pushrelay/publisher.go:74-92 | and the file holds the registry as of the last pruning that could be written |
| Publisher.RacingPruning | internal/pushrelay/publisher.go:74-92 | for every snapshot and send k, a token no call touches after send k is gone at the end if a send from the k-th on found it gone, and otherwise keeps the entry the calls up to send k left |
| Publisher.UntouchedDevicesKept | internal/pushrelay/publisher.go:74-92 | whatever other devices register or remove meanwhile, a device no other call touches keeps its entry exactly when it was not reported gone |
| Publisher.RegistrationSurvivesIff | internal/pushrelay/publisher.go:76-85 | a registration made during send k of a fan-out is still there at its end if and only if no send from the k-th on is answered as gone for that token |
| Publisher.PrunedExactlyTheGone | internal/pushrelay/publisher.go:79-86 | pruning keeps a device exactly when its token is not among the gone ones, and keeps the survivors' order |
| Publisher.SendTest | internal/pushrelay/publisher.go:44-63 | a test reaches only the first device with the token, prunes only that one and only when gone, writes the file accordingly, and reports its outcome and name |
| Broadcast.Server.BroadcastSample | internal/api/api.go:189-202 | an uninterrupted sweep is a run of the transition system, after which every subscriber's queue holds the sample unless it was full |
| Broadcast.Server.Subscribe | internal/api/api.go:616-619 | a stream starts with a fresh, open, empty channel among the subscribers, as the machine's subscribe step |
| Broadcast.Server.Unsubscribe | internal/api/api.go:621-624 | teardown first takes the channel out of the map, as the machine's unsubscribe step |
| Broadcast.Server.Close | internal/api/api.go:625-626 | then, with the lock released, closes it, as the machine's close step |
| Broadcast.Server.Receive | internal/api/api.go:638-654 | the handler takes the oldest queued sample, as the machine's receive step |
| Broadcast.Server.Offer | internal/api/api.go:193-201 | one turn of the sweep never blocks, adds the sample exactly when there is room, and finds the channel open, as the machine's offer step |
| Broadcast.Drive | internal/api/api.go:189-654 | the objects take every run of the transition system, whatever the interleaving of handlers and sweeps |
| Broadcast.NeverSendsOnClosed | internal/api/api.go:189-202 | no run sends on a closed channel, with any number of sweeps at once |
| Broadcast.StreamsConserveSamples | internal/api/api.go:616-654 | offered = received + queued + dropped, at most 8 queued, order kept, nothing lost without a drop |
| Broadcast.DropsOnlyWhenFull | internal/api/api.go:194-201 | a step drops a sample exactly when it offers one to a full queue |
| Broadcast.StreamsFollowBroadcasts | internal/api/api.go:189-202 | with one broadcaster, received plus queued is a subsequence of the broadcasts between a stream's joining and its leaving (or now), and all of them without drops |
| MemoryStore.Store.SaveSample | internal/store/memory.go:33-43 | appends and evicts the oldest beyond the cap |
| MemoryStore.Search | internal/store/memory.go:51-53 | on a sorted history the binary search finds the first sample not before the bound |
| MemoryStore.Store.QueryRange | internal/store/memory.go:45-63 | on a history saved in time order, binary search and early break give exactly the stretch of samples between the bounds, both included, for every pair of bounds |
| MemoryStore.Store.LatestSample | internal/store/memory.go:65-73 | the last sample saved, or none |
| MemoryStore.HistoryIsLastSaves | internal/store/memory.go:33-43 | after any saves the store holds the last `MaxSamples` of them, or all when uncapped |
| MemoryStore.SaveThenQuery | internal/store/memory.go:33-73 | after any saves in time order a query filters exactly what the cap has kept |
| ProcStat.ParseOfPrinted | internal/collector/procstat.go:34-77 | for every command name, unbalanced parentheses included, parsing a printed line gives back pid, name, tick sum and resident bytes |
| ProcStat.AcceptedIffShaped | internal/collector/procstat.go:34-77 | the parser accepts exactly the lines of that shape and reads off exactly their figures, with 64-bit wrap-around |
| ProcStat.NoCommIff | internal/collector/procstat.go:34-39 | a line is refused for want of a name exactly when no closing parenthesis follows an opening one |
| ProcStat.ParseUintIff | internal/collector/procstat.go:58-69 | the unsigned figures accepted are exactly the decimals below 2^64, zero-padded or not |
| ProcStat.AtoiIff | internal/collector/procstat.go:41-44 | the pids accepted are exactly the 64-bit decimals with an optional sign |
| TopProcesses.PercentTimesWindow | internal/collector/procstat.go:87-93 | over a window, percentage times seconds is the tick delta, zero when the counter went back |
| TopProcesses.Reader.Read | internal/collector/reader.go:283-340 | each sample has one row with its own pid, name, memory and CPU since the last read; the first min(n, all) of the ranking are listed, 5 when n is not positive; nothing left out ranks above anything kept; the snapshot is replaced, and a failed scan changes nothing |
| TopProcesses.ReadSeries | internal/collector/reader.go:283-340 | over any scans, failed ones included, each read reports against the last successful scan, and the reader ends with that scan's ticks and time |
| TopProcesses.ReportsAddUp | internal/collector/reader.go:309-325 | over any such series the percentages in the rows listed or left out for a process, weighted by their windows, add up to the ticks it gained from scan to scan |
| TopProcesses.SteadyProcessAddsUp | internal/collector/reader.go:309-325 | for a process in every scan whose ticks never go back, that is its last ticks minus its first |
| Config.RulesRoundTrip | internal/config/config.go:165-176 | a rule list survives exactly when all its rules do |
| Config.ServiceRulesRoundTrip | internal/config/config.go:165-176 | the same for service rules |
| Config.LoadTakesHighestLayer | internal/config/config.go:125-144 | every scalar setting is that of its highest-precedence layer that is set (and, for the interval, parseable): flag, environment, file, default; the rules are those the file describes, or none |
| Config.LoadSucceedsIff | internal/config/config.go:125-281 | loading succeeds exactly when the file named, if any, has the JSON extension or none and holds `null` or an object whose settings have their types and whose durations can be read, and the winning interval is positive |
| Config.ConfigFile.SaveFields | internal/config/config.go:188-226 | a save succeeds exactly on a path with the JSON extension or none, a file that is missing, empty or an object, and a write that works; the file then holds the old keys overlaid with the new; else it is left alone, the save being refused, or panicking on a file that holds `null` |
| Config.ConfigFile.SavePollInterval | internal/config/config.go:156-158 | succeeds on the same condition and writes the interval's key only |
| Config.ConfigFile.SaveRules | internal/config/config.go:165-176 | succeeds on the same condition and writes the two rule keys only |
| Config.SavesDecode | internal/config/config.go:188-281 | after any saves the file decodes to what it held, with the last interval and rules saved |
| Config.RestartRestoresSaves | internal/config/config.go:125-226 | after any saves a restart has the flag's interval, else the environment's, else the last one saved if not zero, else the default; it fails exactly when that is not positive, and otherwise gets the last rules back |
| Config.SaveAndRestart | internal/config/config.go:125-226 | the file object, put through any saves with failing writes among them, holds exactly those written, and a restart from it has the last interval and rules written |
| ConfigRaces.SettledFileIsChain | internal/config/config.go:188-226 | for every interleaving of racing saves, once all have returned the file is what a chain of them would make of it one after the other: the last to write, the one whose result it had read, and so on; the others are lost |
| ConfigRaces.BothSurviveIff | internal/config/config.go:188-226 | of an interval save and a rules save both settings are in the file exactly when the first was in place when the second read, or the one overwritten was there before |
| Config.DecodeRuleIff | internal/alerts/alerts.go:82-104 | a JSON rule decodes to the rule it describes, whose repeat interval is not negative, and fails exactly on a missing, unreadable or negative duration |
| Config.DecodeServiceRuleIff | internal/alerts/alerts.go:141-159 | likewise for a service rule |

## Left out

- HTTP transport, JSON text, TLS, headers and status codes: a send is an oracle answering delivered, gone or failed.
- Real files, temp-file renames and permissions: a file is a decoded value replaced whole or not at all.
- Message wording: messages are tagged values carrying the rule and the observed value.
- A missing alert publisher and publish errors: the evaluator only logs them, so `published` records what is handed to the publisher.
- A nil `WidgetNotifier` or publish function: `Notify` then returns at once without touching its state.
- AtomicWrites.SettledHoldsLastStored: writing the temporary file is one step that succeeds; a write torn by another one, and a disk that fails while calls race, are not modelled. Failing writes without races are (`TokenStoreRuns`).
- Publisher.Publish: calls racing with a fan-out change the registry between a send and the next removal, each as one step; `PublishMetrics` differs only in its payload and its error for no devices, and shares the model.
- `Labels` and `Count`: they only read the list that `All` is proved to copy.
- TopProcesses.Reader.Read: `sort.Slice` promises no order among equals, so its stand-in fixes only a ranked arrangement, and the contract says no more.
- MemoryStore.Store.QueryRange: on a history not in time order it promises nothing, as the binary search needs that order.
- Config.LoadTakesHighestLayer: JSON keys are matched exactly, while Go also accepts other letter cases; unknown values are kept as they are, while Go rewrites large numbers as floats.
- Duration text: rendering and parsing are a parameter, assumed inverse where a round trip needs it.
- Floating-point rounding and NaN: metric values are reals.
- The SQLite store, the security audit, the Mosh server, the readers of `/proc`, docker, systemd, pm2 and cron, the command line, and token generation.

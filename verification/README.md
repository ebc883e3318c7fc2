# provide-telemetry, Go SDK: verified model

A Dafny 4.11 model of the hard core of the Go SDK, and proofs about it. `dafny verify dfyconfig.toml` checks
the whole project.

| files | component |
|---|---|
| `Ordering`, `Decimal`, `JsonText`, `CanonicalWalk`, `CanonicalGraph`, `CanonicalPaths`, `CanonicalAny` | canonical JSON (RFC 8785, sections 3.2.2.2, 3.2.2.3 and 3.2.3) over possibly cyclic graphs |
| `Harden`, `HardenWalk`, `HardenSize`, `HardenLocal`, `HardenKeys`, `HardenShared`, `HardenUnfold`, `HardenPlaces`, `HardenShape`, `HardenTwice` | input hardening over possibly cyclic graphs |
| `SinkLock`, `SetupLock` | the log sink's lock protocol and its pooled buffers; the setup mutex beside them |
| `Resilience`, `ResilienceRuns` | circuit breaker and retry loop |
| `Queues`, `Accounting` | backpressure tickets, policy swap, rollback; what a log record counts as |
| `Config`, `ConfigLaws`, `ConfigHeap`, `ProcessState`, `RuntimeSpec`, `RuntimeState`, `RuntimeSession` | runtime generations, setup, update, reload, reconfigure, shutdown |
| `PiiRounds`, `PiiHardened`, `BoundAttrs` | sanitizing in rounds, bound attributes and groups |
| `Common` | definitions several components share |

How the code is rendered:

- Code that updates state is a class or a method with loops (`Canonicalizer`, `Hardener`, `Breaker`,
  `Backpressure`, `LogPipeline`, `Process`, `Package`, `ConfigObject`, `Handler`), proved against a function
  of its inputs or of its old state. The laws are proved about those functions.
- What many goroutines do is a transition system: one step is one critical section or one atomic action,
  steps of different goroutines mix freely, and the theorems hold after every run from the initial state.
- A graph that `Harden` or `CanonicalJSON` walks is a finite map from node ids to nodes. A Go slice is a
  node id (the address of its first element) and a length. Identity in the code is a pair of type and
  address; one id stands for one such pair.
- Text is a sequence of Unicode scalar values. Floats reach canonical JSON as sign, normalized digits and
  exponent; `strconv.FormatFloat` is trusted to deliver them. Integers are unbounded except where the code's
  width matters: the cooldown and the attempt count are wrapped to int64 explicitly.
- Clock readings, random rolls, the environment, validators' verdicts, exporters' outcomes, backends and the
  PII engine are parameters.

What was found:

- **Slices that are prefixes of one another.** A slice and a prefix of it share a first element, so
  `CanonicalJSON` prints `null` for a prefix nested inside its own slice although nothing is cyclic.
  `InFullIffNeverRevisits` states exactly when the text is that of the full unfolding, `AcyclicPrintsInFull`
  that it is on every acyclic graph without such prefixes, `PrefixSharingPrintsNull` the counterexample.
- **Shared parts of typed values.** Any value that is not JSON-shaped is hardened first, and hardening
  expands a shared reference once, where a JSON-shaped map holding it twice is written in full. So one `*int`
  held twice prints as the number and the sentinel (`PointerTwiceCollapses`), and a struct with one map in
  two fields shows the sentinel in the second (`TypedSharingCollapses`). The text is that of the complete
  unfolding if and only if no reference come to a second time stands at a place that is part of the output
  and where something other than the sentinel would have been written (`TypedInFullIff`, on every heap, value
  and, as `InFullIff`, limit). With clean map keys and differing struct names that can be read off the
  unfolding itself: exactly if no reference stands at two of its places, the later not the sentinel anyway
  (`TypedInFullIffUnshared`).
- **A reclaimed name can lose its contents.** In `hardenMap` a sanitized key that is hardened first and then
  discarded for the untouched key of the same name leaves its references crossed. If both hold one map, the
  kept entry is the sentinel and the map's contents appear nowhere (`ReclaimedNameLosesItsMap`);
  `EntryLostIff` states exactly when a kept entry is lost to sharing.
- **A writer that calls `GetLogger` can deadlock.** The documentation of `WithLogOutput` says that logging
  from inside a writer does not. It holds of the sink locks (`NeverDeadlocked`), but `GetLogger` also takes
  the setup mutex, which shutdown and reconfigure hold while they flush. A flushed writer that calls it waits
  for its own goroutine (`FlushThatGetsALogger`); one that calls it while another goroutine comes to flush it
  waits for that goroutine, which waits for the writer (`WriterBesideAShutdown`). `FinishIff` says after
  every run and for every schedule that the calls in flight return if and only if no step of the run was one
  of two: a call from inside a writer by the mutex's owner or by the holder of a sink lock the owner needs,
  or a write or flush by the owner on a sink whose holder asks for the mutex. Writers that never ask are
  safe (`QuietWritersFinish`).
- **A moved log output leaves the published logger behind.** `ReconfigureTelemetry` builds the logger before
  it moves the output, and a logger keeps the sink it was built on. The logger it publishes writes to the sink
  in force if and only if the output did not move (`LoggerFollowsSinkIff`).
- **Attributes past the key cap disappear.** With more distinct keys in a round than the cap, an attribute is
  lost whatever the engine says of it (`PastTheCapOneDisappears`); `RoundKeeps` states which.
- **Whose record settles a probe.** The first record of the signal clears the flag, whoever makes it. A call
  admitted before the circuit opened can settle a probe it did not claim (`FirstRecordSettles`).
- **Cooldown overflow.** `30s << openCount` leaves int64 at `openCount` 29. `CooldownExact` gives the exact
  set of open counts at which the cooldown is right; at all others it is zero or negative and an open
  circuit rejects nobody. One call with thirty retries is enough to get there, because the breaker is
  consulted before a call's first attempt only (`LongOutageIsAdmitted`).
- **Hardening twice.** On values whose struct JSON names come from a given set, `Harden` is idempotent
  exactly when `MaxValueLength` is 0 (or negative) or at least 3 and, unless the depth cap forbids every
  container, no name in the set holds a control character (`IdempotentIff`).
- **Direct updates.** `UpdateRuntimeConfig` keeps the fields a live log exporter was built from exactly
  when its overrides do (`UpdateKeepsLogExportIff`); reload and reconfigure keep them always.
- **Failed setup.** Everything `_captureProcessState` covers is put back, and gates and generation too; the
  health report's setup error is not, and keeps what the failed setup wrote. What other goroutines set
  through the public setters in the meantime, an opt-out of consent included, is undone along with it, unless
  it is set after the rollback has put that very setting back (`FailedSetupAmongOthers`).
- **Releasing a ticket twice** frees a slot held by someone else exactly when the channel has another
  ticket out (`SecondReleaseSteals`).

## Model

| member | source | states |
|---|---|---|
| `Ordering.SortIgnoresIterationOrder` | go/canonicaljson.go:100-107 | the sorted keys of a map are the same whatever order the map is ranged in |
| `Ordering.AscendingUnique` | go/canonicaljson.go:104-107 | two ascending sequences of the same keys are equal, so the member order is unique |
| `Ordering.CollectAndSort` | go/canonicaljson.go:100-107 | collecting keys in an arbitrary order and sorting yields the ascending enumeration of the key set |
| `Ordering.EncodingsInjective` | go/canonicaljson.go:138-142 | UTF-16 encoding and code-point order each separate every two strings, so both orders are total on keys |
| `Decimal.CanonicalDigitsExact` | go/canonicaljson.go:209-251 | in all five ECMAScript cases the text denotes exactly 0.digits x 10^n |
| `Decimal.NormalUnique` | go/canonicaljson.go:199-206 | a normalized pair of digits and exponent is determined by the number it denotes |
| `Decimal.CanonicalDigitsRoundTrip` | go/canonicaljson.go:224-251 | reading the text back and normalizing gives the digits and exponent it was printed from |
| `Decimal.CanonicalDigitsInjective` | go/canonicaljson.go:224-251 | two normalized pairs print alike if and only if they are equal |
| `Decimal.IntegersPrintCanonically` | go/canonicaljson.go:61-66 | strconv's spelling of an integer is the canonical spelling of the float of the same value |
| `JsonText.StringRoundTrip` | go/canonicaljson.go:144-176 | parsing a printed string gives the string back and leaves what follows untouched |
| `JsonText.NumberRoundTrip` | go/canonicaljson.go:178-207 | parsing a printed number gives its sign, digits and exponent back, up to whatever delimits it |
| `JsonText.RoundTrip` | go/canonicaljson.go:42-176 | parsing the canonical text of any JSON value gives the value back and leaves the trailing text untouched |
| `JsonText.PrintInjective` | go/canonicaljson.go:42-176 | two JSON values have the same canonical text if and only if they are equal |
| `CanonicalWalk.ScalarTextIsCanonical` | go/canonicaljson.go:53-66 | every scalar case writes the canonical text of the JSON value it stands for; non-finite floats are null |
| `CanonicalWalk.TreeValid` | go/canonicaljson.go:53-136 | whatever the graph, what is written is a JSON value with normalized numbers, so it can be parsed back |
| `CanonicalWalk.Canonicalizer.Append` | go/canonicaljson.go:46-77 | terminates on every graph, appends exactly the canonical text of the value and leaves the path as on entry |
| `CanonicalWalk.Canonicalizer.AppendObject` | go/canonicaljson.go:92-118 | appends the object's text with members in UTF-16 order and restores the path |
| `CanonicalWalk.Canonicalizer.AppendMembers` | go/canonicaljson.go:109-117 | the member loop appends the members of the sorted keys, comma separated, with the path unchanged after each |
| `CanonicalWalk.Canonicalizer.AppendArray` | go/canonicaljson.go:120-136 | appends the array's text and restores the path |
| `CanonicalWalk.Canonicalizer.AppendItems` | go/canonicaljson.go:129-135 | the item loop appends the items in order, with the path unchanged after each |
| `CanonicalWalk.CanonicalJson` | go/canonicaljson.go:42-44 | returns the canonical text of the value walked from an empty path, values of other Go types inside it or at its root included |
| `CanonicalGraph.TreeUnfolds` | go/canonicaljson.go:46-53 | the walk yields the complete unfolding if and only if no open composite is re-entered |
| `CanonicalGraph.TextIsUnfolding` | go/canonicaljson.go:46-53 | the text is that of the unfolding if and only if no open composite is re-entered |
| `CanonicalGraph.AcyclicPrintsInFull` | go/canonicaljson.go:46-53 | on an acyclic graph whose slices are not prefixes of one another, shared subtrees are written out at every occurrence |
| `CanonicalPaths.NullExactlyAtRevisits` | go/canonicaljson.go:46-136 | on every graph, by position: the output has a path exactly if the graph does and no shorter part of it ends at a composite met twice; there it is null exactly for nil, a non-finite float and a composite the path has met before, and shows the graph's own value otherwise |
| `CanonicalPaths.NoBackEdgeIff` | go/canonicaljson.go:46-53 | the walk meets no open composite if and only if no path meets one twice |
| `CanonicalPaths.InFullIffNeverRevisits` | go/canonicaljson.go:46-53 | the text is that of the full unfolding if and only if no path meets a composite twice |
| `CanonicalPaths.TreeAt` | go/canonicaljson.go:46-136 | what the output has at a position is what the walk writes there with the composites on the way open |
| `CanonicalAny.AnyTextIsHardened` | go/canonicaljson.go:71-76 | the text of any other Go value is the canonical text of what hardening without limits leaves of it |
| `CanonicalAny.SameTextIff` | go/canonicaljson.go:71-76 | two arbitrary Go values have the same text if and only if hardening leaves the same JSON value of both |
| `CanonicalAny.NestedIsHardened` | go/canonicaljson.go:71-76 | a value of another Go type nested in a JSON-shaped one shows, wherever its position is written, what hardening without limits leaves of it, whatever surrounds it |
| `CanonicalAny.TypedInFullIff` | go/canonicaljson.go:46-76 | the text of a typed value is that of its complete unfolding if and only if no reference come to a second time stands at a kept place where something other than the sentinel would be written |
| `CanonicalAny.TypedInFullIffUnshared` | go/canonicaljson.go:46-76 | with clean map keys and differing struct names: if and only if no reference stands at two places of the unfolding, the later not the sentinel anyway |
| `CanonicalAny.PointerTwiceCollapses` | go/canonicaljson.go:71-76 | an array holding one *int twice comes out as the number and the sentinel |
| `CanonicalAny.TypedSharingCollapses` | go/canonicaljson.go:71-76 | a struct with one map in two fields shows the sentinel in the second |
| `CanonicalGraph.PrefixSharingPrintsNull` | go/canonicaljson.go:79-90 | an acyclic list holding a prefix of itself prints null for it |
| `Harden.TraversedAtMostOnce` | go/harden.go:97-189 | in the whole walk no pointer, map or slice is expanded twice, cycles and sharing included |
| `HardenWalk.Hardener.RepeatReference` | go/harden.go:162-169 | reports whether the reference was crossed before and records it |
| `HardenWalk.Hardener.FollowReferences` | go/harden.go:136-160 | the pointer loop ends on every graph, and settles or arrives where following the references leads |
| `HardenWalk.Hardener.HardenOne` | go/harden.go:112-127 | one value is hardened as specified, on the shared reference set |
| `HardenWalk.Hardener.HardenKind` | go/harden.go:238-257 | scalars pass, depth is capped, containers are expanded, everything else is the sentinel |
| `HardenWalk.Hardener.HardenMap` | go/harden.go:345-377 | the loop over the keys, in whatever order the map yields them, computes the specified map |
| `HardenWalk.Hardener.HardenList` | go/harden.go:384-390 | the loop hardens the items in order on one reference set |
| `HardenWalk.Hardener.HardenStruct` | go/harden.go:395-413 | the loop over the fields stops at the key cap and computes the specified map |
| `HardenWalk.Run` | go/harden.go:97-99 | Harden terminates on every finite graph and returns the specified output |
| `HardenSize.OutputBound` | go/harden.go:97-189 | the output has at most one node more than the value and everything reachable from it have child slots |
| `HardenKeys.MapKeepsFirstNames` | go/harden.go:333-377 | the kept names are the first distinct cleaned names in sorted key order up to the cap; each carries the value of the untouched key if there is one, else of the first sanitized key, hardened under the walk exactly as it stood when the loop came to that key |
| `HardenShared.SentinelIff` | go/harden.go:112-189 | a value that leads to a container comes out as the sentinel if and only if one of the references on its way was crossed before |
| `HardenPlaces.EntryLostIff` | go/harden.go:357-375 | a kept entry that leads to a container is the sentinel if and only if a reference on its way is met in the graph before the map or under an entry visited earlier, discarded ones included |
| `HardenShared.ReclaimedNameLosesItsMap` | go/harden.go:357-375 | one map under a sanitized and an untouched key of the same name: the entry is the sentinel and the contents appear nowhere |
| `HardenUnfold.ValuePruned` | go/harden.go:97-189 | whatever the walk crossed before, the output is the complete unfolding with some subtrees replaced by the sentinel and nothing else changed |
| `HardenPlaces.InFullIff` | go/harden.go:97-189 | on every heap, value and limit the output is the complete unfolding if and only if no reference come to a second time stands at a kept place where something other than the sentinel would be written |
| `HardenPlaces.UnsharedInFull` | go/harden.go:97-189 | a value none of whose references stands at two places of its unfolding comes out in full |
| `HardenPlaces.SharedIsLost` | go/harden.go:97-189 | a value with a reference at two kept places, the later not the sentinel anyway, does not |
| `HardenPlaces.InFullIffUnshared` | go/harden.go:97-189 | when no entry gives way to a later one of its name: in full if and only if no reference stands at two places, the later not the sentinel anyway |
| `HardenPlaces.TidyDiscardsNothing` | go/harden.go:345-413 | with map keys free of control characters and differing struct names no entry gives way to another |
| `HardenLocal.ValueLocal` | go/harden.go:97-189 | what comes out for a value depends on the heap and the walk only through the references the value can reach |
| `HardenShape.StringsCapped` | go/harden.go:296-314 | a hardened string has no control characters and at most the limit plus the suffix |
| `HardenShape.ValueCapped` | go/harden.go:112-127 | every string, list and map in the output meets the depth, key-count and length caps |
| `HardenTwice.Fixed` | go/harden.go:112-127 | hardening a fresh copy of a value that meets the caps returns it unchanged and crosses only its own nodes |
| `HardenTwice.HardenIdempotent` | go/harden.go:97-99 | Harden is idempotent when the sentinel fits the length limit and struct names hold no control characters |
| `HardenTwice.IdempotentIff` | go/harden.go:296-314 | for any set of struct names: Harden is idempotent on all values with names from it if and only if the limit is at most 0 or at least the sentinel's length and, unless no depth is allowed, every name is free of control characters |
| `HardenTwice.SentinelCut` | go/harden.go:306-313 | at a limit of 1 or 2 hardening the sentinel shortens it |
| `HardenTwice.UncleanNameChanges` | go/harden.go:395-413 | any struct name with a control character survives the first pass and changes the second |
| `SinkLock.StepKeepsSound` | go/logger_sink.go:86-144 | every step of every goroutine, a TryLock failing on a free lock included, keeps: a lock's holder is the one goroutine with a frame holding it, nesting happens only inside writers, only a goroutine in no other sink call waits |
| `SinkLock.OneWriterPerSink` | go/logger_sink.go:86-107 | in every run at most one goroutine, in one frame, is inside a sink's writer |
| `SinkLock.NoWaitCycle` | go/logger_sink.go:109-120 | in every run a goroutine waiting on a sink lock holds none, so a chain of waits has one link and never closes |
| `SinkLock.RefusedOnlyInsideWriter` | go/logger_sink.go:46-60 | in every run only a caller already inside a host writer, and so holding a lock, is refused |
| `SinkLock.ScanDecides` | go/logger_sink.go:109-120 | a caller that finds the lock taken waits if and only if it holds no sink lock, and is refused if and only if it does |
| `SinkLock.OtherSinkRefusesToo` | go/logger_sink.go:62-65 | a run exists in which a writer of one sink is refused by another sink that a different goroutine holds |
| `SinkLock.ScheduleBounded` | go/logger_sink.go:86-144 | in every schedule the calls already begun take at most the steps counted for them |
| `SinkLock.NeverDeadlocked` | go/logger_sink.go:86-144 | from every reachable state, in every schedule in which host writers return and begin nothing new, steps run out only when every call has returned and every lock is free |
| `SinkLock.WriterSeesItsOwnLine` | go/logger_sink_handler.go:26-30 | in every run a write's buffer holds the line rendered for it and no other call in flight uses it |
| `SinkLock.InsideHostWriterScan` | go/logger_sink.go:157-184 | the growing stack scan ends and finds a writer frame if and only if the whole stack has one |
| `SetupLock.StepKeepsSound` | go/setup.go:102-106 | every step keeps: whoever asks for the mutex runs host code, and what its owner was called from is inside a writer |
| `SetupLock.DoomedAfterIff` | go/setup.go:82-88 | after any step of any goroutine calls are caught in a cycle of the mutex and a sink lock if and only if they were before or the step is one of the two that close it, which is decided before the step |
| `SetupLock.FinishIff` | go/setup.go:82-88 | after every run and in every schedule the calls in flight take a bounded number of steps, and have then all returned if and only if no step of the run closed such a cycle |
| `SetupLock.QuietWritersFinish` | go/logger_sink.go:109-120 | if no writer asks for the mutex, every call returns in every schedule |
| `SetupLock.SinksRun` | go/logger_sink.go:86-144 | with the mutex left out a run is a run of the sinks, so what holds of every such run holds here |
| `SetupLock.FlushThatGetsALogger` | go/setup.go:395-421 | a run in which a writer flushed by shutdown calls GetLogger and waits for its own goroutine |
| `SetupLock.WriterBesideAShutdown` | go/setup.go:395-421 | a run in which a writer that calls GetLogger and a shutdown that flushes it wait for each other |
| `Resilience.CooldownExact` | go/mutation_constants.go:26-29 | the int64 cooldown is min(30 x 2^n, 1024) s if and only if n is at most 28 or one of ten larger values; otherwise it is at most 0; when right and n is positive it is 60 to 1024 s |
| `Resilience.StepsKeepOk` | go/resilience.go:84-140 | check and record steps keep: probing implies three timeouts in a row implies openCount of at least 1; the clamp at zero never acts |
| `Resilience.ReportAgreesIff` | go/resilience.go:142-164 | GetCircuitState and the next check at the same clock agree if and only if the difference they compare fits int64 |
| `Resilience.ReportAgrees` | go/resilience.go:142-164 | they agree, and the remaining time is the intended one, whenever the cooldown is right and the clock did not run backwards |
| `Resilience.OpenRejectsUntilCooldown` | go/resilience.go:84-105 | an open circuit rejects for exactly the intended cooldown when it is right, and not at all when it overflowed |
| `Resilience.TimeoutsInARow` | go/resilience.go:121-140 | k timeouts in a row leave openCount at max(0, k - 2) and the last one's time as the trip time |
| `Resilience.LongOutageIsAdmitted` | go/resilience.go:84-105 | after 31 timeouts in a row the next call is admitted at once; up to 30 it is rejected for at least a minute |
| `Resilience.Attempts` | go/resilience.go:170-173 | between 1 and 101 attempts, Retries + 1 inside that range, and 1 for negative or wrapped values |
| `Resilience.Breaker.CheckCircuitBreaker` | go/resilience.go:83-105 | verdict and new state are those of the one-signal breaker; other signals are untouched |
| `Resilience.Breaker.RecordAttemptSuccess` | go/resilience.go:107-119 | new state of the signal's breaker; other signals are untouched |
| `Resilience.Breaker.RecordAttemptFailure` | go/resilience.go:121-140 | new state of the signal's breaker; other signals are untouched |
| `Resilience.Breaker.RunWithResilience` | go/resilience.go:166-222 | the loop tries up to the first success, records every attempt in order, counts retries and failures exactly, and returns the circuit error, the last error or nil as policy says |
| `ResilienceRuns.StepKeepsSound` | go/resilience.go:83-222 | every step of every call on every signal keeps the breaker sound and every probe flag owned |
| `ResilienceRuns.BreakerBounds` | go/resilience.go:84-140 | in every interleaving probing implies three timeouts, these imply openCount of at least 1, the clamp never acts, and up to openCount 28 an open cooldown is 60 to 1024 s |
| `ResilienceRuns.ProbeHasOwner` | go/resilience.go:84-140 | a set probe flag belongs to a call in flight that has recorded nothing; with no call in flight no flag is set |
| `ResilienceRuns.FirstRecordSettles` | go/resilience.go:107-140 | a probe stays its claimant's until the signal's first record, which clears the flag whoever makes it; the claimant still has nothing recorded if and only if the record was another call's |
| `ResilienceRuns.NoneAdmittedWhileProbing` | go/resilience.go:92-94 | while the flag is set every timeout-enabled call is turned away and changes nothing |
| `ResilienceRuns.ReportMatchesNextCheck` | go/resilience.go:142-164 | in every reachable state with openCount at most 28 the report agrees with the next check |
| `ResilienceRuns.AllFinish` | go/resilience.go:184-222 | if exporters return, then in every schedule and with every outcome the calls in flight take a bounded number of steps, and only a system without calls, with no signal probing, can do no more |
| `ResilienceRuns.CallBounded` | go/resilience.go:184-222 | however many other calls enter and record meanwhile, one call takes at most one consultation and 101 attempts |
| `Queues.Backpressure.SetQueuePolicy` | go/backpressure.go:58-77 | policy and channels replaced; the old channels stay as they were |
| `Queues.Backpressure.TryAcquireSlot` | go/backpressure.go:101-126 | ticket, channel and drop counter as specified, unknown signals and unlimited queues included |
| `Queues.Backpressure.ReleaseSlot` | go/backpressure.go:128-139 | frees a slot of the ticket's own channel, if it has one and it is not empty |
| `Queues.RebuildAppends` | go/backpressure.go:58-70 | a swap makes new empty channels of the policy's sizes and leaves every older channel as it was |
| `Queues.StepKeepsSound` | go/backpressure.go:63-139 | acquire, release, swap, setup and rollback each keep occupancy equal to the tickets out, within capacity |
| `Queues.OccupancyIsHeldTickets` | go/backpressure.go:63-139 | in every run, for every channel ever created, occupancy is the number of unreleased tickets bound to it and within capacity |
| `Queues.RefusedExactlyWhenFull` | go/backpressure.go:101-126 | a known signal is refused if and only if it is limited and that many tickets of its present channel are out; the refusal is counted |
| `Queues.ReleaseFreesItsOwnSlot` | go/backpressure.go:128-139 | releasing a held ticket frees one slot of its own channel and touches no other |
| `Queues.StaleReleaseFreesNothingNew` | go/backpressure.go:58-70 | after a swap, releasing any older ticket leaves the queues in force empty and whole |
| `Queues.RollbackKeepsBudget` | go/setup_rollback.go:38-86 | a failed setup puts back the very channels it found; tickets out keep their slots, so no fresh budget appears |
| `Queues.SecondReleaseSteals` | go/backpressure.go:128-139 | a second release breaks the account if and only if another ticket is out on that channel |
| `Queues.DoubleReleaseOversubscribes` | go/backpressure.go:128-139 | a ticket released twice lets a queue of one hand out two |
| `Accounting.ConsentNarrows` | go/consent.go:67-92 | a stricter consent admits strictly fewer levels, and a consent that admits a level admits every more severe one |
| `Accounting.LogPipeline.Handle` | go/logger.go:77-152 | exactly one of emitted and dropped moves, by one, as the three gates decide; the slot taken is back on return |
| `Accounting.StepKeepsSound` | go/logger.go:87-152 | every step of every record in flight keeps the counters and the tickets in balance |
| `Accounting.EmittedPlusDropped` | go/logger.go:87-152 | in every run, with consent, sampling and queue policies changing, emitted plus dropped is the number of finished records plus those counted and returning; none is both |
| `Accounting.TicketsReturned` | go/logger.go:113-123 | in every run a finished record holds no ticket; with no record in flight only other signals hold tickets |
| `ConfigLaws.OverridesLaws` | go/runtime.go:180-235 | empty overrides change nothing, a whole config as overrides takes over all but identity, Tracing and Metrics, applying twice is applying once, and the old config as overrides undoes it |
| `ConfigLaws.HotFieldsLaws` | go/runtime.go:419-446 | reconfiguring takes over all but the cold part and the log exporter's fields, never asks for a provider restart, and is undone by reconfiguring back |
| `RuntimeSpec.RejectedChangesNothing` | go/runtime.go:81-136 | in every reachable state a rejected call, a setup failing in wiring included, leaves the runtime as it was |
| `RuntimeSpec.ColdFieldsFrozen` | go/runtime.go:373-446 | between setup and shutdown no run of calls changes identity, Tracing or Metrics, maps and slices included |
| `RuntimeSpec.UpdateKeepsLogExportIff` | go/config.go:219-223 | an accepted update keeps the log exporter's fields if and only if its overrides do |
| `RuntimeSpec.LogExportFrozen` | go/runtime.go:120-128 | with a live log provider no run of reloads, reconfigures and updates within their contract changes the log exporter's fields |
| `RuntimeSpec.ReloadAgreesWithReconfigure` | go/runtime.go:427-439 | reload and reconfigure of one environment publish the same config if and only if the log exporter's fields did not drift |
| `RuntimeSpec.NumbersIncrease` | go/runtime_generation.go:70-86 | along every run generation numbers never fall, and a number names one config for good |
| `RuntimeSpec.PublishingIncreases` | go/runtime_generation.go:78-86 | every accepted call publishes under a number above all earlier ones |
| `RuntimeSpec.GatesFrozen` | go/runtime.go:67-70 | between setup and shutdown the tracing and metrics gates do not move |
| `ConfigHeap.ConfigObject.Clone` | go/setup.go:108-126 | same contents, no map or slice shared |
| `ConfigHeap.ConfigObject.ApplyRuntimeOverrides` | go/runtime.go:194-235 | the config takes the overrides' contents and none of the caller's maps or slices |
| `ConfigHeap.ConfigObject.ApplyHotFieldsOf` | go/runtime.go:419-446 | the config takes the target's hot contents, keeps cold and log-exporter fields, and shares nothing with the target |
| `ProcessState.Process.ApplyRuntimePolicies` | go/setup.go:128-166 | sampling, queues, exporter policies, logger and strict flag all follow the config |
| `ProcessState.Process.SetSamplingPolicy` | go/sampling.go:55-74 | unknown signals are refused; rates are clamped into a table of the policy's own, none for nil overrides, so no earlier table is written |
| `ProcessState.Process.ConfigureLogger` | go/logger.go:600-607 | a new logger bound to the sink in force becomes the default; the default from before the first one is kept |
| `ProcessState.Process.CaptureProcessState` | go/setup_rollback.go:38-71 | the snapshot is the state a setup overwrites |
| `ProcessState.Process.RestoreProcessState` | go/setup_rollback.go:73-101 | that state is the snapshot again, channels included; a console prepared before the setup stays prepared |
| `ProcessState.Process.FailedSetupAmongOthers` | go/setup_rollback.go:73-101 | a failing setup puts every setting back whatever other goroutines set before and during its rollback, but for what they set after that very setting was put back |
| `RuntimeState.Package.PublishGeneration` | go/runtime_generation.go:70-86 | config, gates and a new number are published together; nothing published earlier is written |
| `RuntimeState.Package.UpdateRuntimeConfig` | go/runtime.go:78-97 | does what the value-level runtime does, writes no published config and shares nothing with the overrides |
| `RuntimeState.Package.ReloadRuntimeFromEnv` | go/runtime.go:99-136 | likewise; a drifted log exporter field with a live provider is rejected |
| `RuntimeState.Package.ReconfigureTelemetry` | go/runtime.go:269-317 | likewise; the returned config is a copy apart from everything published, the published logger is the new one, bound to the sink from before, and a rejected call leaves the process state alone |
| `RuntimeState.Package.LoggerFollowsSinkIff` | go/runtime.go:311-315 | the logger a reconfigure publishes writes to the sink in force if and only if the output did not move |
| `RuntimeState.Package.GetRuntimeConfig` | go/runtime.go:16-25 | returns a copy with the contents in force, sharing nothing with anything ever published |
| `RuntimeState.Package.LoadRuntimeGeneration` | go/runtime_generation.go:55-68 | number and contents of the active generation, in a copy sharing nothing |
| `RuntimeState.Package.SetupTelemetry` | go/setup.go:168-268 | does what the value-level runtime does; the returned config is apart; a setup that fails leaves policies, channels, consent, loggers, sink, gates and generation as before |
| `RuntimeState.Package.ShutdownTelemetry` | go/setup.go:395-431 | the generation is retired and nothing published is written |
| `RuntimeSession.Session` | go/runtime_generation.go:15-29 | over every run of calls, updates with any partial overrides included, with a host overwriting and cross-linking every config it holds, each config ever published keeps the contents it was published with and shares no object with the host's |
| `PiiRounds.Occurrences` | go/logger_pii_order.go:63-76 | each attribute's round is the number of earlier attributes with its key |
| `PiiRounds.RoundCount` | go/logger_pii_order.go:78-88 | one more than the highest round |
| `PiiRounds.RoundHoldsKeyOnce` | go/logger_pii_order.go:66-67 | no two attributes share both key and round |
| `PiiRounds.RoundPayload` | go/logger_pii_order.go:90-100 | the map of a round holds exactly its attributes, each under its key with its own value |
| `PiiRounds.RebuildInOrder` | go/logger_pii_order.go:111-127 | the loop takes each attribute's value from its round, in order, skipping absent ones |
| `PiiRounds.SanitizeAttrs` | go/logger_pii_order.go:26-30 | for an engine that judges each entry alone, splitting into rounds and rebuilding equals judging the attributes one by one |
| `PiiHardened.SortedAlone` | go/harden.go:345-377 | hardening a map that fits the cap, with clean keys and entries that share no reference, hardens each entry as if alone |
| `PiiHardened.RoundKeeps` | go/harden.go:345-377 | hardening a round keeps exactly the first keys in byte order up to the cap, each with its own value hardened under the walk as it stood when the loop came to it |
| `PiiHardened.PastTheCapOneDisappears` | go/harden.go:345-377 | with more distinct keys than the cap, some attribute of the round is gone after hardening |
| `PiiHardened.ApplyPii` | go/logger.go:347-372 | on every record an attribute comes out, in its place, exactly if hardening kept its key in its round and the engine keeps what came of it; this equals hardening and judging the attributes one by one when the distinct keys fit the cap and the attributes of a round share no reference |
| `PiiRounds.RebuildIsOneByOne` | go/logger_pii_order.go:26-30 | whenever each round holds, for each of its attributes, what judging it alone gives, rebuilding equals judging one by one |
| `PiiRounds.KeepingAllKeepsEveryDuplicate` | go/logger_pii_order.go:15-19 | an engine that drops nothing keeps every attribute, duplicates included, in its place |
| `BoundAttrs.Handler.ApplyBoundAttrs` | go/logger.go:163-195 | the reverse loop over the handler's steps computes the fold |
| `BoundAttrs.AppliedMeansForward` | go/logger.go:163-195 | flattened, the fold places every attribute, in order, under exactly the groups open when it was bound |
| `BoundAttrs.AppliedIsFull` | go/logger.go:185-188 | no empty group is left at any depth |
| `BoundAttrs.NothingPlacedNothingLeft` | go/logger.go:185-188 | the result is empty if and only if no attribute was bound or logged |
| `BoundAttrs.Handler.WithAttrs` | go/logger.go:48-62 | a new handler with the attributes appended, in arrays of its own; no existing handler changes |
| `BoundAttrs.Handler.WithGroup` | go/logger.go:64-74 | a new handler with the group appended; no existing handler changes |
| `BoundAttrs.Session` | go/logger.go:154-161 | over every run of WithAttrs, WithGroup and host overwrites at any index, every handler keeps the meaning it was made with and reaches no array of the host's |

## Left out

- The Python, TypeScript, Rust and C# SDKs, and `scripts/`, `ci/`, `spec/`, `e2e/`.
- `go/otel`, the backend's own work and TLS: a backend is whether it fails and whether it wraps the logger.
- `piicore`, `schemacore`, `fingerprintcore`, hashing and regular expressions: the PII engine is a function parameter.
- Environment parsing and validators: their results are parameters; each branch settles itself.
- `go/cardinality.go`, `go/propagation.go`, `go/slo.go`, `go/classification.go`: a foreign cache, or simple tables.
- Pretty rendering, colours, call sites and what preparing a console changes.
- CanonicalJson: a nested value of another Go type is held as the outcome of hardening it, embedded at nodes of its own; that it shows exactly that is `NestedIsHardened`.
- Invalid UTF-8: every bad byte prints as U+FFFD, so injectivity is stated on Unicode text.
- Slices of one backing array that start at different offsets are separate nodes; their overlap in memory is not modelled.
- `Flush` on a writer without a Flush method, which returns before touching the lock.
- FinishIff: the setup calls are which goroutine asks for the mutex and which sinks it writes to while holding it; their other work is the subject of `RuntimeState`.
- Panics outside the sink's recover boundary, and host writers that block on other goroutines.
- NeverDeadlocked: bounds the steps of every schedule; that the scheduler and the mutex go on scheduling is Go's.
- ApplyPii: that its value equals judging one by one is stated under a sufficient condition; a reference shared below the depth cap does no harm and is excluded all the same. The class tags the engine adds are assumed not to be under a key of the record.
- SharedIsLost: an identity is a pair of type and address, so a byte slice never has a pointer's; the model's ids carry no type, and the lemma asks for this.
- RunWithResilience: one call with no other caller in between; interleaved calls are the subject of `ResilienceRuns`. Backoff sleeps and latency records have no effect here.
- EmittedPlusDropped: counts records; a direct call of `ShouldSample` or `TryAcquire` for logs that is refused also moves the drop counter and is not part of these runs.
- Attempts: Retries is an int64.
- Overflow of the timeout, open and generation counters themselves, each of which needs 2^63 steps.
- `GetSamplingPolicy` returns the live overrides table; a caller writing into it is outside the rollback result.
- A nil map or slice in a config is an empty object of its own, so nil and empty are not told apart.
- SetupTelemetry: options are applied before the call; the order of several `WithConfig` options is not modelled. Setters that run beside a failing setup are the subject of `FailedSetupAmongOthers`.
- ReconfigureTelemetry: flushing the old sink when the destination moves is not modelled.
- `_stampRootFields`, context fields, schema annotation and error fingerprints, which only add easy members.

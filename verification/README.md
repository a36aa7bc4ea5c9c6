# p6e, modelled and proved in Dafny

p6e compiles a YAML pipeline into a typed graph of steps, runs that graph with one
coordinating goroutine per run, and serves many pipelines from one daemon. This project
models those parts and proves what they promise each other:

- **The compiler** (`Source`, `Faults`, `Names`, `Cycles`, `Resolution`, `Layout`,
  `Compiler`, `Binding`). What makes a file acceptable, and each thing that can be wrong
  with one, is stated over names alone, with no index, no colour and no buffer in sight.
  The compiler is an object that collects problems phase by phase, as in the source; it is
  proved to hand out a plan exactly for the acceptable files and to report exactly the
  faults of the others, and every plan has the shape the scheduler relies on and never
  rechecks.
- **One run** (`RunModel`, `RunReadiness`, `RunInvariant`, `RunStart`, `RunTheorems`,
  `RunOutcome`, `RunValues`, `RunCauses`, `Retries`, `Scheduler`). A run is a state
  machine: the coordinator, its step goroutines, the done channel, the slot pool, the caller and the
  abandon timer each move one atomic step at a time, and the `select` is a free choice
  among what is enabled. The theorems hold of every run of every length. `Scheduler` is
  the coordinator itself, an object with the source's fields whose methods are proved
  against the state machine: the object always stands at the end of a run it has recorded,
  so every theorem about runs is a theorem about it, and its loop is proved to terminate.
- **Many runs** (`SharedSlots`). Any number of runs started at any time against one pool.
- **Serving** (`Serving`, `Daemon`, `Quarantine`, `Admission`). From an accepted file to
  what every run of it does; then admission, drain and quarantine as any number of threads, one atomic
  operation at a time, over the shared counters, the read/write lock and the wait group.
- **Templates** (`Template`). The parser and renderer behind `text.format`.

`Collections`, `Nodes` and `Pipeline` hold what the others share: sums over sequences,
values and the typed adapters, and the plan.

A node's body is a relation between arguments and outcomes, so a body may fail whenever it
likes (a recovered panic is a failure) and may never come back. Confluence is the one
result that asks for more: that a body which succeeds always produces the same data from
the same arguments.

Three results are about where a promise stops:

- A template whose placeholder name ends in a brace, such as `{{a} }}`, does not survive
  being printed and parsed again. `PrintReparses` gives the exact condition.
- The doubling of a retry delay wraps in 64 bits. `DelayExact` says when a delay is what
  the policy says, `WrapsOnlyAfterLongWait` that a step must first have waited 2^62
  nanoseconds, and `DelayCanWrap` that the wrap is reachable by a policy the parser accepts.
- The list form of `needs` is safe against swaps exactly for ports of pairwise distinct
  types (`TypeDistinctIsSwapProof`), which is the rule the compiler applies.

`dafny verify dfyconfig.toml` checks the whole project.

## Model

| member | source | states |
|---|---|---|
| `Compiler.Compile` | internal/pipeline/compiler.go:51-82 | A plan is returned if and only if the file is acceptable, stated over names; it is well formed (inputs first, windows tile the buffer, dependents transpose dependencies, roots exact, every port fed once at its type, acyclic) and says what the file says; otherwise the problems are exactly the file's faults: each problem is one, each fault but a cycle is a problem, and of cycles exactly one is shown. |
| `Resolution.PlanSaysTheFile` | internal/pipeline/compiler.go:451-544 | The plan of an accepted file, field by field: each step's node is what its registered constructor built from its configuration, its retry is the one written or a single attempt, its dependencies are its list in order or its mapping by port name; the trigger is the one built, with the timeout and policy written, allow by default exactly for a trigger that answers a caller, and the step named to reply. |
| `Compiler.Compilation.Check` | internal/pipeline/compiler.go:63-76 | After all phases the problems are exactly the file's faults, whatever the earlier phases found, and everything a plan is made from has been found as far as it can be. |
| `Faults.AcceptableIsFaultless` | internal/pipeline/compiler.go:45-48 | A file is acceptable if and only if it has no fault, where each fault says over names what is wrong and what is left unjudged. |
| `Resolution.NothingReported` | internal/pipeline/compiler.go:78-81 | A report of exactly the faults is empty if and only if the file is acceptable. |
| `Compiler.Compilation.constructor` | internal/pipeline/compiler.go:51-61 | Inputs lead, then steps, each group sorted and duplicate-free, and the index finds every name at its place. |
| `Compiler.Compilation.ResolveInputs` | internal/pipeline/compiler.go:134-145 | Adds a problem for each input of an unregistered type and no other; keeps each registered type and leaves the others unknown. |
| `Compiler.Compilation.Resolve` | internal/pipeline/compiler.go:295-319 | Adds a problem for each step whose node does not build and no other; every position holds the node its name resolves to. |
| `Compiler.Compilation.CheckDependencies` | internal/pipeline/compiler.go:321-329 | Adds a problem for each name a step needs that does not exist, attributed to that step, and no other. |
| `Compiler.Compilation.CheckCycles` | internal/pipeline/compiler.go:333-387 | Adds one problem exactly when the needs go in a circle, carrying names each of which needs the next; otherwise yields an order in which every position follows what it needs. |
| `Cycles.CheckCycles` | internal/pipeline/compiler.go:333-371 | Reports exactly the graphs that have a cycle; what is reported is one; without a report the finishing order is a topological order of all positions. |
| `Cycles.Walk.Visit` | internal/pipeline/compiler.go:342-364 | Either a cycle is reported, or the position and everything below it is finished in topological order, the path is restored and nothing already coloured changes colour. |
| `Cycles.Walk.ReportCycle` | internal/pipeline/compiler.go:373-387 | The stretch of the path from where it closes is a cycle of the graph. |
| `Cycles.OrderedHasNoCycle` | internal/pipeline/compiler.go:333-371 | A graph with a topological order of all its positions has no cycle. |
| `Compiler.Compilation.ResolveNeeds` | internal/pipeline/compiler.go:451-476 | Adds, for that step, each way in which its needs do not fit its ports and nothing else; succeeds exactly when there is none, and then each port gets the position of the step bound to it. |
| `Compiler.Compilation.ResolveNamedNeeds` | internal/pipeline/compiler.go:481-506 | Adds a problem for each port not bound and each name of no port, and no other; succeeds exactly when there is none. |
| `Compiler.Compilation.CheckEdges` | internal/pipeline/compiler.go:391-433 | Whatever the earlier phases found: adds exactly the faults of every step whose node built and whose needs exist, comparing an edge only where what it carries is known; keeps the dependencies of every step whose needs fit, in port order, and none of any other. |
| `Compiler.Compilation.CheckSupplied` | internal/pipeline/compiler.go:190-205 | Whatever the earlier phases found: adds a problem for each input of known type that the trigger does not supply, or supplies at another type, and no other. |
| `Compiler.Compilation.ResolveRespondWith` | internal/pipeline/compiler.go:232-265 | Whatever the earlier phases found: adds exactly what is wrong with the reply, nothing if its type is not known; finds the step when the reply can be written, and -1 otherwise. |
| `Compiler.Compilation.ResolveTrigger` | internal/pipeline/compiler.go:169-228 | Whatever the earlier phases found: adds exactly the faults of the trigger block; binds a trigger that was built with its timeout, its policy or the default for its kind, and its responding step. |
| `Resolution.NeededSteps` | internal/pipeline/config.go:183-192 | Lists exactly the steps referenced: as written in a list, by ascending port name in a mapping. |
| `Resolution.PlanIsTyped` | internal/pipeline/compiler.go:391-433 | What the edges promise by name holds of the plan's positions. |
| `Resolution.PlanIsAcyclic` | internal/pipeline/compiler.go:333-371 | The finishing order of the walk ranks every step of the plan after everything it consumes. |
| `Names.Sorted` | internal/pipeline/parser.go:134-153 | The names in ascending order, each once. |
| `Names.SortedIsUnique` | internal/pipeline/parser.go:134-153 | There is only one such order. |
| `Names.LessIsLexicographic` | internal/pipeline/parser.go:134-153 | The order is by the first place where two names differ, a name before every longer one that begins with it. |
| `Resolution.PlanIsDetermined` | internal/pipeline/compiler.go:51-61 | Two plans that both meet what is promised for one file and its registries agree on names, nodes, policies, dependencies, windows, inputs and trigger, and on roots and dependents up to order; so nothing in a plan depends on map iteration. |
| `Layout.LayOut` | internal/pipeline/compiler.go:510-544 | Windows tile the buffer, dependents are the exact multiset transpose of dependencies, roots are exactly the computing steps without dependencies, and every entry keeps what was resolved for it. |
| `Layout.Place` | internal/pipeline/compiler.go:513-536 | Each window starts where the last one ended, inputs are listed with their types and positions, and the roots are exactly the computing positions without dependencies. |
| `Layout.Transpose` | internal/pipeline/compiler.go:538-542 | Step u is recorded with d once for each port of u fed by d, and nothing else of a step changes. |
| `Pipeline.WindowsPartitionBuffer` | internal/runtime/scheduler.go:115-120 | Windows that lie end to end are pairwise disjoint, stay inside the buffer and leave no cell of it unowned. |
| `Binding.TypeDistinctIsSwapProof` | internal/node/descriptor.go:51-64 | Pairwise distinct port types hold if and only if no well-typed list has another well-typed arrangement. |
| `Binding.NoSilentSwap` | internal/pipeline/compiler.go:451-476 | If a positional list and a rearrangement of it both compile, they are the same list. |
| `Binding.AmbiguousNodesBindByName` | internal/pipeline/compiler.go:451-506 | In an accepted file a node with two ports of one type is bound by a mapping, and a mapping names all of its node's ports and no others. |
| `Nodes.Descriptor.AmbiguousInputs` | internal/node/descriptor.go:51-64 | Ambiguous exactly when two ports share a type; the type reported is the first such in port order, with the names of all its ports. |
| `Nodes.RuntimeNode.ExecuteN` | internal/node/node.go:206-221 | Unwrapping one argument at a time gives the same result as judging all of them, and the body is called exactly on the inputs the descriptor admits, its k-th argument being the data the k-th input refers to. |
| `Nodes.AdapterMeetsDescriptor` | internal/node/node.go:152-249 | Each adapter reaches its body exactly on inputs of its descriptor's number and types; then a failure is handed on as reported and data at the declared output type; any other number of inputs is arity_mismatch, any other type type_mismatch. |
| `Nodes.DescriptorsAre` | internal/node/node.go:81-143 | How many ports each adapter has, their names in order, and the types it was built for. |
| `Nodes.PossibleIsDone` | internal/node/node.go:152-231 | On inputs the descriptor admits, whatever a node can return is what its body may do with the data they refer to, in port order. |
| `RunStart.BeginHasInv` | internal/runtime/scheduler.go:217-222 | Once the inputs are recorded the invariant holds, every input is recorded with the value supplied under its name or with what is wrong with it, and the run has stopped if and only if some input is missing or of another type. |
| `RunReadiness.ReleaseEffect` | internal/runtime/scheduler.go:203-208 | Every count drops by its multiplicity among the dependents; exactly those that reach zero are queued, once each. |
| `RunInvariant.EventKeepsInv` | internal/runtime/scheduler.go:269-308 | Every event of the coordinator or of a step goroutine keeps the whole invariant. |
| `RunTheorems.ReadinessThroughout` | internal/runtime/scheduler.go:191-209 | At every moment of every run: until it stops, unmet counts exactly the unsatisfied positions and the queue is exactly the steps that may run; the queue is duplicate-free and no longer than the plan; whatever started had all dependencies succeeded; a sender always finds room in the channel. |
| `RunTheorems.StopSafety` | internal/runtime/scheduler.go:181-200 | Over any stretch of any run: steps start at most once; stopping has exactly one of two reasons and arms the deadline; afterwards nothing starts and neither reason nor deadline changes; giving up happens only after stopping. |
| `RunTheorems.StopsFor` | internal/runtime/scheduler.go:191-200 | The caller's end stops a run that has not stopped as cancelled, the first failure recorded as failed at that step, and neither changes what an earlier stop said. |
| `RunTheorems.StoppingArms` | internal/runtime/scheduler.go:181-187 | The deadline is armed by the event that stops the run, at that moment. |
| `RunTheorems.LimitsHold` | internal/runtime/scheduler.go:231-262 | At every moment no more steps are out than the run's cap, 256 by default; a run that did not ask for it never inlines, and inlining happens with nothing else out. |
| `RunTheorems.InlinesExactly` | internal/runtime/scheduler.go:231-236 | A step is inlined exactly when that was asked for, the run has not stopped, nothing is out, one step is ready and a slot is free. |
| `RunTheorems.LaunchesExactly` | internal/runtime/scheduler.go:170-178 | While pumping, the next step is launched exactly when there is one, the run has not stopped, its cap leaves room and a slot is free. |
| `RunTheorems.GoroutinesMove` | internal/runtime/scheduler.go:157-166 | A step goroutine sends exactly when its node may return, and gives its slot back exactly after it has sent. |
| `RunTheorems.ArmsAre` | internal/runtime/scheduler.go:287-306 | Each arm of the select is enabled exactly when there is a completion, a caller not yet heard of, an armed deadline, or work that lacks only a slot that is free. |
| `RunOutcome.MovesBurnFuel` | internal/runtime/scheduler.go:269-308 | Each launch, completion and caller-done event takes exactly one from twice the unstarted steps plus those out plus the pending caller; every other move keeps it, and every move lowers the fuel. |
| `RunOutcome.RunsAreFinite` | internal/runtime/scheduler.go:269-308 | No run is longer than 16 times the plan plus 15 moves, and its coordinator handles at most two events per computing step and one more. |
| `RunOutcome.Completeness` | internal/runtime/scheduler.go:278-285 | A run that ends without failing has every step succeeded. |
| `RunOutcome.FinalPartition` | internal/runtime/scheduler.go:330-353 | After finalize nothing is pending or running; a computing step is skipped exactly when it never started, and always when something it consumes did not succeed; values exist only on successes; a step still going is cancelled, as a broken promise if its node claimed to honour cancellation and as abandoned otherwise, and every other record stands, cancelled exactly for a cancellation; the abandoned are exactly those out at give-up, at most the cap; failed holds exactly when there is an error, which is the failed step's own or the cancellation. |
| `RunOutcome.BadInputRunsNothing` | internal/runtime/executor.go:148-159 | If any declared input is not supplied, or is supplied as another type, no node ever runs. |
| `RunValues.InvocationsWellTyped` | internal/runtime/scheduler.go:115-128 | Every step handed out reads exactly its node's arity of values, each of its port's declared type. |
| `RunValues.MismatchUnreachable` | internal/node/node.go:152-249 | So the adapter always reaches its body, and what a caller gets is the body's failure as reported, or its data at the declared type. |
| `RunValues.RecordedValuesTyped` | internal/runtime/executor.go:162-179 | Every recorded success carries the type its edge declares. |
| `RunValues.RunComputesEval` | internal/runtime/scheduler.go:157-178 | The value of every succeeded step is the recursive evaluation of the graph on the supplied inputs, with no scheduler in sight. |
| `RunValues.Confluence` | internal/runtime/scheduler.go:269-308 | Two runs of one plan on the same inputs agree on every step both completed, whatever the interleaving, limits, pool or inlining. |
| `RunCauses.OutcomesHaveCauses` | internal/runtime/scheduler.go:115-128 | At every moment of every run, a computing step that succeeded did so because its body yields that data from the data recorded of the steps it consumes, in port order; and the error of one that did not is a failure of its body on that data, as reported, or a cancellation. |
| `Scheduler.Run` | internal/runtime/executor.go:107-141 | The run driven by the coordinator is a run of the model, and its result is what finalize makes of that run's last state; if it is no failure, every step succeeded; without a result the run has not stopped, and its coordinator is inside a node or blocked with nothing to receive. |
| `Scheduler.WaitingForSomething` | internal/runtime/scheduler.go:275-306 | A coordinator so blocked is waiting for a node that has not come back or for a slot of a shared pool. |
| `Scheduler.Coordinator.constructor` | internal/runtime/scheduler.go:64-103 | Builds the model's initial state. |
| `Scheduler.Coordinator.Record` | internal/runtime/executor.go:162-179 | Writes one step's record and nothing else, and reports exactly the failures. |
| `Scheduler.Coordinator.WindDown` | internal/runtime/scheduler.go:181-187 | Arms the deadline once and never moves it. |
| `Scheduler.Coordinator.HandleCompletion` | internal/runtime/scheduler.go:191-209 | Moves the whole state as the model's handling of a completion does. |
| `Scheduler.Coordinator.CountDown` | internal/runtime/scheduler.go:203-208 | The loop over the dependents releases what the recursive definition releases. |
| `Scheduler.Coordinator.Prepare` | internal/runtime/scheduler.go:115-128 | Writes the dependencies' values into the step's own window of the shared buffer, in port order, and marks it running. |
| `Scheduler.Coordinator.LaunchNext` | internal/runtime/scheduler.go:157-166 | Starts the next queued step, which from then on holds a slot. |
| `Scheduler.Coordinator.TryTake` | internal/runtime/scheduler.go:133-143 | Only a shared pool can refuse. |
| `Scheduler.Coordinator.Pump` | internal/runtime/scheduler.go:170-178 | Extends the run until it has stopped, nothing may start, or the pool is full, and stays within pumping. |
| `Scheduler.Coordinator.SupplyInputs` | internal/runtime/scheduler.go:217-222 | Records every declared input and queues the roots, reaching the state every run begins in. |
| `Scheduler.Coordinator.TryInline` | internal/runtime/scheduler.go:231-247 | Extends the run and ends past a skip, at the top again with the one ready step completed, or inside a node that does not come back in a run that has not stopped. |
| `Scheduler.Coordinator.WaitingOnPool` | internal/runtime/scheduler.go:257-262 | The pool arm is enabled exactly when work could start but for a slot. |
| `Scheduler.Coordinator.Select` | internal/runtime/scheduler.go:287-306 | Takes any one enabled arm after any moves of the step goroutines, and blocks only with the channel empty and the abandon timer not armed. |
| `Scheduler.Coordinator.Receive` | internal/runtime/scheduler.go:292-294 | Takes the oldest completion off the channel and handles it. |
| `Scheduler.Coordinator.CallerDone` | internal/runtime/scheduler.go:296-302 | Disables the arm, stops a run that has not stopped as cancelled, and leaves the reason of one that has. |
| `Scheduler.Coordinator.SendFrom` | internal/runtime/scheduler.go:160-165 | A step goroutine's completion goes to the end of the channel while its slot stays held. |
| `Scheduler.Coordinator.GiveBack` | internal/runtime/scheduler.go:160-165 | Only after its completion does it give the slot back. |
| `Scheduler.Coordinator.Settle` | internal/runtime/scheduler.go:278-285 | After pumping, the run is finished exactly when nothing is out and no slot would let it start anything; otherwise it blocks. |
| `Scheduler.Coordinator.Loop` | internal/runtime/scheduler.go:269-308 | Terminates; whatever happened is a run of the model; it ends finished, having given up, or waiting, and a run that has stopped does not end waiting. |
| `Scheduler.Coordinator.FinalizeRun` | internal/runtime/scheduler.go:330-353 | The two passes over the steps settle exactly what the model's one-pass definition settles, and count the abandoned. |
| `Retries.RunStep` | internal/runtime/executor.go:189-208 | In any given world (what the body does at each call, which waits are cut short): every call before the last failed and was marked as retryable; the last is a success, a failure not so marked or the last allowed, and then its result is the end, with its number; or it never came back; or the wait after it was cut short, and then the end is that cancellation. One delay per call that is tried again, each the backoff doubled once more. |
| `Retries.OneEnd` | internal/runtime/executor.go:189-208 | There is only one such end. |
| `Retries.StepMayReturn` | internal/runtime/executor.go:189-242 | So what a step returns is what one call of its node may return, or a cancellation. |
| `Retries.DelayClosed` | internal/runtime/executor.go:205 | Doubling step by step with wrap-around is doubling once with one wrap at the end. |
| `Retries.DelayExact` | internal/runtime/executor.go:190-205 | A delay is backoff times a power of two if and only if that fits 63 bits. |
| `Retries.WrapsOnlyAfterLongWait` | internal/runtime/executor.go:190-205 | As long as every delay was below 2^62 nanoseconds, the next is exact and not negative. |
| `Retries.DelayCanWrap` | internal/runtime/executor.go:190-205 | From 2^e nanoseconds the delay is the most negative value after 63-e doublings and zero after one more, both within the hundred attempts the parser allows. |
| `Retries.RunIntoWrap` | internal/runtime/executor.go:189-208 | A step that starts at 2^e nanoseconds and fails retryably throughout makes all its attempts and, if there are 66-e of them, asks for the most negative delay and then for zero. |
| `SharedSlots.SlotConservation` | internal/runtime/scheduler.go:133-178 | With any number of runs on one pool, occupancy is always the number of steps launched or inlined and not yet released, abandoned ones included, and never exceeds capacity. |
| `SharedSlots.ReleaseFindsSlot` | internal/runtime/scheduler.go:157-166 | Giving a slot back always finds one to take back. |
| `SharedSlots.EachIsARun` | internal/runtime/scheduler.go:249-262 | Each run in a shared process is, on its own, a run, so every theorem about runs holds of it. |
| `SharedSlots.NoDeadlock` | internal/runtime/scheduler.go:249-262 | An unfinished run has an event of the engine enabled (no node coming back, no cancellation, no timer among them), or a step of its own inside its node, or waits on a full pool, and then some step of some run holds a slot and is inside its node or about to give the slot back. |
| `Serving.CompileSound` | internal/pipeline/compiler.go:45-82 | For every accepted file, supplied input map, configuration, interleaving and moment: each node handed out is called with exactly what its ports declare and answers with its body's failure as reported or its data at the declared type, and a run that ended without failing has every step succeeded with a value of its declared type. |
| `Serving.WebhookDelivers` | internal/trigger/webhook.go:137-194 | An accepted request carries exactly body, method, path and query, the first as Bytes and the others as Text, as the webhook says it provides; it can answer with Bytes or Text. |
| `Serving.ScheduleDelivers` | internal/trigger/schedule.go:58-103 | A tick carries fired_at as Time, as the schedule says it provides; it answers nobody. |
| `Serving.EventsFit` | internal/pipeline/compiler.go:190-205 | For an accepted file, what an event of its own trigger carries passes supply for every declared input. |
| `Serving.InputsAsSupplied` | internal/runtime/scheduler.go:217-222 | At every moment of every run the record of each input is what supply said of it. |
| `Serving.ServedInputsSucceed` | internal/runtime/executor.go:148-159 | In a served run every input is recorded, at every moment, with the value the event carried, and a step that fails is never an input. |
| `Serving.RepliesAreWritable` | internal/daemon/run.go:165-173 | The caller of a served run gets the error that ended it, the failed step's own or the cancellation, and otherwise the value of the step the pipeline named, of a type its trigger can write. |
| `Daemon.AdmissionHolds` | internal/daemon/run.go:110-161 | In every interleaving a pipeline's counter is the number of its runs admitted and not yet released, at most one under drop and at most the cap under a capped allow. |
| `Daemon.RefusalIsJustified` | internal/daemon/run.go:148-161 | A claim is refused exactly when the pipeline already has all the runs its policy allows. |
| `Daemon.StepTurnsAway` | internal/daemon/run.go:110-140 | A step into refusal changes no counter, and nobody once let in is refused. |
| `Daemon.RefusalLeavesNothing` | internal/daemon/run.go:110-140 | Over any history, a thread that is turned away never held anything. |
| `Daemon.DrainedForGood` | internal/daemon/daemon.go:353-371 | Once draining is set and the wait group is zero, every in-flight counter is zero and stays zero, whatever still arrives. |
| `Daemon.DrainedIsQuiet` | internal/daemon/daemon.go:353-371 | When the drain reports that all runs finished, that is so. |
| `Admission.RefusalsHaveReasons` | internal/daemon/run.go:110-140 | Over any history, an event refused as quarantined was for a quarantined pipeline, one refused for draining found the daemon draining, and one refused at the claim was refused in the way its policy knows. |
| `Admission.ClaimsRefusedAtCeiling` | internal/daemon/run.go:148-161 | Over any history, a claim is refused exactly when the runs admitted are one under drop, the option under a capped allow, and 64 by default; never under an uncapped allow. |
| `Admission.WelcomeIsLetIn` | internal/daemon/run.go:110-161 | An event for a pipeline in service with room, while the daemon is not draining, claims a run by its thread's own four or five steps. |
| `Admission.FirstEventIsLetIn` | internal/daemon/daemon.go:134-184 | The first event of a daemon just built is let in, whatever the policy and the options. |
| `Admission.SwapFailsOnlyIfMoved` | internal/daemon/run.go:152-160 | A swap succeeds unless the counter has moved since it was read, and then it is read again. |
| `Admission.LetInGoesThrough` | internal/daemon/run.go:66-99 | Once let in, a thread runs, is recorded and releases everything by its own steps, eight of them, or ten if its run left a step behind; no lock holds it up. |
| `Admission.RunsAreRecorded` | internal/daemon/run.go:176-198 | Over any history, every run that ended is in the log exactly once with whether it left a step behind, unless its thread has yet to write it; nothing else is, and no thread gets past its run without one. |
| `Admission.DrainGetsDone` | internal/daemon/daemon.go:353-371 | With no reader and no run in the way, the drain sets its flag and finishes by its own steps. |
| `Admission.WriterExcludesReaders` | internal/daemon/daemon.go:353-356 | Over any history, while the drain holds the write lock nobody holds the read lock, and exactly then an event waits for it. |
| `Admission.WaitEnds` | internal/daemon/daemon.go:360-370 | Waiting ends when the wait group is zero, as finished, or by the clock, as given up. |
| `Quarantine.QuarantineHistory` | internal/daemon/run.go:176-198 | Over any history of recorded runs the streak is the length of the abandoning suffix and the total counts them all; three consecutive recorded runs left steps behind if and only if the pipeline is quarantined or the thread that recorded the third is about to raise the flag. |
| `Quarantine.QuarantinedForGood` | internal/daemon/run.go:110-115 | The flag never comes down, and no event that reads it afterwards gets any further. |
| `Quarantine.StreakedAppend` | internal/daemon/run.go:183-198 | Recording a run completes a streak exactly when the suffix it extends is long enough. |
| `Template.Parse` | internal/nodes/text/format.go:103-143 | For a template that can be cut where a reader going from left to right would cut it, the segments and ports of that cut; for any other no such cut exists, and what is reported is the first offence after well cut pieces. |
| `Template.ScanExact` | internal/nodes/text/format.go:103-162 | A template is accepted as given items if and only if they spell it and each is well cut: literals are not empty, not adjacent and end at the first opening tag; placeholders end at the first closing tag; names are what is left after trimming, not empty, without blank, tab, newline or opening tag. |
| `Template.CutsAreUnique` | internal/nodes/text/format.go:103-143 | A template has at most one such cut. |
| `Template.RejectedExactly` | internal/nodes/text/format.go:103-143 | It is rejected if and only if it has none. |
| `Template.RejectionIsExplained` | internal/nodes/text/format.go:119-162 | A rejected template is well cut up to a first offence, and that is what is reported: a tag not closed, a name that is empty, has a blank, or holds an opening tag. |
| `Template.TrimSpaceIs` | internal/nodes/text/format.go:130 | A trimmed name is a stretch of what was written, with no space at either end and nothing but spaces cut off. |
| `Template.ScanKeepsText` | internal/nodes/text/format.go:103-143 | Literals and raw placeholder spans concatenate back to the template. |
| `Template.BuiltInRange` | internal/nodes/text/format.go:134-140 | Ports are duplicate-free and every segment's port is one of them. |
| `Template.FirstNamesOrdered` | internal/nodes/text/format.go:134-140 | Ports come in order of first appearance. |
| `Template.Render` | internal/nodes/text/format.go:79-90 | Writes the segments in order, each placeholder as its port's value. |
| `Template.RenderSubstitutes` | internal/nodes/text/format.go:79-90 | That is single-pass substitution of values for names in the template. |
| `Template.PrintReadsBack` | internal/nodes/text/format.go:103-143 | Printed with bare names and scanned again, a template gives the same items if and only if no name ends in a brace. |
| `Template.PrintReparses` | internal/nodes/text/format.go:103-143 | Printed with bare names and parsed again, it gives the same segments and ports if and only if no port ends in a brace. |
| `Template.BraceNameExample` | internal/nodes/text/format.go:130-133 | A concrete template that is accepted and does not survive. |
| `Template.NewFormat` | internal/nodes/text/format.go:63-91 | A node is built exactly for a non-empty template that parses; it has one port of type Text per name, in order, and a Text out. |
| `Template.FormatSubstitutes` | internal/nodes/text/format.go:79-90 | On inputs it admits such a node can return one thing: the template with each name replaced by the text its port refers to. |
| `Template.FormatPortsShareType` | internal/nodes/text/format.go:52-56 | A list can bind such a node exactly when it has at most one port. |

## Left out

- YAML decoding, reading files and directories, and command-line arguments: a `File` starts where parsing has already checked it.
- HTTP listeners, routing, the admin endpoints, metrics and logging.
- Signature verification, the dial policy and URL checks.
- The bodies of the exec, http, env, json, condition, assert and value nodes: every node is an arbitrary relation of arguments and outcomes.
- Claims on routes between loaded pipelines, and the registries beyond looking a name up: easy grouping.
- The mutation guard, which depends on how Go prints aliased heap data.
- Wall-clock time: the abandon timer may fire at any moment once armed, and a wait may be cut short at any moment.
- Error message text and the order of problems, other than the path of a reported cycle.
- The run counters kept for reporting only (runs, failures), and the daemon's choice of slot pool size.
- Step values hold one opaque datum each: the model does not capture aliasing between the values of different steps.
- Scheduler.Coordinator.Loop: node bodies may not come back, so the loop may end waiting; the model does not say how long anything takes.
- Port types are concrete: a type assertion succeeds exactly on values of that type. An interface type, for which a nil value would fail its own assertion, is not modelled; every registered type is a pointer.
- Template.NewFormat: a nil pointer on a port, which the source's rendering would turn into a recovered panic, is not modelled; every value that reaches a body carries data.
- Daemon events take any execution as what a run reports; that the report is one of a run of the pipeline's own plan is not part of the state.
- RunValues.Confluence: asks that a node which succeeds always produces the same data from the same arguments; without that, runs may differ.
- Template.Parse: works on characters rather than UTF-8 bytes; the tags and the trimmed spaces are the same either way for valid UTF-8.

# Verified model of the demo NDI client's scheduler, blocks and service-test helpers

This project is a Dafny model of the core of a nio-based demo client: a set of
signal-processing blocks along with the service test framework that drives them.

The main core is the **synchronous, jump-ahead task scheduler** used by the
service tests. It has a heap of `(time, id, target, frequency, args, kwargs)`
events, an id-to-event index, and a virtual clock that is the base monotonic
reading plus an offset that `jump_ahead` moves forward. It also has the `Job`
handle that wraps one scheduled id.

Around the scheduler sit the stateful and per-signal blocks:
- the state family: state base, state change, switch and append state;
- merge streams, sleep, filter, attribute selector, join, replicator, modifier;
- the dynamic publisher with its per-topic publisher cache and close jobs.

The service-test helpers complete the core:
- the file persistence module;
- configuration substitution and overrides, and count assertions, in the service test case;
- the router that hands notified signals to the receiving blocks;
- the HTTP request blocks;
- the lm-sensors reader.

Each source file becomes one Dafny module. The form follows the source:
- Objects whose fields the source updates become classes. Their methods have `modifies` clauses, and every loop carries invariants.
- Each method is proved against a specification function.
- The properties the code and its tests promise are proved as lemmas about those functions.

Unit tests of the source appear as scenario modules. Each one is a call sequence whose `ensures` clauses state the counts and values the test asserts:
- `JumpAheadScenarios`;
- `MergeStreamsScenarios`;
- `SleepScenarios`;
- `DynamicPublisherScenarios`.

Conventions:
- Time is an integer number of milliseconds ("ticks").
- Clocks, uuids, callbacks, property expressions and encoders are parameters of the operations that use them.
- A signal is a map from attribute names to values (`Signals.Signal`).
- Python's dictionary insertion order is kept as association lists wherever it is observable.
- `Signal.to_dict()` is modelled as dropping the hidden attributes, whose names start with `_`.

## Model

| member | source | states |
|---|---|---|
| EventQueue.HeapRootIsLeast | service_tests/modules/module_scheduler_synchronous/scheduler.py:192 | the first element of a heap-ordered queue is not after any other element, so heappop hands out the earliest (time, id) event |
| EventQueue.SiftUp | service_tests/modules/module_scheduler_synchronous/scheduler.py:101 | moving an element up restores the heap order and keeps the queue's length and its multiset of events |
| EventQueue.SiftDown | service_tests/modules/module_scheduler_synchronous/scheduler.py:192 | moving an element down below its smaller children restores the heap order from that position on, keeping the queue's multiset |
| EventQueue.HeapPush | service_tests/modules/module_scheduler_synchronous/scheduler.py:101 | pushing onto a heap gives a heap holding exactly the old events plus the new one |
| EventQueue.HeapPop | service_tests/modules/module_scheduler_synchronous/scheduler.py:192 | popping returns the root, which is not after any queued event, and leaves a heap holding exactly the other events |
| EventQueue.Heapify | service_tests/modules/module_scheduler_synchronous/scheduler.py:133 | bottom-up construction yields a heap holding the same events |
| EventQueue.RemoveFirst | service_tests/modules/module_scheduler_synchronous/scheduler.py:132 | removing an event takes exactly one copy of it out of the queue's multiset |
| Scheduler.DelayRules | service_tests/modules/module_scheduler_synchronous/scheduler.py:80-92 | a repeating task gets a period of at least the minimum delta, first fires after that period, and keeps its own delta when it is large enough; a one-shot task fires after its own delta with period 0 |
| Scheduler.FiredConcat | service_tests/modules/module_scheduler_synchronous/scheduler.py:185-236 | the firings of a task over two consecutive stretches of a drain pass add up |
| Scheduler.RepresentsByMultiset | service_tests/modules/module_scheduler_synchronous/scheduler.py:133 | re-heaping the queue without changing its events keeps the queue and the event index in agreement |
| Scheduler.LeastIsRoot | service_tests/modules/module_scheduler_synchronous/scheduler.py:192 | when the queue agrees with the index, an event that is not after any queued event is the one heappop returns |
| Scheduler.Runner.constructor | service_tests/modules/module_scheduler_synchronous/scheduler.py:18-32 | a new runner is in the created state, with minimum delta and resolution 0.1 s, an empty queue and index, and offset 0 |
| Scheduler.Runner.SetStatus | service_tests/modules/module_scheduler_synchronous/scheduler.py:74 | the framework's runner status becomes the given one and nothing else changes |
| Scheduler.Runner.Configure | service_tests/modules/module_scheduler_synchronous/scheduler.py:34-54 | configuring drops every task from queue and index, resets the offset to 0 and installs the configured minimum interval and resolution |
| Scheduler.Runner.ScheduleTask | service_tests/modules/module_scheduler_synchronous/scheduler.py:56-107 | a runner that is not started raises ModuleNotInitialized and a delta that is not a timedelta raises AttributeError, both leaving the state alone; otherwise the new event, due at now plus the clamped delay, is added to both index and queue under the fresh id, which is returned |
| Scheduler.Runner.Cancel | service_tests/modules/module_scheduler_synchronous/scheduler.py:124-133 | the id leaves the index; its event leaves the queue exactly once unless it is the event that is being fired; the result says whether the id was indexed |
| Scheduler.Runner.Unschedule | service_tests/modules/module_scheduler_synchronous/scheduler.py:109-139 | returns true exactly when the task was scheduled; afterwards it is neither indexed nor queued and every other task is untouched; an unknown id changes nothing |
| Scheduler.Runner.RunCallback | service_tests/modules/module_scheduler_synchronous/scheduler.py:206-212 | the index loses exactly the ids the callback names and keeps every other task as it was, the queue still matches it, and a callback that cancels nothing leaves queue and index as they were |
| Scheduler.Runner.Requeue | service_tests/modules/module_scheduler_synchronous/scheduler.py:214-236 | after the call, a still-scheduled repeating task is queued and indexed one period later, a still-scheduled one-shot task is dropped from the index, and a cancelled task stays gone |
| Scheduler.Runner.DrainStep | service_tests/modules/module_scheduler_synchronous/scheduler.py:185-236 | one round either stops, having found the queue empty (waiting the resolution) or its least event in the future (waiting the smaller of the time to it and the resolution), or fires the least due event and extends the pass |
| Scheduler.Runner.FireEvent | service_tests/modules/module_scheduler_synchronous/scheduler.py:205-236 | firing a due event extends the pass by that event, keeping the pass's promises, and strictly lowers the total overdueness of the index |
| Scheduler.Runner.Drain | service_tests/modules/module_scheduler_synchronous/scheduler.py:185-236 | at a fixed virtual time, repeats rounds until one stops: every call in the pass was scheduled, due and in (time, id) order, each surviving repeating task moved on one period per call, a task gone from the index was either named by a callback of the pass or a due one-shot called once, and nothing left queued or indexed is due; the wait is the resolution for an empty queue, else the smaller of the time to the next event and the resolution |
| Scheduler.Runner.ExecutePending | service_tests/modules/module_scheduler_synchronous/scheduler.py:169-236 | calls only tasks that were scheduled, each when due and with its own target and arguments, in (time, id) order; moves each surviving repeating task on one period per call; leaves nothing due in queue or index; returns the resolution when the queue is empty, else the smaller of the time to the next event and the resolution |
| Scheduler.Runner.JumpAhead | service_tests/modules/module_scheduler_synchronous/scheduler.py:238-263 | a negative jump raises ValueError and changes nothing; otherwise the offset grows by the jump and everything due at the new virtual time is drained as ExecutePending promises |
| Scheduler.IndexedLater | service_tests/modules/module_scheduler_synchronous/scheduler.py:198-203 | when no queued event is due, no indexed task is due either |
| Scheduler.PopRepresents | service_tests/modules/module_scheduler_synchronous/scheduler.py:192 | after popping the least event, the queue agrees with the index minus that event's id |
| Scheduler.PassStepLog | service_tests/modules/module_scheduler_synchronous/scheduler.py:205-212 | one more firing keeps every firing of the pass scheduled, due and with its own call, in (time, id) order |
| Scheduler.PassStepIndex | service_tests/modules/module_scheduler_synchronous/scheduler.py:214-236 | after one more firing every surviving task is its initial event moved on once per firing, and a pending one-shot has not fired |
| Scheduler.PassStepDue | service_tests/modules/module_scheduler_synchronous/scheduler.py:198-210 | after one more firing the last firing of every task was due |
| Scheduler.PassStepLeaves | service_tests/modules/module_scheduler_synchronous/scheduler.py:206-233 | after one more firing, a task that no callback of the pass named has left the index only as a due one-shot fired exactly once |
| Scheduler.PassStep | service_tests/modules/module_scheduler_synchronous/scheduler.py:185-236 | one firing keeps all the promises of the drain pass |
| Scheduler.FiredUnknown | service_tests/modules/module_scheduler_synchronous/scheduler.py:217 | a task that was not scheduled when the pass began is never called in it |
| Scheduler.FiredNone | service_tests/modules/module_scheduler_synchronous/scheduler.py:185-236 | a task with no event in the pass was fired zero times |
| Scheduler.FiringCount | service_tests/modules/module_scheduler_synchronous/scheduler.py:238-263 | after a pass, every task that no callback of the pass cancelled was called once per due time it reached: none before its due time, once for a one-shot, and one plus one per whole period for a repeating task — the jobs that should have fired during the jump all fire |
| Scheduler.DueCountSplit | service_tests/modules/module_scheduler_synchronous/scheduler.py:238-263 | jumping in two steps calls a repeating task as often as jumping the same time at once |
| Scheduler.Survivor | service_tests/modules/module_scheduler_synchronous/scheduler.py:219-230 | after a pass, a repeating task and a one-shot that is not yet due are still scheduled, moved on by their firings, unless a callback of the pass cancelled them |
| Scheduler.CancelledQuiet | service_tests/modules/module_scheduler_synchronous/scheduler.py:206-212 | when no callback cancels anything, a pass cancels no task |
| SchedulerJob.Job.constructor | service_tests/modules/module_scheduler_synchronous/job.py:6-8 | a handle remembers the shared runner and the id of its task |
| SchedulerJob.Job.Cancel | service_tests/modules/module_scheduler_synchronous/job.py:10-11 | cancelling a handle unschedules exactly its own task |
| SchedulerJob.Job.JumpAhead | service_tests/modules/module_scheduler_synchronous/job.py:13-19 | jumping through a handle moves the shared runner exactly as the runner's own jump does |
| SchedulerJob.NewJob | service_tests/modules/module_scheduler_synchronous/job.py:6-8 | creating a job schedules exactly one task on the shared runner, with schedule_task's failures, and keeps its id |
| JumpAheadScenarios.StartedRunner | service_tests/modules/module_scheduler_synchronous/scheduler.py:18-32 | a freshly created and started runner with nothing scheduled |
| JumpAheadScenarios.Jump | service_tests/modules/module_scheduler_synchronous/scheduler.py:238-263 | a jump with a steady base clock moves the offset and drains what is due |
| JumpAheadScenarios.JumpCount | service_tests/modules/module_scheduler_synchronous/scheduler.py:238-263 | the number of calls of one task in a jump is its due count at the new virtual time |
| JumpAheadScenarios.RepeatEveryFive | service_tests/modules/module_scheduler_synchronous/tests/test_jump_ahead.py:59-76 | a task repeating every 5 s is called once by a 6 s jump and four times in all after 15 s more |
| JumpAheadScenarios.OneShotFive | service_tests/modules/module_scheduler_synchronous/tests/test_jump_ahead.py:30-42 | a one-shot task due in 5 s is not called by a 2 s jump and is called once after 4 s more |
| JumpAheadScenarios.ScheduleAfterJump | service_tests/modules/module_scheduler_synchronous/tests/test_jump_ahead.py:44-57 | a task scheduled after a 2 s jump is due 5 s after it: not called after 4 s more, called once after 8 s |
| JumpAheadScenarios.JumpBackwards | service_tests/modules/module_scheduler_synchronous/tests/test_jump_ahead.py:78-82 | jumping backwards raises ValueError and leaves the clock alone |
| JumpAheadScenarios.SharedClock | service_tests/modules/module_scheduler_synchronous/job.py:13-19 | two handles share one clock: a jump through either one calls a task scheduled through the other |
| JumpAheadScenarios.CancelBeforeDue | service_tests/modules/module_scheduler_synchronous/scheduler.py:109-139 | a task cancelled before it is due is never called; the first cancel finds it and the second does not |
| JumpAheadScenarios.CancelTwice | service_tests/modules/module_scheduler_synchronous/scheduler.py:126-139 | cancelling twice leaves the runner as the first cancel did |
| StateBaseBlock.SettleIsLastSuccess | blocks/state/state_base.py:100-116 | after a batch the group's state is the value of the last evaluation that succeeded, or the starting state when every evaluation failed |
| StateBaseBlock.ChangesChain | blocks/state/state_base.py:110-118 | the changes reported for a batch chain up: none is a non-change, each starts where the previous one ended, the first starts at the starting state, the last ends at the final state, and there are no more changes than signals |
| StateBaseBlock.StateBase.constructor | blocks/state/state_base.py:29-34 | a new block has initial state None and no stored states |
| StateBaseBlock.StateBase.Configure | blocks/state/state_base.py:40-43 | configuring caches the evaluated initial state |
| StateBaseBlock.StateBase.GetState | blocks/state/state_base.py:45-54 | returns the stored state of the group, or the initial state, which it then stores for an unseen group; nothing else changes |
| StateBaseBlock.StateBase.ProcessState | blocks/state/state_base.py:91-118 | a failed evaluation keeps the state and reports nothing; a value equal to the state is not stored and reports nothing; a different value is stored and reported as (previous, new); an unseen group is first given the initial state |
| StateBaseBlock.StateBase.ProcessSetterGroup | blocks/state/switch_block.py:20-25 | evaluating a non-empty batch leaves the group in the state the batch settles on; an empty batch changes nothing |
| StateBaseBlock.StateBase.CurrentState | blocks/state/state_base.py:120-133 | asked for None it lists every stored group with its state, in storage order; asked for a stored group it answers that group and state; any other group gives HTTPNotFound |
| StateBaseBlock.NotifyAll | blocks/state/state_base.py:74-79 | every filled output list is notified once, in order, with its own signals; a named output with its id, the None key (and an empty name) on the default output |
| StateBaseBlock.SetDefault | blocks/state/state_base.py:72-73 | when no entry has the None key, the combined group result is appended under it; in every case the None key holds it and every named output keeps its list |
| StateBaseBlock.SetDefaultReplaces | blocks/state/state_base.py:72-73 | when the None key is already present, its first entry takes the combined group result in place and every other entry stays where and as it was |
| SwitchBlock.Switch.constructor | blocks/state/switch_block.py:19 | the block is built on its state store |
| SwitchBlock.Switch.ProcessGroup | blocks/state/switch_block.py:20-25 | on the setter input the batch settles the group's state and nothing is routed; on any other input every signal is appended to the true output when the group's state is truthy, else to the false one, leaving other outputs alone; nothing goes to the default output |
| SwitchBlock.Switch.ProcessGetterGroup | blocks/state/switch_block.py:27-34 | every signal goes, in order, to the output the group's state selects, and the state is only initialised |
| StateChangeBlock.ChangeSignalFields | blocks/state/state_change_block.py:22-38 | a change signal holds the group, the new state under the state name and the previous one under prev_ plus the name; with exclude nothing else, without it every other attribute of the triggering signal |
| StateChangeBlock.NotifiedAreChanges | blocks/state/state_change_block.py:22-38 | a batch notifies exactly one signal per reported change, in order, each the change signal of that change built on one of the batch's signals |
| StateChangeBlock.StateChange.constructor | blocks/state/state_change_block.py:22-38 | the block is built on its state store, state name and exclude flag |
| StateChangeBlock.StateChange.ProcessGroup | blocks/state/state_change_block.py:22-38 | the group's state ends where the batch settles it and the notified signals are exactly the change signals of the batch's changes |
| AppendStateBlock.AppendState.constructor | blocks/state/append_state_block.py:19-23 | the block is built on its state store and state name |
| AppendStateBlock.AppendState.ProcessGroup | blocks/state/append_state_block.py:19-23 | on the setter input the batch settles the group's state and nothing is notified; on any other input every signal is notified, in order, with the group's current state added under the state name |
| AppendStateBlock.AppendState.ProcessGetterGroup | blocks/state/append_state_block.py:25-33 | every signal, in order, gets the group's current state under the state name, and the state is only initialised |
| FilterBlock.VerdictFirst | blocks/filter/filter_block.py:60-90 | the first condition that does not let evaluation go on settles the signal: a truthy one under ANY gives true, a falsy one under ALL gives false, and one that raises aborts |
| FilterBlock.VerdictAllPass | blocks/filter/filter_block.py:60-90 | when no condition settles the signal, ANY gives false and ALL gives true (the loops' else branches) |
| FilterBlock.VerdictMeaning | blocks/filter/filter_block.py:60-90 | with conditions that all evaluate, ANY is true iff some condition is truthy and ALL is true iff every condition is |
| FilterBlock.SelectSnoc | blocks/filter/filter_block.py:60-90 | one more signal joins exactly the list of its own verdict |
| FilterBlock.SelectPartition | blocks/filter/filter_block.py:60-90 | the true list and the false list together hold exactly the input signals |
| FilterBlock.SelectCount | blocks/filter/filter_block.py:60-90 | the two lists' lengths add up to the number of input signals |
| FilterBlock.Verdicts | blocks/filter/filter_block.py:60-90 | one verdict per signal, in order, each that signal's verdict |
| FilterBlock.Filter.constructor | blocks/filter/filter_block.py:42-44 | the block keeps the configured conditions and operator |
| FilterBlock.Filter.Decide | blocks/filter/filter_block.py:65-88 | the loop over the conditions computes the signal's verdict |
| FilterBlock.Filter.FilterSignals | blocks/filter/filter_block.py:60-90 | fails exactly when some signal's condition raises; otherwise returns the signals with a true verdict and those with a false verdict, each in input order |
| FilterBlock.Filter.ProcessSignals | blocks/filter/filter_block.py:46-58 | nothing is notified when a condition raises; otherwise the true list goes to the true output and then the false list to the false output, each only when it is not empty |
| AttributeSelectorBlock.SelectedKeys | blocks/attribute_selector/attribute_selector_block.py:36-61 | the new signal keeps values and holds exactly the listed attributes (WHITELIST) or exactly the unlisted ones (BLACKLIST); listed attributes that the signal lacks change nothing |
| AttributeSelectorBlock.ModesSplit | blocks/attribute_selector/attribute_selector_block.py:36-61 | what WHITELIST keeps and what BLACKLIST keeps are disjoint and together make the whole signal |
| AttributeSelectorBlock.AttributeSelector.constructor | blocks/attribute_selector/attribute_selector_block.py:26-30 | the block keeps its mode and attribute list |
| AttributeSelectorBlock.AttributeSelector.ProcessSignals | blocks/attribute_selector/attribute_selector_block.py:32-65 | nothing is notified exactly when some attribute list fails to evaluate; otherwise one list is notified on the default output holding one selected signal per input, in order |
| ModifierBlock.FoldExclude | blocks/modifier/modifier_block.py:39-50 | when excluding, every formula evaluated and an attribute of the result is either the title of some field, holding the value of the last field with that title, or was already there |
| ModifierBlock.ExcludeOutput | blocks/modifier/modifier_block.py:39-50 | with exclude, the output holds exactly the titles of the fields, each with the value of the last field that names it |
| ModifierBlock.IncludeKeeps | blocks/modifier/modifier_block.py:39-46 | without exclude, every attribute of the signal stays an attribute of the output |
| ModifierBlock.FoldIncludeKeys | blocks/modifier/modifier_block.py:39-46 | without exclude, an attribute of the result was on the signal or is the title some field gives when evaluated on the signal as the earlier fields left it |
| ModifierBlock.FoldIncludeUnnamed | blocks/modifier/modifier_block.py:39-46 | without exclude, an attribute of the signal that no field names keeps its value |
| ModifierBlock.FoldIncludeLast | blocks/modifier/modifier_block.py:39-46 | without exclude, a named attribute holds the value of the last field naming it, evaluated on the signal as the fields before it left it |
| ModifierBlock.FoldStages | blocks/modifier/modifier_block.py:39-46 | without exclude, when the fold succeeds every field is evaluated on a stage it reached and gives a value |
| ModifierBlock.IncludeOutput | blocks/modifier/modifier_block.py:39-46 | without exclude, the fields are set on the signal itself: the output has exactly the signal's attributes and the field titles, an unnamed attribute keeps its value, a named one the last naming field's value, and with no fields the signal passes through unchanged |
| ModifierBlock.Modifier.constructor | blocks/modifier/modifier_block.py:28-29 | the block keeps its fields and exclude flag |
| ModifierBlock.Modifier.ModifyOne | blocks/modifier/modifier_block.py:39-46 | the field loop for one signal computes that signal's modified output |
| ModifierBlock.Modifier.ProcessSignals | blocks/modifier/modifier_block.py:32-55 | nothing is notified exactly when some signal's field fails; otherwise one list is notified on the default output with one modified signal per input, in order |
| ReplicatorBlock.Copies | blocks/replicator/replicator_block.py:27-30 | one copy of the signal per value, in order, each the signal without hidden attributes plus the title set to that value |
| ReplicatorBlock.AtLeastOne | blocks/replicator/replicator_block.py:21-26 | every signal yields at least one copy; a list that raises or is falsy yields exactly one copy with the title set to None |
| ReplicatorBlock.Replicator.constructor | blocks/replicator/replicator_block.py:15-16 | the block keeps its title and list expression |
| ReplicatorBlock.Replicator.AllCopiesCount | blocks/replicator/replicator_block.py:18-30 | there are at least as many copies as input signals |
| ReplicatorBlock.Replicator.ProcessSignals | blocks/replicator/replicator_block.py:18-32 | a list whose items cannot be iterated aborts with nothing notified; otherwise every copy, input by input and then value by value, is notified in one list, and nothing is notified when there are none |
| JoinBlock.HashMeaning | blocks/join/join_block.py:46-66 | a key is in the hash iff some signal has it as its key; its entry is the list of the matching values in input order, or with one_value the last of them; signals whose key is None are skipped |
| JoinBlock.Join.constructor | blocks/join/join_block.py:25-31 | the block keeps its key and value expressions, one_value flag, group attribute and enrichment |
| JoinBlock.Join.PerformHash | blocks/join/join_block.py:46-69 | fails exactly when some key or value fails to evaluate; otherwise gives nothing when the hash is empty and else the hash enriched with the last signal |
| JoinBlock.Join.GetHashFromGroup | blocks/join/join_block.py:38-44 | a group's output is its enriched hash with the group under the group attribute, or nothing when the hash is empty |
| JoinBlock.Join.OutputsMeaning | blocks/join/join_block.py:34-44 | there is at most one output per group; every group with an output contributes it; no output at all gives an empty list |
| JoinBlock.Join.ProcessSignals | blocks/join/join_block.py:34-36 | nothing is notified when some group fails to evaluate; otherwise one list holding the outputs of the groups, in group order, is notified |
| Buckets.KeysOf | blocks/sleep/sleep_block.py:56-61 | the keys of a dictionary of lists, one per entry, in insertion order |
| Buckets.Where | blocks/sleep/sleep_block.py:56-61 | selecting the elements of one key never gives more elements than the input holds |
| Buckets.WhereSelects | blocks/sleep/sleep_block.py:56-61 | the selection holds exactly the input elements with that key, each no more often than the input does |
| Buckets.GroupByBuckets | blocks/sleep/sleep_block.py:56-61 | grouping into a defaultdict(list) lists each key once, in order of first occurrence, with no empty list, and puts under each key exactly the elements with that key, in input order |
| Buckets.GroupByWellFormed | blocks/sleep/sleep_block.py:56-61 | grouping never lists a key twice or an empty list |
| Buckets.GroupByStep | blocks/sleep/sleep_block.py:56-61 | grouping one more element appends it to the list of its key |
| Buckets.AppendToLookup | blocks/state/state_base.py:67-71 | appending to a key's list extends that list by the element and leaves every other key's list alone |
| Buckets.AppendToKeys | blocks/state/state_base.py:67-71 | appending adds the key last when it is new and adds no other key |
| Buckets.AppendToWellFormed | blocks/state/state_base.py:67-71 | appending keeps the dictionary free of repeated keys and empty lists |
| Buckets.LookupAt | blocks/state/state_base.py:74-79 | in a well-formed dictionary the list stored at a key's entry is the key's whole list |
| Buckets.LookupAbsent | blocks/state/state_base.py:67 | a key that is not there has the empty list |
| Signals.ToDictPlain | blocks/merge_streams/merge_streams_block.py:68-69 | a signal without hidden attributes is its own dictionary |
| MergeStreamsBlock.StripPlain | blocks/merge_streams/merge_streams_block.py:78-88 | removing special attributes from a dictionary that has none changes nothing |
| MergeStreamsBlock.MergeFields | blocks/merge_streams/merge_streams_block.py:66-76 | a merge holds exactly the attributes of either signal whose name does not start with `_` (so no special `__` attribute), the second signal's value winning where both have one |
| MergeStreamsBlock.RemoveSpecial | blocks/merge_streams/merge_streams_block.py:78-88 | deleting the keys that start with a double underscore, one at a time, leaves exactly the other entries |
| MergeStreamsBlock.MergeSignals | blocks/merge_streams/merge_streams_block.py:66-76 | the merge is both dictionaries without special attributes, the second one's entries replacing the first one's |
| MergeStreamsBlock.RunStep | blocks/merge_streams/merge_streams_block.py:52-61 | a batch with one more signal is the shorter batch followed by that signal's arrival |
| MergeStreamsBlock.NotifyOnceNeverBothHeld | blocks/merge_streams/merge_streams_block.py:56-61 | with notify_once the two slots of a group are never both full after a signal: every merge empties them |
| MergeStreamsBlock.PersistentSlotsMergeEvery | blocks/merge_streams/merge_streams_block.py:52-58 | without notify_once, once both slots are full every further signal emits exactly one merge, of itself with the other slot's signal, in input order, and the other slot stays |
| MergeStreamsBlock.PersistedOf | blocks/merge_streams/merge_streams_block.py:36-47 | the slots are persisted exactly when no expiration is configured |
| MergeStreamsBlock.MergeStreams.constructor | blocks/merge_streams/merge_streams_block.py:30-34 | a new block has no slots and no expiration jobs |
| MergeStreamsBlock.MergeStreams.PersistedValues | blocks/merge_streams/merge_streams_block.py:36-47 | `persisted_values` lists the slots exactly when no expiration is configured, and nothing otherwise |
| MergeStreamsBlock.MergeStreams.ProcessGroupSignals | blocks/merge_streams/merge_streams_block.py:49-64 | the group's slots and the merges follow the batch signal by signal; with an expiration the slot's previous job is cancelled and exactly one new job is scheduled for that slot, and without one no job is touched |
| MergeStreamsBlock.MergeStreams.ReceiveAll | blocks/merge_streams/merge_streams_block.py:52-61 | the loop leaves the group's slots where the batch takes them and returns the batch's merges; other groups keep their slots |
| MergeStreamsBlock.MergeStreams.ScheduleExpiration | blocks/merge_streams/merge_streams_block.py:90-96 | the slot's pending job, if any, is cancelled, and a new one-shot job with the configured expiration becomes the slot's job |
| MergeStreamsBlock.MergeStreams.Expire | blocks/merge_streams/merge_streams_block.py:98-100 | the expiration empties exactly that slot and forgets its job |
| MergeStreamsScenarios.MergeOfSingles | blocks/merge_streams/merge_streams_block.py:66-76 | merging two one-attribute signals with different plain names keeps both attributes |
| MergeStreamsScenarios.Send | blocks/merge_streams/merge_streams_block.py:49-64 | one signal on one input, for the group None |
| MergeStreamsScenarios.NotifyOnce | blocks/merge_streams/tests/test_merge_streams_block.py:53-66 | with notify_once and no expiration, the five signals of the test give exactly the merges A+B and D+E |
| MergeStreamsScenarios.Persistent | blocks/merge_streams/tests/test_merge_streams_block.py:68-85 | without notify_once, every signal after the first pair merges with the other input's latest signal: A+B, C+B, D+B, D+E |
| MergeStreamsScenarios.ExpiringNotifyOnce | blocks/merge_streams/tests/test_merge_streams_block.py:87-100 | when A expires before B arrives, with notify_once, the merges are C+B and D+E |
| MergeStreamsScenarios.ExpiringPersistent | blocks/merge_streams/tests/test_merge_streams_block.py:102-117 | with the same expiration and without notify_once the merges are C+B, D+B and D+E |
| MergeStreamsScenarios.ResetExpiration | blocks/merge_streams/tests/test_merge_streams_block.py:125-141 | three signals on one input, each before the previous expired, cancel the first two jobs and leave only the third pending |
| MergeStreamsScenarios.ExpireFresh | blocks/merge_streams/tests/test_merge_streams_block.py:119-123 | the expiration job on a fresh block leaves the slot empty and no job pending |
| MergeStreamsScenarios.DuplicateAttribute | blocks/merge_streams/tests/test_merge_streams_block.py:45-51 | on an attribute both signals have, the second input's value wins |
| MergeStreamsScenarios.GroupOneMerge | blocks/merge_streams/tests/test_merge_streams_block.py:30-43 | the two group-1 signals of the grouping test merge into one signal with both attributes and the group |
| MergeStreamsScenarios.Groups | blocks/merge_streams/tests/test_merge_streams_block.py:30-43 | groups keep separate slots: only the group that got both inputs emits a merge |
| SleepBlock.TrimKeeps | blocks/sleep/sleep_block.py:98-100 | trimming keeps exactly the stored batches due at the given time or later |
| SleepBlock.TrimAppend | blocks/sleep/sleep_block.py:98-100 | trimming works batch by batch, so it distributes over concatenation |
| SleepBlock.TrimTwice | blocks/sleep/sleep_block.py:98-100 | trimming again at the same time or later is the same as trimming once at the later time |
| SleepBlock.StoreAfterTrim | blocks/sleep/sleep_block.py:91-96 | storing after a trim at the same time is storing and then trimming |
| SleepBlock.StoreStep | blocks/sleep/sleep_block.py:91-96 | a run of stores at one time is one store of all their batches, trimmed once |
| SleepBlock.ReloadedKeeps | blocks/sleep/sleep_block.py:69-74 | a reloaded batch is exactly a loaded one that is due after now and holds signals, and reloading never keeps anything a trim at now would drop |
| SleepBlock.ReloadedSnoc | blocks/sleep/sleep_block.py:69-74 | one more loaded batch is reloaded exactly when it is in the future and not empty |
| SleepBlock.ReloadedAppend | blocks/sleep/sleep_block.py:69-74 | reloading works batch by batch |
| SleepBlock.StampedSnoc | blocks/sleep/sleep_block.py:52-54 | one more bucket adds exactly its own stored batch |
| SleepBlock.DelaysSnoc | blocks/sleep/sleep_block.py:69-74 | one more reloaded batch adds exactly its own emit job |
| SleepBlock.Sleep.constructor | blocks/sleep/sleep_block.py:26-30 | a new block stores nothing, has loaded nothing and has scheduled no job |
| SleepBlock.Sleep.Configure | blocks/sleep/sleep_block.py:35-39 | the batches persistence loaded are set aside for start and the store starts empty |
| SleepBlock.Sleep.StoreSignals | blocks/sleep/sleep_block.py:91-96 | a non-empty batch is added to the store, and then every batch due before now is dropped |
| SleepBlock.Sleep.EmitAfter | blocks/sleep/sleep_block.py:76-89 | exactly one emit job with that delay and those signals is scheduled, and the batch is stored for the given emit time, or now plus the delay when none (or 0) is given |
| SleepBlock.Sleep.GroupSignalsByInterval | blocks/sleep/sleep_block.py:56-61 | fails exactly when some interval fails to evaluate; otherwise groups the signals by interval, each interval once in order of first occurrence with its signals in input order |
| SleepBlock.Sleep.ProcessSignals | blocks/sleep/sleep_block.py:49-54 | a failing interval schedules and stores nothing; otherwise one emit job per distinct interval, delayed by it and holding exactly the signals with that interval, and each bucket stored as due then |
| SleepBlock.Sleep.EmitBuckets | blocks/sleep/sleep_block.py:52-54 | one emit job per bucket, in order, and each bucket stored as due its interval after now |
| SleepBlock.Sleep.SchedulePersistenceEmits | blocks/sleep/sleep_block.py:63-74 | every loaded batch still in the future and not empty gets an emit job for the time left and is stored again with its own emit time; the others are dropped |
| SleepBlock.Sleep.Stop | blocks/sleep/sleep_block.py:45-47 | at stop, what is pending is trimmed at now, ready to be persisted |
| SleepScenarios.OneBucket | blocks/sleep/sleep_block.py:56-61 | with one interval for every signal a non-empty batch is a single bucket |
| SleepScenarios.PersistSave | blocks/sleep/tests/test_sleep_block.py:74-101 | two batches of two signals held for ten seconds and a stop before either is due leave both pending, the later batch due later |
| SleepScenarios.PersistLoad | blocks/sleep/tests/test_sleep_block.py:103-127 | of the loaded batches, one due now and one due in a second, only the later is scheduled again, with a second to wait, and nothing is left to persist once it is past |
| DynamicPublisherBlock.IdleValid | blocks/communication/dynamic_publisher.py:45-50 | a block that has published nothing has an empty cache that agrees with the (empty) record of created publishers and scheduled jobs |
| DynamicPublisherBlock.FullTopic | blocks/communication/dynamic_publisher.py:78-79 | a local publisher with a non-empty identifier sends on `<identifier>.<topic>`; every other publisher sends on the evaluated topic |
| DynamicPublisherBlock.FullTopicInjective | blocks/communication/dynamic_publisher.py:78-79 | two evaluated topics with the same full topic are the same topic, so grouping by full topic separates exactly the evaluated topics |
| DynamicPublisherBlock.KeptMeaning | blocks/communication/dynamic_publisher.py:75-83 | a signal goes on to be published exactly when its topic expression evaluates; when every topic evaluates no signal is dropped |
| DynamicPublisherBlock.Payload | blocks/communication/dynamic_publisher.py:85-98 | a non-local group is sent as it is; a local group is sent as one signal whose `signals` attribute holds the encoded group; an encoding failure sends nothing |
| DynamicPublisherBlock.PayloadsTopics | blocks/communication/dynamic_publisher.py:85-98 | every group that is sent is a group of the partition, with its topic unchanged |
| DynamicPublisherBlock.PayloadsDistinct | blocks/communication/dynamic_publisher.py:85-98 | the groups that are sent have pairwise distinct topics when the partition's do |
| DynamicPublisherBlock.PayloadsPlain | blocks/communication/dynamic_publisher.py:85-98 | for a non-local publisher every group is sent, holding exactly its signals |
| DynamicPublisherBlock.FetchValid | blocks/communication/dynamic_publisher.py:125-140 | handing out a publisher keeps the cache consistent: each cached topic's publisher was created for it and is not closed, and its pending job was scheduled for it and is not cancelled |
| DynamicPublisherBlock.FetchCache | blocks/communication/dynamic_publisher.py:106-140 | after `__get_publisher` the topic is cached with the publisher handed out; a cached topic keeps its publisher and its place, a new one gets one newly created publisher and is listed last; the topic's previous close job, if it had one, is cancelled, and a new close job for the topic after the ttl is scheduled exactly when the ttl is not negative, and is then the topic's pending job; other topics, the sends and the closes are unchanged |
| DynamicPublisherBlock.FetchPub | blocks/communication/dynamic_publisher.py:106-123 | the publisher handed out was created for that topic |
| DynamicPublisherBlock.PublishAllValid | blocks/communication/dynamic_publisher.py:85-98 | the send loop keeps the cache consistent with the created publishers and the scheduled jobs |
| DynamicPublisherBlock.PublishAllKeys | blocks/communication/dynamic_publisher.py:85-98 | after the send loop the cached topics are exactly those cached before plus those sent on |
| DynamicPublisherBlock.PublishAllCache | blocks/communication/dynamic_publisher.py:85-98 | each topic sent on is cached, with a close job exactly when the ttl is not negative; previously cached topics keep their publisher; topics not sent on keep their entry; nothing is closed |
| DynamicPublisherBlock.PublishAllPubs | blocks/communication/dynamic_publisher.py:85-98 | every cached publisher after the send loop was created for its topic |
| DynamicPublisherBlock.PublishAllSends | blocks/communication/dynamic_publisher.py:85-98 | the send loop appends one send per group, in order, each holding that group's payload and going to a publisher created for that group's topic |
| DynamicPublisherBlock.PublishAllFresh | blocks/communication/dynamic_publisher.py:106-123 | groups on distinct topics that are not cached create one publisher each, in order, and each group goes to its own new publisher |
| DynamicPublisherBlock.FreshStep | blocks/communication/dynamic_publisher.py:106-123 | a send on a topic not yet cached creates the next publisher and sends to it |
| DynamicPublisherBlock.PublishedGroups | blocks/communication/dynamic_publisher.py:70-98 | a non-local `process_signals` sends once per distinct evaluated topic, in first-occurrence order, each send holding exactly that topic's signals in order and going to a publisher created for that topic |
| DynamicPublisherBlock.WithoutDistinct | blocks/communication/dynamic_publisher.py:100-104 | removing a topic from the cache order lists each remaining topic once and no longer lists the removed one |
| DynamicPublisherBlock.Close | blocks/communication/dynamic_publisher.py:100-104 | closing succeeds exactly when the topic is cached; it then removes the topic, closes its publisher and changes nothing else; an uncached topic raises |
| DynamicPublisherBlock.CloseValid | blocks/communication/dynamic_publisher.py:100-104 | closing a cached topic keeps the cache consistent with the record |
| DynamicPublisherBlock.ClosePubs | blocks/communication/dynamic_publisher.py:100-104 | after closing a topic no publisher that is still cached has been closed |
| DynamicPublisherBlock.PubsOf | blocks/communication/dynamic_publisher.py:60-68 | the publishers of the listed cached topics, one per topic, in order |
| DynamicPublisherBlock.JobsOfMeaning | blocks/communication/dynamic_publisher.py:60-68 | the jobs collected for cancelling are exactly the pending close jobs of the listed topics |
| DynamicPublisherBlock.StopValid | blocks/communication/dynamic_publisher.py:60-68 | after `stop` the cache is empty and consistent with the record |
| DynamicPublisherBlock.StopCloses | blocks/communication/dynamic_publisher.py:60-68 | `stop` closes every cached publisher exactly once and closes no other publisher |
| DynamicPublisherBlock.StopCancels | blocks/communication/dynamic_publisher.py:60-68 | `stop` cancels exactly the pending close jobs of the cached topics |
| DynamicPublisherBlock.DynamicPublisher.constructor | blocks/communication/dynamic_publisher.py:45-50 | a new block is non-local, has no local identifier and has created, sent, scheduled and closed nothing |
| DynamicPublisherBlock.DynamicPublisher.Configure | blocks/communication/dynamic_publisher.py:54-58 | the block is local as configured; the local identifier is read only for a local publisher |
| DynamicPublisherBlock.DynamicPublisher.Partition | blocks/communication/dynamic_publisher.py:75-83 | the topic loop groups the signals whose topic evaluates by full topic, in first-occurrence order |
| DynamicPublisherBlock.DynamicPublisher.GetPublisher | blocks/communication/dynamic_publisher.py:125-140 | the block's new state is the fetch of the topic and the publisher returned is the cached or newly created one |
| DynamicPublisherBlock.DynamicPublisher.PublishGroup | blocks/communication/dynamic_publisher.py:85-98 | one pass of the send loop: when the payload can be made it is sent to the topic's publisher, otherwise nothing changes |
| DynamicPublisherBlock.DynamicPublisher.PublishNext | blocks/communication/dynamic_publisher.py:85-98 | after the groups before it, sending group `i` leaves the state the send loop reaches over one more group |
| DynamicPublisherBlock.DynamicPublisher.PublishGroups | blocks/communication/dynamic_publisher.py:85-98 | the send loop over a partition leaves one delivery per group whose payload can be made, in the partition's order |
| DynamicPublisherBlock.DynamicPublisher.ProcessSignals | blocks/communication/dynamic_publisher.py:70-98 | the block's new state is what the send loop makes of the partition of the kept signals by full topic |
| DynamicPublisherBlock.DynamicPublisher.ClosePublisher | blocks/communication/dynamic_publisher.py:100-104 | the close job succeeds exactly when the topic is cached, and then the state is that of closing it; otherwise nothing changes |
| DynamicPublisherBlock.DynamicPublisher.Stop | blocks/communication/dynamic_publisher.py:60-68 | the new state is the old one with every pending job cancelled, every cached publisher closed and the cache emptied |
| DynamicPublisherScenarios.SigTopicOf | blocks/communication/tests/test_dynamic_publisher_block.py:17-35 | the topic `topic.{{ $sig }}` of a signal with `sig = v` is `topic.v` |
| DynamicPublisherScenarios.PublishOne | blocks/communication/tests/test_dynamic_publisher_block.py:17-35 | processing one signal with a topic sends exactly it to that topic's publisher |
| DynamicPublisherScenarios.CreatingAPublisher | blocks/communication/tests/test_dynamic_publisher_block.py:17-35 | one signal creates one publisher for `topic.foo`, sends the signal to it once, and `stop` closes it |
| DynamicPublisherScenarios.MultiplePublishers | blocks/communication/tests/test_dynamic_publisher_block.py:37-63 | batches on `topic.foo` and `topic.bar` create one publisher each, each receiving its batch, and `stop` closes both |
| DynamicPublisherScenarios.ReusingPubs | blocks/communication/tests/test_dynamic_publisher_block.py:66-86 | a second batch on the same topic goes to the publisher already created, and no second one is created |
| DynamicPublisherScenarios.Groups | blocks/communication/tests/test_dynamic_publisher_block.py:88-127 | the six test signals are grouped as foo 1 4 6, bar 2 5, baz 3 |
| DynamicPublisherScenarios.PublishThreeFresh | blocks/communication/tests/test_dynamic_publisher_block.py:88-127 | three groups on distinct topics from a fresh block create three publishers, in order, each receiving its group |
| DynamicPublisherScenarios.Partitioning | blocks/communication/tests/test_dynamic_publisher_block.py:88-127 | six signals over three topics create three publishers, and each receives once exactly its topic's signals in order |
| DynamicPublisherScenarios.Closing | blocks/communication/tests/test_dynamic_publisher_block.py:140-157 | the publish schedules a close job after the ttl; nothing is closed before it runs; running it closes the publisher and removes its topic |
| DynamicPublisherScenarios.LocalPublisher | blocks/communication/tests/test_dynamic_publisher_block.py:159-183 | a local block with identifier `test` publishes on `test.topic.foo` one signal holding the pickled batch |
| DynamicPublisherScenarios.NeverExpiring | blocks/communication/tests/test_dynamic_publisher_block.py:185-202 | with a negative ttl the cached publisher has no close job |
| FilePersistence.Extension | service_tests/modules/module_persistence_file/persistence.py:215-219 | the extension is `.dat` exactly when the format is the pickle value 1, and `.cfg` otherwise (the enum member itself included) |
| FilePersistence.DirPrefix | service_tests/modules/module_persistence_file/persistence.py:173-176 | joining puts the folder, followed by a separator unless it is empty or already ends in one, before the name |
| FilePersistence.CollectionItemFileInjective | service_tests/modules/module_persistence_file/persistence.py:186-200 | two different ids of one collection are stored in two different files |
| FilePersistence.ItemFileInjective | service_tests/modules/module_persistence_file/persistence.py:202-213 | two different ids outside collections are stored in two different files |
| FilePersistence.SaveThenLoad | service_tests/modules/module_persistence_file/persistence.py:58-75 | loading what was just saved under an id and collection gives the item back, or the default when the item is falsy |
| FilePersistence.RemoveThenLoad | service_tests/modules/module_persistence_file/persistence.py:129-144 | after a remove, loading the id gives the default |
| FilePersistence.WriteKeepsOthers | service_tests/modules/module_persistence_file/persistence.py:99-144 | saving or removing one id leaves what every other id of the same collection (or of no collection) loads |
| FilePersistence.LastDot | service_tests/modules/module_persistence_file/persistence.py:92 | the index found is a dot with no dot after it; none is found only when the name has no dot |
| FilePersistence.SplitExt | service_tests/modules/module_persistence_file/persistence.py:92-94 | `os.path.splitext`: the two parts make up the name again; the extension is empty or a single dot-led part with no other dot, after a stem that is not all dots |
| FilePersistence.LastDotAppend | service_tests/modules/module_persistence_file/persistence.py:92-94 | the last dot of a name ending in a suffix with a dot lies in that suffix |
| FilePersistence.SplitItemName | service_tests/modules/module_persistence_file/persistence.py:92-94 | an item's file name splits back into its id and the extension exactly when the id is not made only of dots |
| FilePersistence.ChildJoin | service_tests/modules/module_persistence_file/persistence.py:91-96 | a name without separators joined onto a folder is listed in that folder under that name |
| FilePersistence.ChildIsJoin | service_tests/modules/module_persistence_file/persistence.py:91-96 | a file listed in a folder is the folder joined with its listed name |
| FilePersistence.ChildrenMeaning | service_tests/modules/module_persistence_file/persistence.py:90-91 | `os.listdir` lists exactly the names of the files directly in the folder, none empty or holding a separator |
| FilePersistence.StemsJoin | service_tests/modules/module_persistence_file/persistence.py:92-94 | every id taken from a listed name is that name less the extension |
| FilePersistence.ListingStep | service_tests/modules/module_persistence_file/persistence.py:91-96 | each listed name with the current extension adds its stem and the file's value to the result; other names add nothing |
| FilePersistence.CollectionItemFileInjectiveAll | service_tests/modules/module_persistence_file/persistence.py:186-200 | the file of an id in a collection determines the id |
| FilePersistence.SavedMeaning | service_tests/modules/module_persistence_file/persistence.py:115-127 | `save_collection` writes each item to its id's file and writes no other file |
| FilePersistence.SavedAdd | service_tests/modules/module_persistence_file/persistence.py:123-127 | writing one more item adds exactly its file |
| FilePersistence.SaveCollectionRoundTrip | service_tests/modules/module_persistence_file/persistence.py:77-127 | saving a collection into a folder holding none of its files and loading it back gives exactly the items, when no id is empty, holds a separator or is only dots |
| FilePersistence.RoundTripItem | service_tests/modules/module_persistence_file/persistence.py:77-127 | each saved item is loaded back under its id |
| FilePersistence.SavedName | service_tests/modules/module_persistence_file/persistence.py:197-200 | the file of a plain id is listed in its collection folder as the id followed by the extension, which splits back into the two |
| FilePersistence.RoundTripKey | service_tests/modules/module_persistence_file/persistence.py:77-127 | every id the loaded collection holds is an id that was saved |
| FilePersistence.RemoveCollectionEmpties | service_tests/modules/module_persistence_file/persistence.py:146-158 | after `remove_collection` the collection loads as nothing, so `load_collection` gives the default |
| FilePersistence.SaveStep | service_tests/modules/module_persistence_file/persistence.py:123-127 | one pass of the `save_collection` loop writes one more of the items |
| FilePersistence.RemoveStep | service_tests/modules/module_persistence_file/persistence.py:155-158 | one pass of the `remove_collection` loop removes the name's file exactly when it has the current extension |
| FilePersistence.Settings.constructor | service_tests/modules/module_persistence_file/persistence.py:29-31 | the class defaults, shared by every instance: empty root id, no root folder, the pickle member as the format |
| FilePersistence.Settings.Configure | service_tests/modules/module_persistence_file/persistence.py:37-53 | the class method sets the root id, root folder and format to the context's, for every instance of the class |
| FilePersistence.Persistence.constructor | service_tests/modules/module_persistence_file/persistence.py:33-35 | an instance keeps no configuration of its own: it reads the class attributes and the file system |
| FilePersistence.SharedInstances | service_tests/modules/module_persistence_file/persistence.py:29-75 | an instance made before `configure` reads the configured values as one made after it does, and what one instance saves the other loads |
| FilePersistence.Persistence.Load | service_tests/modules/module_persistence_file/persistence.py:58-75 | the value stored in the id's file (in the collection when one is given), or the default when the file is missing or its value is falsy |
| FilePersistence.Persistence.Save | service_tests/modules/module_persistence_file/persistence.py:99-113 | the id's file holds the item and no other file changes |
| FilePersistence.Persistence.Remove | service_tests/modules/module_persistence_file/persistence.py:129-144 | the id's file is gone when it existed, and no other file changes |
| FilePersistence.Persistence.LoadCollection | service_tests/modules/module_persistence_file/persistence.py:77-97 | every file directly in the collection folder with the current extension, by id, or the default when there is none |
| FilePersistence.Persistence.SaveCollection | service_tests/modules/module_persistence_file/persistence.py:115-127 | the files are the old ones with every item written to its id's file in the collection folder |
| FilePersistence.Persistence.RemoveCollection | service_tests/modules/module_persistence_file/persistence.py:146-158 | the files are the old ones less every file directly in the collection folder with the current extension |
| ServiceTestCase.Placeholder | service_tests/service_test_case.py:221 | a variable's placeholder is its name inside double square brackets |
| ServiceTestCase.OccursTail | service_tests/service_test_case.py:221-223 | an occurrence of the placeholder not at the start of a string is an occurrence in the rest of it |
| ServiceTestCase.ReplaceAllUnchanged | service_tests/service_test_case.py:221-223 | substitution leaves a string as it was exactly when the placeholder does not occur in it or is replaced by itself |
| ServiceTestCase.ReplaceAllLength | service_tests/service_test_case.py:221-223 | substituting a text of the placeholder's length keeps the length; a longer text grows the string by at least one character per replacement, a shorter one shrinks it by at least one |
| ServiceTestCase.PrefixDiffers | service_tests/service_test_case.py:221-223 | replacing a leading occurrence by a different text gives a different string |
| ServiceTestCase.ReplaceInShape | service_tests/service_test_case.py:218-237 | substitution keeps strings strings, dictionaries dictionaries with the same keys and lists lists, and leaves every other value alone |
| ServiceTestCase.ReplaceInClean | service_tests/service_test_case.py:226-236 | after substitution no list holds an item that is neither a string nor a dictionary, since the rebuilt lists drop such items |
| ServiceTestCase.ReplaceInListClean | service_tests/service_test_case.py:226-236 | a rebuilt list holds only strings and dictionaries |
| ServiceTestCase.ReplaceInUnchanged | service_tests/service_test_case.py:218-237 | substitution leaves a value as it was exactly when no list in it would lose an item and the placeholder occurs in no string it reaches (or is replaced by itself) |
| ServiceTestCase.ReplaceInListUnchanged | service_tests/service_test_case.py:226-236 | a list is rebuilt unchanged exactly when all its items are strings or dictionaries that substitution leaves alone |
| ServiceTestCase.ReplaceInListShorter | service_tests/service_test_case.py:226-236 | a rebuilt list is never longer than the original |
| ServiceTestCase.ReplaceVarsKeys | service_tests/service_test_case.py:211-216 | substituting the variables never adds or removes a key of a block configuration |
| ServiceTestCase.ReplaceVarUnchanged | service_tests/service_test_case.py:218-237 | substituting one variable leaves a configuration alone exactly when it mentions the variable nowhere (or the value is the placeholder itself) and holds no list item that would be dropped |
| ServiceTestCase.OverrideMeaning | service_tests/service_test_case.py:285-291 | with an override for the block's name the configuration gains the override's keys, takes its values for them and keeps every other key; without one nothing changes |
| ServiceTestCase.CountCheckMeaning | service_tests/service_test_case.py:390-416 | a count assertion passes exactly for an integer (booleans included) equal to the count, raises TypeError for any other kind of expected value and AssertionError for a wrong count |
| ServiceTestCase.AssertNumPublished | service_tests/service_test_case.py:389-398 | passes exactly when the expected value is an integer (booleans included) equal to the number of published signals; TypeError for any other kind of value, AssertionError for a wrong count |
| ServiceTestCase.AssertNumProcessed | service_tests/service_test_case.py:400-415 | compares the expected value with the length of the list recorded for the block on the given input, or for the block across its inputs when no input is given, with TypeError and AssertionError as for the published count; a block or input never recorded counts 0 |
| ServiceTestCase.AssertNumProcessedAfterRoute | service_tests/service_test_case.py:400-415 | after the router delivers signals along a route, the processed count a block's assertion reads is the count recorded before plus the number of signals once per delivery to that block (on that input when one is given) |
| ServiceTestCase.SetupOneMeaning | service_tests/service_test_case.py:165-183 | a service block is configured exactly when its mapped configuration exists and is not empty, with that configuration renamed to the block, overridden and substituted; no other block changes |
| ServiceTestCase.ConfiguredKeys | service_tests/service_test_case.py:176-180 | a configured block has every key of its stored configuration, its name, and the keys of its override |
| ServiceTestCase.DoneStep | service_tests/service_test_case.py:289-290 | one pass of the override loop copies one more key of the override |
| ServiceTestCase.ServiceTest.constructor | service_tests/service_test_case.py:157-187 | a new test case holds the given stored configurations and no configured blocks |
| ServiceTestCase.ServiceTest.ReplaceEnvVars | service_tests/service_test_case.py:211-216 | the result is the configuration with each variable substituted in turn, and it has the same keys |
| ServiceTestCase.ServiceTest.OverrideBlockConfig | service_tests/service_test_case.py:285-291 | the result is the configuration updated with the override for its block's name, if any |
| ServiceTestCase.ServiceTest.SetupBlocks | service_tests/service_test_case.py:157-187 | the stored configurations and the configured blocks are those of setting up each service block in execution order, with the mappings read in order so that a later mapping for a name wins |
| ServiceTestRouting.FirstEntry | service_tests/router.py:29-31 | the first execution entry with the block's name, and none exactly when no entry has it |
| ServiceTestRouting.Reached | service_tests/router.py:37-40 | the receivers before the first one the router has no block for all name blocks it has, and that first one names none |
| ServiceTestRouting.RecordAllCounts | service_tests/router.py:37-56 | after a delivery each block's processed signals are its old ones followed by the signals once per receiver naming it |
| ServiceTestRouting.RecordAllInputCounts | service_tests/router.py:62-75 | the same per block and input, with the default input recorded as no input |
| ServiceTestRouting.RecordAllStep | service_tests/router.py:37-56 | delivering to one more receiver records the signals once more for it |
| ServiceTestRouting.RepeatLength | service_tests/router.py:72-73 | the signals recorded n times are n times as many |
| ServiceTestRouting.OccurrencesSplit | service_tests/router.py:72-73 | every delivery to a block is recorded once under the default input or once under a named one |
| ServiceTestRouting.RouteMeaning | service_tests/router.py:25-56 | an empty list reaches nobody; a notifying block missing from the execution raises IndexError; otherwise every receiver is reached exactly when all of them are blocks of the router, and else the first missing one raises KeyError after those before it were reached |
| ServiceTestRouting.ServiceTestRouter.constructor | service_tests/router.py:11-18 | a new router has no execution, no blocks and no processed signals |
| ServiceTestRouting.ServiceTestRouter.Configure | service_tests/router.py:20-23 | the router takes the execution and the blocks |
| ServiceTestRouting.ServiceTestRouter.CallProcessed | service_tests/router.py:62-75 | a block's call appends the signals to its processed signals and to those of its input |
| ServiceTestRouting.ServiceTestRouter.NotifySignals | service_tests/router.py:25-56 | the outcome is the route's, and the processed signals are the old ones with the signals recorded for each receiver reached |
| ServiceTestRouting.ServiceTestRouter.Deliver | service_tests/router.py:37-56 | the receiver loop calls each receiver in order up to the first one the router has no block for, which raises KeyError, and records exactly those calls |
| HttpRequestsBase.DictOfKeys | blocks/http_requests/http_requests_block.py:45-49 | a dictionary built from pairs has exactly the pairs' keys |
| HttpRequestsBase.DictOfValues | blocks/http_requests/http_requests_block.py:45-49 | each key of a dictionary built from pairs holds the value of the last pair with that key |
| HttpRequestsBase.HeadersKeys | blocks/http_requests/http_requests_base.py:178-185 | a header is sent exactly when some entry has that name and both the name and the value are truthy |
| HttpRequestsBase.HeadersLast | blocks/http_requests/http_requests_base.py:178-185 | a header takes the value of the last entry that sets it |
| HttpRequestsBase.CreateHeaders | blocks/http_requests/http_requests_base.py:178-185 | the header loop builds exactly the headers of the entries with a truthy name and value, a later one winning |
| HttpRequestsBase.Auth | blocks/http_requests/http_requests_base.py:168-173 | basic credentials are sent exactly when the username is truthy, and then they are the username and password |
| HttpRequestsBase.TimeoutOf | blocks/http_requests/http_requests_base.py:79 | the request has a timeout exactly when the evaluated timeout is truthy, and then it is that value |
| HttpRequestsBase.BasePayload | blocks/http_requests/http_requests_base.py:175-176 | the base payload is always a JSON text, never a form |
| HttpRequestsBase.BasePayloadHidden | blocks/http_requests/http_requests_base.py:175-176 | a hidden attribute never changes the payload, and a signal without hidden attributes is encoded as it is |
| HttpRequestsBase.BuildListMeaning | blocks/http_requests/http_requests_base.py:124-130 | a list body builds exactly when every element does, and then gives one signal per element in order; otherwise the first failing element decides whether it is a ValueError |
| HttpRequestsBase.BuildListFailed | blocks/http_requests/http_requests_base.py:124-130 | once an element fails, the whole list fails as that element did |
| HttpRequestsBase.OutputsMeaning | blocks/http_requests/http_requests_base.py:114-166 | a dictionary body gives its one enriched signal; a list body one signal per element in order and none for an empty list; a non-JSON or scalar body the raw text as a signal, or the input signal when JSON is required, and no signal at all when the raw signal cannot be built (the `finally` returns the empty result); a value error while enriching the dictionary or the first failing list element ends as a non-JSON body does; any other enrichment or parsing failure gives the input signal |
| HttpRequestsBase.Attach | blocks/http_requests/http_requests_base.py:152-158 | every output is kept, in order, with the response attached to it |
| HttpRequestsBase.ProcessResponse | blocks/http_requests/http_requests_base.py:114-166 | `_process_response` gives the outputs of the body with the response attached to each |
| HttpRequestsBase.RequestFor | blocks/http_requests/http_requests_base.py:79-86 | the request carries the evaluated url, the truthy headers, the timeout when truthy, the credentials when a username is set, and the signal's payload |
| HttpRequestsBase.StatusIgnored | blocks/http_requests/http_requests_base.py:91-101 | a response is processed the same way whatever its status code: the outputs depend only on the body and text |
| HttpRequestsBase.BatchOutputsAppend | blocks/http_requests/http_requests_base.py:61-68 | the outputs of a batch are the outputs of its parts, in order |
| HttpRequestsBase.BatchEmpty | blocks/http_requests/http_requests_base.py:61-68 | a batch has no outputs exactly when every signal's request was dropped or gave nothing |
| HttpRequestsBase.ProcessSignals | blocks/http_requests/http_requests_base.py:61-68 | `process_signals` notifies once, with the outputs of every request in order, exactly when there are some |
| HttpRequestsBlock.DictOfEmpty | blocks/http_requests/http_requests_block.py:45-50 | the parameter dictionary is empty exactly when there are no parameters |
| HttpRequestsBlock.PayloadMeaning | blocks/http_requests/http_requests_block.py:44-52 | no parameters give the empty dictionary as it is; form encoding gives the parameter dictionary; otherwise the dictionary is JSON-encoded; the dictionary has exactly the parameters' keys, each with its last value |
| HttpRequestsBlock.CreatePayload | blocks/http_requests/http_requests_block.py:44-52 | the payload loop builds the payload the parameters describe |
| HttpRequestsBlock.BlockConfig | blocks/http_requests/http_requests_block.py:44-52 | the block keeps the base block's url, headers and request call, and sends the parameters' payload for every signal |
| HttpRequestsBlock.RequestPayload | blocks/http_requests/http_requests_block.py:44-52 | every request the block makes carries the payload of the signal's parameters |
| SensorsReader.FirstBreak | blocks/metrics/sensors.py:27 | the first line break, or the length when there is none |
| SensorsReader.SplitLines | blocks/metrics/sensors.py:27 | `splitlines`: no line holds a break; there are no lines exactly for an empty text; a text without breaks is one line |
| SensorsReader.LStrip | blocks/metrics/sensors.py:52 | the result is a suffix of the input, losing only leading whitespace and starting with none |
| SensorsReader.RStrip | blocks/metrics/sensors.py:52 | the result is a prefix of the input, losing only trailing whitespace and ending with none |
| SensorsReader.FirstColonSpace | blocks/metrics/sensors.py:54 | the first colon followed by whitespace, or the length when there is none |
| SensorsReader.TempFound | blocks/metrics/sensors.py:52-56 | a stripped line gives a temperature exactly when it starts with `temp` and holds a colon followed by whitespace |
| SensorsReader.TempParts | blocks/metrics/sensors.py:54-56 | the name is the text before the first colon followed by whitespace, so it starts with `temp`; the value is the text after the whitespace that follows that colon |
| SensorsReader.LastAdapterLine | blocks/metrics/sensors.py:36-45 | the last line up to a given one that names an adapter |
| SensorsReader.AdapterScan | blocks/metrics/sensors.py:36-45 | from a fresh reader each line belongs to the adapter named by the last adapter line up to it, and a new adapter is pending exactly after a blank line that does not itself name one |
| SensorsReader.AdapterStepKeeps | blocks/metrics/sensors.py:36-45 | once an adapter is known or pending, every later line has a known adapter |
| SensorsReader.Key | blocks/metrics/sensors.py:32 | a temperature is stored under `sensors_<adapter>_<name>` |
| SensorsReader.ReadKeeps | blocks/metrics/sensors.py:12-34 | reading keeps every key the given dictionary holds, adds only keys starting with `sensors_` and changes no value under any other key |
| SensorsReader.ReadFirstLine | blocks/metrics/sensors.py:28-33 | a line without a temperature adds nothing; a temperature line sets its key, replacing an earlier value; a value `float` rejects ends the read with what was filled so far |
| SensorsReader.Sensors.constructor | blocks/metrics/sensors.py:7-10 | a new reader has no adapter and expects one on the next line |
| SensorsReader.Sensors.GetAdapter | blocks/metrics/sensors.py:36-45 | `_get_adapter` takes the line as the adapter when one is pending, marks one as pending after a blank line, and returns the current adapter |
| SensorsReader.Sensors.Read | blocks/metrics/sensors.py:12-34 | the reader's tracking and the result are those of reading the lines of the output in turn |

## Left out

- Threads and locks: the scheduler's `start`, `stop` and `_process_events` loop with its stop and sleep-interrupt events, and every `Lock`/`RLock`. Each operation is modelled as atomic and sequential.
- Real clocks: `monotonic()` is the parameter `mono` and must not go backwards. Durations are integer milliseconds instead of floating-point seconds and `timedelta`.
- `uuid4()`: an id is a natural number supplied by the caller, required to be one never issued before.
- Scheduled callbacks are opaque. A callback is modelled only by the list of ids it unschedules. A callback that calls `schedule_task` or `jump_ahead` on the scheduler again is not modelled: the scheduler is not re-entrant in the model. An exception a callback raises is caught by the source and needs no model.
- Scheduler.Runner.ExecutePending: the base clock is read once per drain pass, while the source reads it again before each pop. With a clock that does not move during a pass the two agree.
- Scheduler.Runner.Configure: requires a non-negative minimum interval. With a negative one, a repeating task with a negative delta makes the source's drain loop run forever, which a terminating model cannot express.
- EventQueue.RemoveFirst: states only that one copy of the event leaves the queue (the multiset), not the order of the rest. The heap is rebuilt right after it, so that order is never observed.
- EventQueue.Heapify: builds a heap bottom-up as a textbook heapify. The array layout can differ from `heapq`'s. That is not observable, because the `(time, id)` keys are distinct.
- The nio framework is not part of this model and appears only as parameters or recorded effects:
  - property expression evaluation, as functions that may fail;
  - `GroupBy.for_each_group`, as `Buckets.GroupBy`;
  - `EnrichSignals.get_output_signal`, as an `enrich` function that may fail;
  - the `Retry` mixin, as one call that may give no response;
  - `notify_signals`, as the list of notifications;
  - `set_status`, as `SetStatus`;
  - the block-side scheduler `Job`, as recorded schedule/cancel requests.
- Python truthiness and equality follow the value model in `Signals`. `True == 1` and `False == 0` are not modelled, except in `isinstance(x, int)` for the count assertions.
- Signals are values: in-place `setattr` on a signal the caller still holds, and aliasing between outputs and inputs, are not modelled. Each output is the new value.
- ReplicatorBlock.Values: only lists and strings are iterated. Other iterables (tuples, sets, dictionaries) count as not iterable, because the value model has no such kinds.
- SleepBlock.Sleep.EmitBuckets: the interval is evaluated once per signal when grouping. The source evaluates it again when scheduling, which gives the same value for a pure expression.
- SleepBlock.Sleep.EmitAfter: one time `now` stands for two clock reads, the `_time()` for the emit time (sleep_block.py:88) and the one for the trim (sleep_block.py:96). When the clock moves between them, the source trims with a later time, and a batch whose emit time lies between the two reads is dropped at once; the model keeps it until the next trim.
- SleepBlock.Sleep.EmitBuckets: the same single `now` stands for the two clock reads of every bucket's `_emit_signals_after_duration` call, and for the reads of all buckets, which the source makes one after another.
- SleepBlock.Sleep.SchedulePersistenceEmits: one time `now` stands for the read that decides which loaded batches are still in the future (sleep_block.py:65) and for each later trim (sleep_block.py:96). With a clock that does not move during the call the two agree.
- SleepBlock.Sleep.ProcessSignals: inherits the single `now` of `EmitBuckets`.
- SleepBlock.TrimKeeps: models `_trim_old_signals` as the source uses it. The method ignores its argument and reads the stored list, and every caller passes the stored list.
- JoinBlock: keys are strings or None. An unhashable key is not modelled; the source catches and logs the error it raises and skips that signal.
- StateBaseBlock.StateBase.Configure: `initial_state` is taken as an already evaluated value.
- DynamicPublisherBlock: the pickling and base64 encoding of a local publisher is an opaque `encode` function, and the time-to-live is in ticks. The close job's scheduling is recorded by the model, and running the job is the `ClosePublisher` call. Opening or sending failures of the communication module (`PublisherError`) and `conn_configure` are not modelled.
- FilePersistence: the pickle and JSON codecs are left out; the store maps a path to a value. Read and write errors are left out. `os.makedirs` is left out, since creating a folder changes no stored value.
- FilePersistence: `os.path.join` is modelled for relative components only. An absolute id or collection name, which resets the path, is not modelled.
- FilePersistence.Persistence.Load: requires a configured root folder. The source would fail on `None` in `os.path.join` before `configure`; the model does not represent that failure.
- FilePersistence.Persistence.Save: requires a configured root folder. The source would fail on `None` in `os.path.join` before `configure`; the model does not represent that failure.
- FilePersistence.Persistence.Remove: requires a configured root folder. The source would fail on `None` in `os.path.join` before `configure`; the model does not represent that failure.
- FilePersistence.Persistence.LoadCollection: requires a configured root folder. The source would fail on `None` in `os.path.join` before `configure`; the model does not represent that failure.
- FilePersistence.Persistence.SaveCollection: requires a configured root folder. The source would fail on `None` in `os.path.join` before `configure`; the model does not represent that failure.
- FilePersistence.Persistence.RemoveCollection: requires a configured root folder. The source would fail on `None` in `os.path.join` before `configure`; the model does not represent that failure.
- ServiceTestCase: `re.sub` is modelled as literal replacement of `[[NAME]]`, assuming names have no regular-expression metacharacters and texts have no backslashes. `str(value)` is the given text.
- ServiceTestCase: `setUp`/`tearDown`, mocked blocks, block discovery, jsonschema validation, publisher and subscriber setup and the `wait_for_*` waits are left out (test plumbing).
- ServiceTestCase: `assert_output_signals`-style content assertions are left out. Only the count assertions are modelled.
- ServiceTestRouting: only the synchronous mode is modelled. `spawn` is left out.
- ServiceTestRouting: `deepcopy` of the signals is left out, since signals are values.
- ServiceTestRouting: what a receiving block does with the signals, and any notification it makes in turn, is left out; only the wrapper's records are kept.
- HttpRequestsBase: the HTTP call itself, retries, JSON parsing of the body and `json.dumps` are parameters.
- HttpRequestsBase: exceptions raised while evaluating headers, params or the timeout are left out. Logging is left out.
- HttpRequestsBase: `_resp` is modelled as pairing each output with the response.
- SensorsReader: the `sensors -u` subprocess call and its `CalledProcessError` are left out. The output is taken as the already stripped and decoded text. `float` parsing is a parameter that may reject the text.
- SensorsReader.TempFound, SensorsReader.TempParts: the name of a temperature line (computed by `TempIn`) is split at the first colon followed by whitespace, as the regular expression `^(.*?):\s+(.*?)$` does, not at the first colon of the line.

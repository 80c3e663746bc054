# A Dafny model of DFHack's core, plugins and containers

DFHack attaches tools to a running game. Its hardest code is stateful C++: a hand-made protocol that lends the
game to tool threads one at a time, plugins that may be unloaded while other threads call into them, a workflow
controller that protects repeat jobs from a game it does not control, flood fills over the map, and the
containers and parsers under them. This project models that code with the fields, stacks, loops and lists it
has, and proves what each piece is for.

* **Handshake.dfy, HandshakeTheorems.dfy** - `Core::Suspend`, `Core::Resume` and the drain loop of
  `Core::Update` as an interleaving of atomic steps of any number of tool threads and the simulation thread,
  with wait sets and chance wake-ups. Mutual exclusion, the life of each condition, termination and freedom
  from deadlock of a drain. Tools do not nest Suspend, and only the simulation thread runs Update.
* **PluginCommands.dfy, PluginLifecycle.dfy** - the reference-counted plugin lock and the command index. One
  thread loads and unloads; command names are disjoint between plugins.
* **JobList.dfy, JobStruct.dfy, JobControl.dfy, WorkflowJobs.dfy, WorkflowConstraints.dfy, WorkflowItems.dfy,
  WorkflowDecisions.dfy, WorkflowProcess.dfy, WorkflowUpdate.dfy, WorkflowRun.dfy** - the world's job list as
  linked objects on the heap, copying and deleting job structures, and the workflow plugin from noticing a lost job
  to deciding which jobs run, up to a whole update and runs of any number of turns. Between updates the game and the
  player may delete and add jobs, flip any flag, change buildings and settings and switch the plugin off and on;
  an id below `job_next_id` that is not in the list never comes back.
* **Reachability.dfy, MapModel.dfy, RevFlood.dfy, FillTraffic.dfy, FloodBrush.dfy, VeinDig.dfy** - four
  explicit-stack floods against one definition of reachability. The map is a finite set of valid tiles.
* **DigMasks.dfy, ExpDig.dfy** - the sixteen-by-sixteen masks of `expdig` and the pattern they draw together.
* **VirtualIdentity.dfy, BitArray.dfy, Tokeniser.dfy, KeySpecs.dfy, KeyBindings.dfy, SplitString.dfy** - fast
  forms against simple ones: class tests with their cache and shortcuts, a bit buffer against a set, and the
  command-line tokeniser, key bindings and string splitter with their round trips.

`dafny verify dfyconfig.toml` checks the whole project.

Where the code does less than its text or its use suggests, the model follows the code and a lemma says exactly
when it does what is meant:

* `expdig diag5r` computes `4*x + 1000 - y` in unsigned arithmetic, which wraps on maps of more than 1001 rows of
  blocks: `DigMasks.Diag5rExactlyUpTo1001`, `ExpDig.Level.Diag5rPaintsIff`.
* A workflow pass in which no constraint asks for anything still sets each governed job to what it already is,
  and for a suspended job that nobody wants this clears the back-off time:
  `WorkflowDecisions.NeutralPassCancelsBackOff`.
* The help of `keybinding` says that later adds have priority; a command that is already bound keeps its place:
  `KeyBindings.AddComesFirstIff`.
* `split_string` undoes joining for one-character separators; for longer ones pieces that are merely free of the
  separator need not come back: `SplitString.SplitUndoesJoinIff`, `SplitString.LongSeparatorCounterexample`.
* `is_instance` answers wrongly for a second vtable with the same class name when the class is childless:
  the contract of `VirtualIdentity.Registry.IsInstance` states the exact condition.
* Registering and unregistering names that are held already loses them: `PluginCommands.RegisterUnregister`.

## Model

| member | source | states |
|---|---|---|
| Handshake.StepKeepsInv | library/Core.cpp:70-98 | Every atomic step of every thread, chance wake-ups included, keeps the invariant that ties each condition's life to where its owner, the simulation thread, both mutexes and the access token are. |
| Handshake.InitInv | library/Core.cpp:733-751 | The invariant holds before any tool has suspended. |
| HandshakeTheorems.RunKeepsInv | library/Core.cpp:733-810 | The invariant holds in every state of every run. |
| HandshakeTheorems.ExactlyOneToken | library/Core.cpp:733-810 | In every reachable state, tools between Suspend's return and Resume, plus raised conditions, plus the raised core condition, plus the simulation thread when it is not waiting for the game, make exactly one. |
| HandshakeTheorems.ExclusiveAccess | library/Core.cpp:733-751 | Two tools never hold the game at once, and the simulation thread never has it while a tool does. |
| HandshakeTheorems.LivesAdvanceByOne | library/Core.cpp:791-807 | Each condition is pushed, popped, signalled, entered, handed back and deleted in that order, no stage skipped or repeated. |
| HandshakeTheorems.DeletedAfterUse | library/Core.cpp:799-806 | When Update deletes a condition no thread will look at it again: its waiter has left Lock. |
| HandshakeTheorems.DrainStepLowersMeasure | library/Core.cpp:791-807 | Every step taken while a drain is under way, by any thread, uses up a natural number unless it is a chance wake-up. |
| HandshakeTheorems.DrainIsBounded | library/Core.cpp:791-807 | The number of steps inside a drain is bounded by the measure at its start plus a constant for each chance wake-up, whatever the interleaving: StackMutex keeps newcomers out. |
| HandshakeTheorems.DrainCanGoOn | library/Core.cpp:791-807 | While a drain is under way some thread can take it forward, and when the simulation thread sleeps on core_cond that thread is a tool: no wake-up is lost, nothing deadlocks. |
| HandshakeTheorems.DrainServesEveryone | library/Core.cpp:791-807 | Every condition parked when a drain is under way has been deleted, hence served, when the drain ends. |
| HandshakeTheorems.ChanceCounts | library/Core.cpp:791-807 | The chance wake-ups in the bound are counted one by one. |
| HandshakeTheorems.StackSteps | library/Core.cpp:741-795 | A step leaves suspended_tools alone, pushes one condition on top, or pops the top one for the next hand-off. |
| HandshakeTheorems.NewestFirst | library/Core.cpp:791-795 | In every run the tool that suspended last is served first: while its condition waits, so does every one pushed before it. |
| HandshakeTheorems.GuardsAre | library/Core.cpp:733-810 | A thread waits only for a mutex that somebody is using, at the places of the protocol that use it, or asleep on its condition. |
| PluginCommands.RegisterUnregister | library/PluginManager.cpp:458-480 | Unregistering right after registering restores the index if and only if nobody held one of the names. |
| PluginCommands.PluginManager.RegisterCommands | library/PluginManager.cpp:459-468 | The loop enters every command of the plugin and changes nothing else. |
| PluginCommands.PluginManager.UnregisterCommands | library/PluginManager.cpp:471-480 | The loop removes every command of the plugin and changes nothing else. |
| PluginLifecycle.StepKeepsInv | library/PluginManager.cpp:78-122 | Every step of callers and loader keeps refcount, lock, state and index consistent. |
| PluginLifecycle.NeverClosedUnderACaller | library/PluginManager.cpp:155-316 | In every run, from the moment a caller saw PS_LOADED until it leaves, the plugin stays loaded, its library open and its command list the same. |
| PluginLifecycle.RefcountIsExact | library/PluginManager.cpp:99-118 | refcount is the number of callers between lock_add and lock_sub, and an unloader asleep in wait has such a caller to wait for. |
| PluginLifecycle.QuiescentIndex | library/PluginManager.cpp:220-257 | Whenever nothing is being loaded or unloaded the index is exactly the union of the loaded plugins' commands, each name leading to its plugin. |
| PluginLifecycle.UnloadCanGoOn | library/PluginManager.cpp:112-118 | A load or unload under way can always take a step, or one of the callers it waits for can. |
| PluginLifecycle.StepLowersWork | library/PluginManager.cpp:78-122 | Every step of a load or unload, or of a call under way, uses up a natural number, unless the loader wakes by chance. |
| PluginLifecycle.UnloadIsBounded | library/PluginManager.cpp:112-118 | Without new calls the steps of a load or unload are bounded by that number at its start plus three for each chance wake-up, whatever the interleaving. |
| PluginLifecycle.ChanceCounts | library/PluginManager.cpp:112-118 | The chance wake-ups in the bound are counted one by one. |
| PluginLifecycle.GuardsAre | library/PluginManager.cpp:78-122 | A call waits, on entering and leaving, only while the loader holds that plugin's lock; a load or unload waits only for another to end, and inside only asleep in wait. |
| PluginLifecycle.CallersLeave | library/PluginManager.cpp:99-118 | Calls change nothing of a plugin but its counter, and a call that leaves wakes at most the loader waiting for its own plugin. |
| PluginLifecycle.LoadEnds | library/PluginManager.cpp:155-228 | A whole load, whatever calls interleave: a loaded or broken plugin stays as it is; an unloaded one ends loaded, its library open and its commands those plugin_init gave, if every answer was good, and else broken with its library closed; no other plugin changes. |
| PluginLifecycle.UnloadEnds | library/PluginManager.cpp:230-269 | A whole unload, whatever calls interleave: a plugin that is not loaded stays as it is; a loaded one ends unloaded with its library closed if plugin_shutdown answered well, and else broken with its library still open; no other plugin changes. |
| JobList.LinkedListAppend | library/include/MiscUtils.h:228-236 | The walk to the end and the two writes extend the doubly linked list by one link, acyclic and prev/next-consistent. |
| JobList.LinkedListInsertAfter | library/include/MiscUtils.h:238-247 | The four writes put the link after the given one, keeping every prev and next consistent. |
| JobList.InsertSortedIncreases | library/modules/Job.cpp:243-254 | Putting a new id in its place keeps the ids strictly increasing. |
| JobList.InsertSortedAt | library/modules/Job.cpp:243-254 | The place after all smaller ids is the sorted place. |
| JobList.World.FindPlace | library/modules/Job.cpp:244-249 | The walk over the heap list stops after exactly the smaller ids, and the test there says whether the id is present. |
| JobList.World.LinkJobIntoWorld | library/modules/Job.cpp:229-256 | Over any mix of new and old ids the list stays acyclic, consistent and strictly increasing; false is returned if and only if the id is present and then nothing changed; otherwise the list carries the old jobs and the new one, and its ids are the old ones plus that one in sorted place. |
| JobStruct.ItemsEqual | library/modules/Job.cpp:106-124 | The comparison of input items answers whether all compared fields and all contained values agree. |
| JobStruct.JobsEqual | library/modules/Job.cpp:126-140 | The comparison of jobs answers whether the compared fields agree and the input items agree one by one. |
| JobStruct.CloneReferences | library/modules/Job.cpp:69-78 | Erasing and cloning from the back leaves fresh copies of exactly the references that name no worker, in order. |
| JobStruct.NoWorkersKeepsAll | library/modules/Job.cpp:69-78 | Cloning references that name no worker keeps every one, so a copy of a copy loses nothing. |
| JobStruct.CloneJobStruct | library/modules/Job.cpp:55-85 | The copy compares equal to the original, shares no object with it, keeps only the repeat and suspend flags, is linked nowhere, and can be deleted. |
| JobStruct.DeleteJobStruct | library/modules/Job.cpp:87-102 | Deleting a free-floating job frees each of its objects exactly once and nothing else. |
| JobStruct.JobCopy.Update | plugins/workflow.cpp:208-217 | After update the held copy equals the job; the old copy is freed just when it differed, and nothing leaks. |
| JobControl.ItemConstraint.ComputeRequest | plugins/workflow.cpp:319-324 | The two requests are the two thresholds and never hold together. |
| JobControl.GoalGap | plugins/workflow.cpp:299-302 | The gap is the greatest number that is at most the setting (five when there is none) and at most half the goal, or one. |
| JobControl.ProtectedJob.TickJob | plugins/workflow.cpp:219-236 | One tick brings the job's control state to the specified next one. |
| JobControl.ProtectedJob.Recover | plugins/workflow.cpp:238-246 | Recovery suspends the job and backs off by five thirds, up to a month. |
| JobControl.ProtectedJob.SetResumed | plugins/workflow.cpp:248-265 | A goal brings the job's control state to the specified next one. |
| JobControl.RunningWearsOff | plugins/workflow.cpp:219-228 | Over any run of ticks a running job keeps running with no time to wait for, and its delay shrinks by the ticks passed, down to a day. |
| JobControl.UnwantedStays | plugins/workflow.cpp:225-236 | A suspended job that is not wanted stays as it is over any run of ticks. |
| JobControl.PlayerSuspends | plugins/workflow.cpp:225-233 | A running job that somebody else suspends is no longer wanted at the next tick and stays suspended. |
| JobControl.EarlyGoalIsKept | plugins/workflow.cpp:229-256 | A goal to run that comes before the resume time is carried out by the first tick from that time on, not by an earlier one. |
| JobControl.StopGoal | plugins/workflow.cpp:257-265 | A goal to stop holds over any time and forgets the resume time; stopping a running job resets its delay, stopping a suspended one keeps it. |
| JobControl.DelayStaysInRange | plugins/workflow.cpp:219-265 | Over every run of ticks, goals, losses and outside edits resume_delay stays within a day and 28 days. |
| JobControl.StaysSuspended | plugins/workflow.cpp:225-265 | A job suspended with a time to wait for stays so, its time and delay kept, over every run of events before that time with no suspend goal, loss or unsuspending from outside. |
| JobControl.NotBeforeResumeTime | plugins/workflow.cpp:225-265 | In particular after a recovery the job stays suspended until its resume time, unless a suspend goal, another loss or the player intervenes. |
| JobControl.ResumesWhenTimeComes | plugins/workflow.cpp:225-256 | When the plugin then wants it to run it is unsuspended exactly from that time on, by a goal or a tick. |
| JobControl.BackOffGrows | plugins/workflow.cpp:238-246 | Losses in a row lengthen the delay each time by 800 ticks or more, until it is a month. |
| JobControl.BackOffTable | plugins/workflow.cpp:238-246 | The delays of a new job lost again and again are 1200, 2000, 3333, 5555, 9258, 15430, 25716 and then always 33600 ticks. |
| WorkflowJobs.Workflow.SeeJob | plugins/workflow.cpp:546-563 | One job of the list is ticked, forgotten or adopted just as its repeat flag and support say, its control state is the specified next one, the suspend flag of a job that is forgotten or not adopted stays as it was, and no other entry changes. |
| WorkflowJobs.Workflow.MarkLost | plugins/workflow.cpp:566-574 | The second loop appends exactly the live entries not seen this tick to pending_recover, once each, and clears their actual_job. |
| WorkflowJobs.Workflow.CheckLostJobs | plugins/workflow.cpp:540-575 | Afterwards keys equal job ids; a job of the list is known just when it repeats and was known or is supported, its entry points at it and is ticked, or fresh if adopted; a job that is not protected keeps its suspend flag; pending_recover has no duplicates and holds exactly the known jobs that are not in the list, their back-off as it was; no building changes. |
| WorkflowJobs.Workflow.RecoverJob | plugins/workflow.cpp:487-538 | A lost job is forgotten just when its building is gone or holds ten jobs, put off just when the building's first job is a destruction or a mood, and otherwise put back under its own id with backed-off timing. |
| WorkflowJobs.Workflow.PutBack | plugins/workflow.cpp:521-537 | The copy is linked under the old id, added to the building and recovered; the branch for an id already in the list is never taken. |
| WorkflowJobs.Workflow.RecoverJobs | plugins/workflow.cpp:589-594 | Erasing while iterating backwards keeps the state valid; afterwards an entry is pending only if its building's first job is a destruction or a mood, forgotten only if its building is gone or full, and otherwise back in the list under its own id with its delay lengthened and its resume time set; one whose building was gone or full from the start is forgotten, one that had to wait from the start waits. The list gains exactly the jobs put back, and each building exactly its own, at the end of its list in the order tried. |
| WorkflowJobs.Workflow.OnUpdate | plugins/workflow.cpp:598-635 | On four frames of five, or when disabled, nothing changes in the plugin or in the game. On the fifth the jobs are checked, and each missing one is tried, with the outcome of RecoverJobs, just when half a day passed or their number is not what was left waiting last time, and otherwise waits; the list and the buildings gain exactly the jobs put back, and flags of jobs that are not protected stay; the state stays valid and every delay stays between a day and a month. |
| WorkflowJobs.Workflow.constructor | plugins/workflow.cpp:331-347 | The plugin as loaded is valid beside any game. |
| WorkflowJobs.Workflow.GameKeepsValid | plugins/workflow.cpp:344-347 | Whatever the game does between updates, short of reusing an old id, keeps the plugin's state valid. |
| WorkflowJobs.Workflow.StopProtect | plugins/workflow.cpp:398-409 | Stopping forgets every job and every pending recovery, and restores the initial validity whatever the plugin's state was. |
| WorkflowJobs.EraseOne | plugins/workflow.cpp:589-594 | Erasing one entry of a duplicate-free list removes just that entry and leaves it duplicate-free. |
| WorkflowConstraints.LinkJobConstraint | plugins/workflow.cpp:721-759 | One output links exactly the constraints it counts toward, once, on both sides. |
| WorkflowConstraints.CoversWhen | plugins/workflow.cpp:729-748 | When an output counts: type, subtype and material must match; a mask is checked against the material if that is known and otherwise must share a category with the output's own mask. |
| WorkflowConstraints.MapJobConstraints | plugins/workflow.cpp:952-976 | Afterwards job-in-constraint and constraint-in-job are converse, duplicate-free, about live jobs only, and hold exactly the pairs whose job has a covered output; a constraint is active if and only if one of its jobs runs. |
| WorkflowItems.TallyIsExact | plugins/workflow.cpp:1077-1153 | Available plus in-use is the number of unflagged matching items, available the number of the free ones among them, and the amount the sum of their stack sizes. |
| WorkflowItems.ThoseAreWhere | plugins/workflow.cpp:1077-1153 | The items whose stacks are summed are as many as the items counted, so none is left out or taken twice. |
| WorkflowItems.OneItem | plugins/workflow.cpp:1077-1153 | The flags, types and sizes that make one item counted, available or in use, each once, and what it adds to the amount. |
| WorkflowItems.MeltableIs | plugins/workflow.cpp:1109-1110 | The melt count is the number of items to melt without a bad flag that are neither owned nor busy. |
| WorkflowItems.WhereOneMore | plugins/workflow.cpp:1077-1153 | One more item adds one to a count just when it is counted. |
| WorkflowItems.CountOne | plugins/workflow.cpp:1115-1152 | The cached answer, or a fresh one that is remembered, counts the item just as a direct match would, and the cache stays sound. |
| WorkflowItems.MapJobItems | plugins/workflow.cpp:1052-1157 | Whatever the caches held from earlier passes, the counts are the uncached ones and the requests follow from them. |
| WorkflowDecisions.DecideGoal | plugins/workflow.cpp:1198-1214 | The two running maxima come to this: run if some request to resume is not outweighed, else stop if some request to suspend outweighs all others, else leave as is. |
| WorkflowDecisions.UpdateJobs | plugins/workflow.cpp:1180-1217 | Each job ends where its own requests put it, independently of the others and of the order. |
| WorkflowDecisions.SingleConstraintPass | plugins/workflow.cpp:1180-1217 | With one constraint a pass is the threshold rule on the current count. |
| WorkflowDecisions.HistoryIsSteady | plugins/workflow.cpp:219-265 | In every history a job waiting to be resumed has a time to wait for. |
| WorkflowDecisions.OppositeFlipsAreAGapApart | plugins/workflow.cpp:299-324 | Under one constraint and no outside edits, between switching a job on and switching it off the count moved by at least the gap, which is at least one. |
| WorkflowDecisions.NeutralPassCancelsBackOff | plugins/workflow.cpp:1206-1214 | After a pass that asks nothing, the next request resumes a suspended job at once, except exactly while a wanted job still waits for its time. |
| WorkflowProcess.MustRunIffDemanded | plugins/workflow.cpp:1198-1209 | Over the mapped lists and computed requests, a job must run if and only if some constraint on its products is short and not outweighed by one that has enough. |
| WorkflowProcess.MustStopIffSatisfied | plugins/workflow.cpp:1198-1212 | The same for stopping: some constraint that has enough outweighs every one that is short. |
| WorkflowProcess.AvailableIs | plugins/workflow.cpp:319-324 | Whether a constraint is short or has enough goes by the number of free matching items, or else by the sum of their stacks. |
| WorkflowProcess.TargetIsDecided | plugins/workflow.cpp:1180-1217 | The third pass aims at what the items alone decide. |
| WorkflowProcess.ProcessConstraints | plugins/workflow.cpp:1256-1265 | The three passes together: each job's new control state is its old one after at most one goal event, which follows from the items, its outputs and the constraints' settings alone, whatever lists, counters and caches held before; nothing else of a job but its constraint list changes. |
| WorkflowUpdate.KnownInOrder | plugins/workflow.cpp:1182-1184 | The loops over known_jobs visit each known job once, in the order of the ids. |
| WorkflowUpdate.PluginOnUpdate | plugins/workflow.cpp:598-635 | A whole update keeps the plugin valid and can be followed by another. On a frame without work nothing changes. Otherwise every job of the list is ticked or adopted and then given its goal if half a day passed, one that is not protected keeps its flag, every missing one meets its fate and is given its goal if it is put back, and list and buildings gain exactly the jobs put back. |
| WorkflowUpdate.ListedIsRun | plugins/workflow.cpp:219-265 | To a known job of the list an update is a run of events: its flag there, a tick, at most one goal. |
| WorkflowUpdate.MissingIsRun | plugins/workflow.cpp:238-265 | To a missing job it is a loss and at most one goal, or just waiting. |
| WorkflowUpdate.NoEarlyResume | plugins/workflow.cpp:225-256 | Before its time no goal unsuspends a job, and its time stays unless the goal is to suspend. |
| WorkflowRun.ObservedUpdate | plugins/workflow.cpp:598-635 | For every job known before and after an update, whether it does work or not, the new control state is the old one after the flag as found, then nothing, a tick or a loss, then at most one goal; an entry is never exchanged for another under its id. |
| WorkflowRun.LeftSuspended | plugins/workflow.cpp:219-265 | A job that an update finds suspended before its resume time is left suspended, on every frame, in the list, waiting or put back, whatever its goal; it keeps its time unless it is put back or wanted suspended. |
| WorkflowRun.GameMoves | plugins/workflow.cpp:344-347 | Between updates the game and the player may change the job list, every flag, the buildings, the frame and the settings; the plugin stays valid. |
| WorkflowRun.Switch | plugins/workflow.cpp:1432-1447 | Enabling or disabling keeps the plugin valid, leaves no old entry, and a disabled plugin knows no job. |
| WorkflowRun.WaitsOn | plugins/workflow.cpp:598-635 | In every history of turns a job that is suspended with a time to wait for, and undisturbed from then on, still has both at the end. |
| WorkflowRun.PutBackWaits | plugins/workflow.cpp:238-246 | An update that puts a job back and does not want it suspended leaves it suspended, to wait for five thirds of its delay up to a month. |
| WorkflowRun.RecoveredWaitsOn | plugins/workflow.cpp:598-635 | So in every history a job put back in some turn stays suspended with that resume time while the frame is below it and no suspend goal, further loss or unsuspending by the player comes. |
| WorkflowRun.RecordedUpdate | plugins/workflow.cpp:598-635 | After whatever happened since a moment, one update makes the next moment of its history. |
| WorkflowRun.Run | plugins/workflow.cpp:598-635 | Any number of turns, each an arbitrary change by the game and the player followed by an update, keeps the plugin valid and is a history; an undisturbed job is still suspended in the game. |
| MapModel.MapCache.SetDesignationAt | library/include/modules/MapCache.h:393-402 | Writes one valid tile and nothing else, and says whether it did. |
| MapModel.MapCache.ClearMaterialAt | library/include/modules/MapCache.h:372-380 | Makes one valid tile's vein material -1 and changes nothing else. |
| Reachability.ClosedHoldsReachable | plugins/filltraffic.cpp:177-236 | A set closed under permitted steps that holds the source holds every reachable node. |
| Reachability.WalkStaysInside | plugins/filltraffic.cpp:177-236 | A walk of permitted nodes never leaves a closed set it starts in. |
| Reachability.StepReachable | plugins/filltraffic.cpp:200-233 | One more permitted step from a reachable node is reachable. |
| Reachability.LastStep | plugins/filltraffic.cpp:177-236 | A node is reached exactly by being a permitted source or by one permitted step from a reached one. |
| Reachability.ReachableTransitive | plugins/filltraffic.cpp:177-236 | Two walks join into one. |
| Reachability.ReachableSymmetric | plugins/filltraffic.cpp:177-236 | Where permitted steps can be taken back, so can walks. |
| Reachability.FloodSkip | plugins/filltraffic.cpp:183-198 | Popping a refused or already marked node keeps the flood's invariant. |
| Reachability.FloodMark | plugins/filltraffic.cpp:200-233 | Marking a popped node and pushing its successors keeps the flood's invariant, in whatever order they are pushed. |
| Reachability.FloodDone | plugins/filltraffic.cpp:181-236 | With the stack empty the marked nodes are exactly the reachable ones, whatever the order was. |
| RevFlood.StackWeightAppend | plugins/reveal.cpp:366-443 | The weight of a stack is the sum of the weights of its parts. |
| RevFlood.HiddenExpansionIsLighter | plugins/reveal.cpp:401-443 | A tile that stays hidden pushes entries that weigh less together than the entry that expanded it, which is why the loop ends although such tiles are processed again and again. |
| RevFlood.VisibleWasExpanded | plugins/reveal.cpp:377-380 | Skipping a visible tile loses nothing: its pushes are all made or waiting, whichever way it was entered before. |
| RevFlood.ShownAtLast | plugins/reveal.cpp:366-444 | Once the entries made are the reachable ones, the visible tiles are the ones the specification names. |
| RevFlood.PushesAre | plugins/reveal.cpp:381-443 | A visit pushes exactly the eight neighbours of an open or floored tile, the tile above either, and the tile below an open one. |
| RevFlood.EnteredIs | plugins/reveal.cpp:366-443 | Which tiles are entered, from below and otherwise, in terms of the tiles next to them that are entered. |
| RevFlood.SeenIs | plugins/reveal.cpp:366-443 | A tile is seen exactly if it is the cursor's, or next to or below an entered tile that lets one there, or above one and neither wall nor floored. |
| RevFlood.SeenSpreads | plugins/reveal.cpp:381-443 | What a seen tile leads to is seen. |
| RevFlood.Revflood | plugins/reveal.cpp:341-448 | Terminates on every finite map; exactly those valid tiles end visible that some shape-driven walk from the cursor enters in a way that unhides them, all others end hidden, and nothing else changes. The cursor's tile ends visible, and with every visible tile the valid tiles all around an open or floored one, below an open one, and above either what is neither wall nor floored. A wall under the cursor changes nothing. |
| FillTraffic.Fill | plugins/filltraffic.cpp:143-239 | Each cursor error is reported in its order without a change; otherwise exactly the passable source-traffic tiles reachable from the cursor get the target traffic and nothing else changes. A tile is retagged if and only if it has the source traffic, is no wall and, as the options ask, no hole and in no building, and is the cursor's or borders on a retagged tile. |
| FillTraffic.RegionIs | plugins/filltraffic.cpp:183-233 | The same of the region the fill explores. |
| FillTraffic.NeighboursBorder | plugins/filltraffic.cpp:206-233 | The guarded pushes lead to exactly the four neighbours and, with X, to the tile below or above where the tile is passable that way. |
| FillTraffic.SameRegionFromEveryTile | plugins/filltraffic.cpp:200-221 | Without X a fill started from any tile of the region retags the same region. |
| FillTraffic.FlatStepsReverse | plugins/filltraffic.cpp:206-221 | Same-level steps between valid tiles can be taken back. |
| FloodBrush.MaybeFlood | plugins/liquids.cpp:195-199 | Pushes exactly the candidates on valid tiles, on top of what was waiting. |
| FloodBrush.Points | plugins/liquids.cpp:154-193 | Returns each water tile reachable from the start once, and nothing else. A tile is returned if and only if it is valid, holds water, and is the start or touches a returned one. |
| FloodBrush.BodyIs | plugins/liquids.cpp:163-190 | The same of the body of water the brush explores. |
| VeinDig.LevelPushesAreInterior | plugins/vdig.cpp:1056-1083 | From an interior tile the nested guards push exactly the eight neighbours that are not on the map's border. |
| VeinDig.OrderStairs | plugins/vdig.cpp:1084-1113 | With x, the tiles straight below and above get stair orders, half stairs meeting from two sides make full ones, and exactly those tiles are pushed. |
| VeinDig.StairsMeet | plugins/vdig.cpp:1084-1117 | The orders of a dug tile and of the tiles straight below and above it meet: down and up, up and down; half stairs met from the other side become full ones; without stairs a plain order is given where there was none. |
| VeinDig.DesignatedStep | plugins/vdig.cpp:1053-1117 | Digging one more tile keeps the account of every tile's designation. |
| VeinDig.PushesMatchGraph | plugins/vdig.cpp:1037-1113 | A dug tile pushes all its steps in the vein that are still to be dug, no step that is not one, and never a border tile. |
| VeinDig.VeinIs | plugins/vdig.cpp:1037-1113 | The tiles of the vein in terms of their material, shape, place and neighbours. |
| VeinDig.Vdig | plugins/vdig.cpp:998-1120 | Terminates; digs exactly the wall tiles of the cursor's vein reachable through it, never the border; a tile is dug if and only if it is an interior wall of the cursor's material and is the cursor's or next to a dug one, with x also straight below or above; without x nothing else is designated and existing orders are kept; with x the other changed tiles are vein tiles straight above or below a dug one. |
| DigMasks.Diag5Seamless | plugins/vdig.cpp:366-458 | The diag5 masks chosen per block draw one line family over the whole map: X + Y congruent to y_max - 1 modulo 5. |
| DigMasks.Diag5rSeamless | plugins/vdig.cpp:460-552 | The diag5r masks draw X - Y congruent to 2 - y_max modulo 5 wherever the block arithmetic does not wrap. |
| DigMasks.Diag5rExactlyUpTo1001 | plugins/vdig.cpp:881-893 | Every tile of every block of a map is drawn right, on the line just when it should be, if and only if the map has at most 1001 rows of blocks. |
| DigMasks.Diag5rMissesTile | plugins/vdig.cpp:888-890 | On any larger map a named tile, not on its border, is drawn that is not on the line. |
| DigMasks.LadderSeamless | plugins/vdig.cpp:894-906 | The ladder masks draw one ladder of period six across and four down. |
| DigMasks.LadderrSeamless | plugins/vdig.cpp:907-919 | The rotated masks draw one ladder of period four across and six down. |
| ExpDig.Level.StampAt | plugins/vdig.cpp:749-773 | The filter at one tile: visible constructions and visible non-walls are never touched. |
| ExpDig.FilterIs | plugins/vdig.cpp:749-773 | What each option comes to at a tile: clear takes every order away, all orders the pattern, hidden its hidden part, designated only takes away the orders outside the pattern. |
| ExpDig.Level.StampPattern | plugins/vdig.cpp:727-778 | Stamps every tile of an existing block but those on the map's border and nothing outside it. |
| ExpDig.Level.StampPaints | plugins/vdig.cpp:727-778 | Stamping a block with the chosen mask paints its part of the global pattern. |
| ExpDig.Level.ExpDig | plugins/vdig.cpp:868-954 | Every block is stamped once and together that is one seamless pattern in global coordinates, on every map for all patterns but diag5r and for diag5r up to 1001 rows of blocks; border tiles keep their orders. |
| ExpDig.Level.Diag5rPaintsWrong | plugins/vdig.cpp:881-893 | With more than 1001 rows of blocks diag5r orders that tile dug though the pattern leaves it alone. |
| ExpDig.Level.Diag5rPaintsIff | plugins/vdig.cpp:881-893 | What diag5r leaves at the tiles is the pattern if and only if the map has at most 1001 rows of blocks, provided that this one tile is there and can be stamped. |
| VirtualIdentity.ByName | library/DataDefs.cpp:81-97 | The class with a name, if there is one. |
| VirtualIdentity.LineDescends | library/DataDefs.cpp:106-112 | A class descends from every class that a line of parents leads to. |
| VirtualIdentity.DescendantHasLine | library/DataDefs.cpp:106-112 | And from no other. |
| VirtualIdentity.ChildlessHasNoDescendants | library/include/DataDefs.h:83 | A class without children has no instances but its own: what the shortcut relies on. |
| VirtualIdentity.Registry.Init | library/DataDefs.cpp:138-154 | Rebuilds the children lists exactly, and has_children with them. |
| VirtualIdentity.Registry.Get | library/DataDefs.cpp:61-104 | With the table in whatever state, returns the class found by name and remembers it, or that there is none, in the table and on that class alone; aborts, changing nothing, just when that class has met another vtable. |
| VirtualIdentity.Registry.IsSubclass | library/DataDefs.cpp:106-112 | The loop follows the parents. |
| VirtualIdentity.Registry.IsInstance | library/include/DataDefs.h:78-86 | The shortcuts give the plain answer if and only if it is not a childless class asked about a second vtable of its name; the program aborts if and only if no shortcut applies and the object's class has met another vtable. |
| VirtualIdentity.Registry.IsDirectInstance | library/include/DataDefs.h:88-92 | The same for direct instances, children or not, with the exact abort condition. |
| VirtualIdentity.Registry.Queries | library/include/DataDefs.h:78-92 | As long as no listed class has two vtables among those met and asked about, no query aborts and every one of any sequence of queries gets the plain answer. |
| BitArrays.BitArray.Resize | library/include/BitArray.h:61-69 | Growth never changes membership; shrinking drops exactly the indices past the new end. |
| BitArrays.BitArray.ClearAll | library/include/BitArray.h:56-60 | Empties the set. |
| BitArrays.BitArray.Extend | library/include/BitArray.h:76-81 | Makes room for the index without changing membership. |
| BitArrays.BitArray.Set | library/include/BitArray.h:82-96 | Adds or removes the index. |
| BitArrays.BitArray.Clear | library/include/BitArray.h:97-105 | Removes the index. |
| BitArrays.BitArray.Toggle | library/include/BitArray.h:106-115 | Flips membership of the index. |
| BitArrays.BitArray.IsSet | library/include/BitArray.h:116-125 | Tells membership. |
| BitArrays.BitArray.AsInt | library/include/BitArray.h:127-136 | The sum of 2^i over the members below 32. |
| BitArrays.BitArray.AssignInt | library/include/BitArray.h:138-149 | Refused without a buffer; afterwards as_int gives the value modulo 2^(8 min(size, 4)), and members from 32 on stay. |
| BitArrays.BitArray.Assign | library/include/BitArray.h:70-75 | Copies size and membership, and leaves the other array as it was. |
| BitArrays.BitArray.NumberIsSum | library/include/BitArray.h:127-136 | The first bytes read as a little-endian number are the sum of 2^i over the members they hold. |
| BitArrays.BitArray.DigitsMakeNumber | library/include/BitArray.h:138-149 | Bytes that are the base-256 digits of a value make that value modulo the room there is. |
| BitArrays.BitsSum | library/include/BitArray.h:127-136 | The next bits of the buffer add the value of a byte in its place. |
| Tokeniser.CheapTokenise | library/Core.cpp:100-131 | The two nested loops compute the specified scan, unterminated quotes and trailing backslashes included; any line of words, quoted or plain, comes back as its words. |
| Tokeniser.ReadQuoted | library/Core.cpp:114-125 | The inner loop reads up to the closing quote. |
| Tokeniser.ScanEscaped | library/Core.cpp:114-125 | Scanning the escaped form of any text inside quotes gives the text back. |
| Tokeniser.TokenisingUndoesQuoting | library/Core.cpp:100-131 | Any words written bare or quoted and separated by whitespace are appended to the output exactly, empty strings included. |
| Tokeniser.RoundTrip | library/Core.cpp:100-131 | Tokenising such a line gives exactly the list of words. |
| Tokeniser.PlainWords | library/Core.cpp:100-131 | Words without a quote or one of the six separating characters, joined by any one of those six, come back. |
| Tokeniser.SpaceIs | library/Core.cpp:106 | The separating characters are the space and those with the codes 9 to 13. |
| KeySpecs.ParseKeySpec | library/Core.cpp:950-977 | The prefix loop and the final tests compute the specified parse. |
| KeySpecs.ParseWritten | library/Core.cpp:950-977 | Any prefixes followed by a key parse to that key with the union of the modifiers. |
| KeySpecs.AcceptedIsWritten | library/Core.cpp:950-977 | Every accepted specification is a list of prefixes followed by a key. |
| KeySpecs.AcceptedIff | library/Core.cpp:950-977 | A specification is accepted if and only if it has that form. |
| KeySpecs.SameKeyIff | library/Core.cpp:950-977 | Two specifications mean the same if and only if they name the same key with the same set of modifiers, in any order and repetition. |
| KeySpecs.SymbolsAre | library/Core.cpp:965-976 | A to Z are the key symbols from 97, F1 to F9 those from 282, and no other single character, alone or after F, is a key. |
| KeySpecs.NoOtherKey | library/Core.cpp:965-976 | Nothing else that does not begin with a prefix is a key. |
| KeySpecs.PrefixesAre | library/Core.cpp:955-963 | Shift-, Ctrl- and Alt- add the bits 1, 2 and 4. |
| KeyBindings.Hotkeys.ClearKeyBindings | library/Core.cpp:979-994 | Erasing from the back empties the listing of that key and modifiers and leaves every other listing as it was; no pair is ever stored twice. |
| KeyBindings.Hotkeys.AddKeyBinding | library/Core.cpp:996-1020 | Refuses bad keys and lines without words; otherwise puts the command in front of its listing unless it is there, keeping every other listing; no pair is ever stored twice. |
| KeyBindings.Hotkeys.ListKeyBindings | library/Core.cpp:1022-1038 | The listing, newest first. |
| KeyBindings.Hotkeys.SelectHotkey | library/Core.cpp:899-948 | Runs the first applicable command of that same listing, otherwise the game's own hotkey for F1 to F8, and leaves every listing as it was. |
| KeyBindings.Hotkeys.FirstBinding | library/Core.cpp:914-922 | The backward search finds the first applicable entry of the listing. |
| KeyBindings.Hotkeys.SetOrAdd | library/Core.cpp:394-406 | The loop from the last argument, stopped by the first refused one, leaves the commands it got to in front of the old or emptied listing. |
| KeyBindings.Hotkeys.Clear | library/Core.cpp:407-416 | Empties exactly the keys named before the first bad specification. |
| KeyBindings.ListingPush | library/Core.cpp:1017-1037 | A binding pushed at the back is listed first, under its own modifiers only. |
| KeyBindings.ListingWithout | library/Core.cpp:986-991 | Erasing one set of modifiers empties its listing and no other. |
| KeyBindings.WithoutKeeps | library/Core.cpp:986-991 | Erasing keeps the bindings distinct and tokenised. |
| KeyBindings.ListedIffBound | library/Core.cpp:1030-1035 | A command is listed if and only if it is bound. |
| KeyBindings.AddedInFront | library/Core.cpp:394-406 | Adding c1..cn puts the commands not bound yet, each at its last occurrence, in front of the old listing in order. |
| KeyBindings.FreshMembers | library/Core.cpp:1007-1014 | Those are exactly the added commands that were not listed. |
| KeyBindings.AddComesFirstIff | library/Core.cpp:1007-1018 | An added command comes first if and only if it was not bound or was first already. |
| KeyBindings.SetThenList | library/Core.cpp:394-406 | Setting distinct commands, each with a word in it, and listing them returns the list unchanged. |
| KeyBindings.FirstApplicable | library/Core.cpp:914-922 | The chosen command is applicable and every one listed before it is not; none is chosen if and only if none is applicable. |
| KeyBindings.PressIs | library/Core.cpp:911-938 | A key press runs a listed command that applies, if there is one; else F1 to F8 run the game's own hotkeys, the second eight with Shift, on the main screen outside its hotkey menu; else nothing. |
| SplitString.Find | library/MiscUtils.cpp:72 | The first occurrence at or after a position. |
| SplitString.SplitInto | library/MiscUtils.cpp:63-84 | The loop computes the pieces between separators, without the empty ones when squashing, and says whether there are several. |
| SplitString.JoinUndoesSplit | library/MiscUtils.cpp:70-83 | Joining the pieces with a non-empty separator rebuilds the input. |
| SplitString.PiecesAreFree | library/MiscUtils.cpp:70-83 | No piece contains the separator. |
| SplitString.ResultStep | library/MiscUtils.cpp:72-77 | One turn of the loop takes one piece, dropped when empty and squashing. |
| SplitString.SplitUndoesJoinIff | library/MiscUtils.cpp:63-84 | Splitting a join gives the pieces back if and only if the last is free of the separator and each other one, followed by the separator, holds no earlier occurrence. |
| SplitString.SplitUndoesJoin | library/MiscUtils.cpp:63-84 | For a one-character separator being free of it is enough. |
| SplitString.LongSeparatorCounterexample | library/MiscUtils.cpp:63-84 | For a longer separator it is not: "a" and "b" joined by "aa". |

## Left out

- Handshake: calls of Suspend nested in one thread, Update after an error, and the failure of thread primitives.
- PluginLifecycle: two threads unloading at once (notify_one wakes only one of them), name collisions, and calls
  that start between plugin_shutdown and the end of wait (the state is still PS_LOADED: only the open library is
  claimed there). The dynamic loader is a flag; guards and the functions called are outside.
- WorkflowJobs.Workflow.LinkOld: works on the sequence of jobs in the list; the heap list with the same contract
  is JobList, and the two are not joined in one class. Allocation and deletion of the protected jobs, building
  lookup and isSupportedJob are reduced to maps, the copied job to its type; JobStruct has the copying.
- WorkflowUpdate.PluginOnUpdate: leaves out update_job_data, which is JobStruct.JobCopy.Update for one job; frame
  numbers and ids do not overflow.
- WorkflowRun.Run: of the workflow command only enable, disable and the changed settings, not the check, recovery and
  pass that its other forms start; loading another game.
- WorkflowConstraints.MapJobConstraints: the outputs compute_job_outputs derives from job types and reactions are
  given per job; material matching is a parameter; melt_active is not kept.
- WorkflowItems.MapJobItems: with the drybuckets option off; item amounts are unbounded integers.
- WorkflowDecisions.UpdateJobs: announcements and printing.
- MapModel: coordinates are unbounded integers and a tile outside the map is never valid; the original divides
  with truncation, so that -15..-1 read block 0, and keeps sixteen bits. Writing back and reloading blocks.
- RevFlood.Revflood: the saved hide state used by unreveal and the other reveal commands.
- FillTraffic.Fill: the other traffic commands and the parsing of options.
- FloodBrush: the other brushes and the liquids command itself.
- VeinDig.Vdig: with x the kind of stair on each tile is stated per dug tile only; the code does not keep the stairs
  of a shaft consistent, because a later visit overwrites what an earlier one ordered.
- ExpDig.Level.ExpDig: the cross pattern, the options kept between calls, and the order in which ladderr visits
  the blocks (by rows; here all patterns go by columns). digcircle, which rests on floating point.
- VirtualIdentity.Registry.Init: classes registered after Init; adjust_vtable and instantiation.
- BitArrays.BitArray.Resize: realloc to size zero of a non-empty buffer, which C leaves to the implementation; negative
  indices; DfArray. The allocation is a fresh array.
- JobStruct.CloneJobStruct: fields that neither the comparison nor the clean-up touches, beyond the id. Memory is a set of
  live objects.
- Tokeniser.CheapTokenise: characters are ASCII; isspace depends on no locale.
- KeyBindings.Hotkeys.SelectHotkey: whether a plugin accepts a command is a parameter, the screen's state a record; locks and
  the waking of the thread that reads hotkey_cmd.
- SplitString: the other helpers of the file.
- The console and line editor, SDL and Windows hooks, process memory access, version files, printing, the Lua and
  curses libraries, and the one-step map readers and small plugins, which would add only easy members.

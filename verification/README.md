# Verified model of the Fission Workflows engine

Fission Workflows runs serverless functions as workflows. An invocation is an event-sourced entity: its state is the
fold of an append-only stream of events, kept in an event store and served through a cache. A controller evaluates cached
snapshots of the invocation, asks a scheduling policy which tasks to prewarm and run, and submits them to an executor
that feeds a pool of workers from a de-duplicating queue. A task whose function returns a *flow* (a task or a workflow)
gets a dynamic child task, whose output replaces its own. Loops are functions that return such flows.

This project models that engine in Dafny and proves what it keeps over whole runs; use `dafny verify dfyconfig.toml` to
check it.

| file | models |
|---|---|
| `Types.dfy` | typed values, specifications, invocations, task runs and events |
| `TypedValues.dfy` | conversion between Go values and typed values |
| `Projection.dfy` | the projectors, as a fold and as a last-writer-wins map of fields |
| `Cache.dfy` | loading and subscribed cache, and its runs with appends, deliveries, evictions, loads and refreshes |
| `Graph.dfy` | the dependency graph with injected edges for dynamic tasks, cycles, induced subgraphs, layers |
| `Validate.dfy` | validation of specifications |
| `Scheduler.dfy` | the three scheduling policies |
| `ControlFlow.dfy` | flow outputs and their resolution through dynamic children |
| `Controller.dfy` | the evaluation of snapshots by one invocation controller |
| `Engine.dfy` | whole runs of an invocation: evaluations, dynamic children, results, termination |
| `Completion.dfy` | how such runs end, and with which output |
| `Verdict.dfy` | the deadline, failure, end and output of an invocation, read off the log of a run |
| `Grandchild.dfy` | a run in which a task is submitted before the output it requires is there |
| `LateRefresh.dfy` | evaluations after a refresh of the cache that was written in time, or too late |
| `Progress.dfy` | rounds in which accepted runs succeed, and their bound |
| `Rounds.dfy` | such rounds as stretches of runs of the engine |
| `Finish.dfy` | runs that go round by round, up to their completion |
| `WorkQueue.dfy` | the de-duplicating work queue and its protocol |
| `DelayingQueue.dfy` | the indexed heap of delayed items |
| `Executor.dfy` | the executor under interleaving with its workers: its queue and its group counters |
| `MemBackend.dfy` | the two-tier in-memory event store |
| `Inputs.dfy` | resolving the inputs of a task by priority; functions and expressions are abstract |
| `Dag.dfy` | a small semantics of workflows |
| `Repeat.dfy`, `Foreach.dfy`, `While.dfy` | the loops, compiled to workflows, and what the compiled workflows mean |

Stateful components are classes whose methods are tied to a specification function on values; the results about whole
runs are lemmas about those functions. Iteration over Go maps is in arbitrary order (`:|`, or an `order` argument where
the result could depend on it). Times are natural numbers, the clock an argument.

Where the code and its documentation or the intended property disagree, the model follows the code, and a lemma shows
it:

- A refresh of the cache reads the store and writes the cache in two steps. An event delivered in between can be lost
  from the cache (`Cache.LateRefreshLosesEvents`). Where stamps grow along the stream, the cache stays right if and only
  if no more events were delivered than the refresh had read (`Cache.LateRefresh`). The sensor that polls for
  invocations refreshes while events are being applied, so this decides whether tasks run in order: after a refresh that
  meets the condition every later evaluation does (`LateRefresh.SafeIfInTime`); after one that does not, a task can be
  submitted although the dynamic child that it has to wait for has not succeeded (`LateRefresh.TooLateIsUnsafe`), but
  only if the addition of that child is among the lost events (`LateRefresh.UnsafeOnlyIfLost`).
- A second dynamic child of one parent makes the graph cyclic (`Graph.AddChildAcyclic`), and the two are never run
  (`Progress.FinishIffNoRivals`). So a task that is required dynamically in a specification must not return a flow; that
  no such task does is enough for runs to finish (`Finish.TurnsHaveNoRivals`, `Finish.RunCompletes`).
- A task waits for the children of what it requires, not for the children of those children. So the output it needs can
  be pending (`Grandchild.OutputCanBePending`), if and only if recorded flows lead from it, past its child, to a task that
  is not recorded (`Completion.OutputPendingIff`), and never when dynamic tasks return no flows
  (`Completion.OutputAvailable`). A dynamic task returns a flow when the workflow that it runs sets a flow as the
  `output` of its output task.
- With several dynamic requirements of one task, parsing looks at one of them, which map order picks (`Graph.Parse`).
- `Done` on a key that waits in the queue queues it twice (`WorkQueue.DoneKeepsInv`).
- The counter of a group also counts submissions that the queue coalesced, and these are never counted off
  (`Executor.CoalescedStaysCounted`); it returns to zero exactly when there were none (`Executor.ZeroMeansQuiet`).
- Reactivating a completed stream lowers the counter of the event store although no stream is removed, so the store can
  hold more streams than its limit (`MemBackend.TwoStreamsWithLimitOne`): the limit is on the streams less the
  reactivations (`MemBackend.EntriesAreCounted`).
- A `foreach` over a task with requirements is no valid workflow as soon as there is an item (`Foreach.ForeachIsValid`).
  A requirement that names the task of an item makes that task require itself (`Foreach.CycleThroughItem`), and on such
  an edge the graph library of the source panics instead of reporting an error.
- A `while` that is the action of a `while` counts on from the outer count (`While.NestedCountsOn`).
- A string that looks like an expression does not survive as a string, and Go ints come back as int32
  (`TypedValues.RoundTripTypedValue`, `TypedValues.RoundTripValue`).

## Model

| member | source | states |
|---|---|---|
| `TypedValues.ExpressionDelimiters` | pkg/types/typedvalues/typedvalues.go:463-469 | A string is an expression exactly when braces surround newline-free text, and removing the delimiters inverts adding them; other strings are left alone. |
| `TypedValues.WrapSupported` | pkg/types/typedvalues/typedvalues.go:178-246 | Wrapping fails exactly on values that hold an unsupported type at some depth. |
| `TypedValues.RoundTripValue` | pkg/types/typedvalues/typedvalues.go:116-246 | Nested plain data survives wrap and unwrap if and only if it holds no Go int; an int comes back as its int32 truncation. |
| `TypedValues.RoundTripTypedValue` | pkg/types/typedvalues/typedvalues.go:116-246 | Any typed value can be unwrapped and wrapped again, and comes back unchanged up to metadata if and only if its string leaves are typed as wrapping would type them. |
| `TypedValues.RewrapWrapped` | pkg/types/typedvalues/typedvalues.go:116-246 | What wrapping built from plain data is a fixed point of unwrap-then-wrap. |
| `TypedValues.UnwrapWrapNormal` | pkg/types/typedvalues/typedvalues.go:116-246 | Whatever can be wrapped, with typed values inside or not, is unwrapped to itself up to truncated ints, with what was typed unwrapped. |
| `TypedValues.TypedStaysTyped` | pkg/types/typedvalues/typedvalues.go:178-205 | What was typed already is kept with its metadata, as it is or as the entries and elements of what holds it. |
| `TypedValues.TruncationKeepsLowBits` | pkg/types/typedvalues/typedvalues.go:223-224 | The truncation of an int differs from it by a multiple of 2^32, and not at all if it fits. |
| `Projection.Project` | pkg/api/projectors/invocation.go:22-42 | The loop over events computes the fold, including where it stops at an error. |
| `Projection.ProjectEventSucceeds` | pkg/api/projectors/invocation.go:44-93 | Whether an event can be applied depends only on the event and the key, never on the events before it; an accepted event keeps the key. |
| `Projection.ReadAfterEvent` | pkg/api/projectors/invocation.go:44-144 | After an accepted event every field of the invocation and of its task runs holds what the event writes, and otherwise what it held. |
| `Projection.LastWriterWins` | pkg/api/projectors/task.go:41-79 | After any accepted events every field holds what its last writer wrote. |
| `Projection.SameViewMeans` | pkg/api/projectors/invocation.go:44-93 | Equal views are equal invocations up to generations and creation stamps. |
| `Projection.CreatedWhenCreated` | pkg/api/projectors/invocation.go:58-63 | After a creation an invocation carries the stamp of the last one, whatever the clock of the fold reads. |
| `Projection.Reapply` | pkg/api/projectors/invocation.go:22-144 | For k <= m <= n, folding the first m events and then re-applying events k to n leaves the view of folding the first n. |
| `Cache.InvocationCache.constructor` | pkg/fes/cache/cache.go:31-39 | A new cache is empty. |
| `Cache.InvocationCache.GetFromEventStore` | pkg/fes/cache/cache.go:258-284 | Loads by replay, with its error cases. |
| `Cache.InvocationCache.GetAggregate` | pkg/fes/cache/cache.go:229-250 | A hit is served as it is, a miss is loaded and cached. |
| `Cache.InvocationCache.Refresh` | pkg/fes/cache/cache.go:286-298 | Replaces the entry by a replay, or leaves it if the replay fails. |
| `Cache.InvocationCache.ApplyEvent` | pkg/fes/cache/cache.go:127-204 | Applies a delivered event to the looked-up entity, or drops it. |
| `Cache.InvocationCache.Evict` | pkg/fes/cache/cache.go:74-77 | Removes one entry and nothing else. |
| `Cache.LoadIsSnapshot` | pkg/fes/cache/cache.go:258-284 | A stream of accepted events can always be loaded, and what is loaded is its fold under its own key. |
| `Cache.CachedIsSnapshot` | pkg/fes/cache/cache.go:127-298 | In every run of appends, deliveries, evictions, loads and refreshes, a cached entity is the fold of a prefix followed by a re-applied stretch that ends at the last delivered event. |
| `Cache.CacheConverges` | pkg/fes/cache/cache.go:127-298 | In every run, once a stream's deliveries have caught up, the cached entity has the view and the creation stamp of a plain replay; a stream with events can always be looked up. |
| `Cache.StepCaches` | pkg/fes/cache/cache.go:127-298 | In every run a load, a refresh and a delivered event leave their entity in the cache, after a refresh as the fold of the whole stream even while deliveries are pending; only an eviction takes it out. |
| `Cache.LateRefresh` | pkg/fes/cache/cache.go:286-298 | Writing the replay of an older stream keeps the snapshot property if no more events have been delivered than it covers; and where stamps grow along the stream, if and only if. |
| `Cache.RefreshInTime` | pkg/fes/cache/cache.go:286-298 | After a refresh that wrote when no more events were delivered than it had read, every further run of appends, deliveries, evictions, loads and refreshes keeps every cached entity a snapshot of its stream. |
| `Cache.LateRefreshLosesEvents` | pkg/fes/cache/cache.go:286-298 | Otherwise a completed invocation can show as in progress with nothing pending. |
| `Graph.InjectDynamicTask` | pkg/types/graph/graph.go:162-186 | Adds exactly the edges from the dynamic task to the other tasks that require its parent. |
| `Graph.Parse` | pkg/types/graph/graph.go:105-143 | The parsed graph is exactly the graph of the tasks for the dynamic parent that was picked for each dynamic task. |
| `Graph.ChoiceBounds` | pkg/types/graph/graph.go:162-186 | Whatever is picked, the graph has every requirement edge and only injected edges besides; it is the full graph when no task has two dynamic parents. |
| `Graph.AcyclicIffEveryChoice` | pkg/types/graph/graph.go:162-186 | The graph with the edges of all dynamic parents is acyclic if and only if every graph that parsing may pick is. |
| `Graph.Roots` | pkg/types/graph/graph.go:145-154 | Lists exactly the nodes without incoming edges, once each. |
| `Graph.RootIff` | pkg/types/graph/graph.go:105-186 | A task is a root if and only if nothing it requires is in the set, nor any other dynamic child of something it requires. |
| `Graph.RootExists` | pkg/types/graph/graph.go:145-154 | A non-empty acyclic graph has a root. |
| `Graph.RestrictInduces` | pkg/types/graph/graph.go:105-143 | Parsing a subset of the tasks gives the induced subgraph. |
| `Graph.LayerAfterIsRoots` | pkg/types/graph/graph.go:105-154 | The roots after removing a set are the tasks whose every incoming edge comes from the set. |
| `Graph.AddChildAcyclic` | pkg/types/graph/graph.go:162-186 | Adding a fresh dynamic child to acyclic tasks keeps them acyclic if and only if the parent has no dynamic child yet. |
| `Validate.HasCycle` | pkg/types/validate/validate.go:137-161 | Removing roots until none is left decides whether the graph has a cycle. |
| `Validate.ValidateTasks` | pkg/types/validate/validate.go:101-179 | Each kind of error is reported if and only if its fault is there: a task without a name, without a function, or that requires what is no task; whether there is a start task. |
| `Validate.ValidateWorkflowSpec` | pkg/types/validate/validate.go:101-164 | Each kind of error is reported if and only if its fault is there, so none if and only if every local check passes and the parsed graph is acyclic; a valid specification is always accepted, and what is accepted is valid when no task has two dynamic requirements. |
| `Validate.ValidIffAlwaysAccepted` | pkg/types/validate/validate.go:137-161 | A specification counts as valid if and only if it passes validation whichever of several dynamic requirements of a task parsing picks. |
| `Validate.StartTaskExists` | pkg/types/validate/validate.go:150-161 | A specification that passes the local checks and has no cycle always has a start task. |
| `Scheduler.FindFailure` | pkg/scheduler/policies.go:155-163 | Aborts if and only if some run failed, with the reason of a failed run. |
| `Scheduler.GetOpenTasks` | pkg/scheduler/policies.go:165-183 | Collects exactly the static and dynamic tasks that are not recorded as started. |
| `Scheduler.HorizonPolicy` | pkg/scheduler/policies.go:25-48 | Runs exactly the roots of the parsed open tasks, each once, or aborts and runs nothing. |
| `Scheduler.PrewarmAllPolicy` | pkg/scheduler/policies.go:67-98 | Run and prepare partition the open tasks, and run is exactly the roots. |
| `Scheduler.PrewarmHorizonPolicy` | pkg/scheduler/policies.go:117-153 | Run is exactly the roots and prepare exactly the roots of the rest, which are the second layer when no task has two dynamic parents. |
| `Scheduler.HorizonIff` | pkg/scheduler/policies.go:40-48 | A task is on the horizon if and only if it is open, nothing it requires is open, and no other dynamic child of something it requires is open. |
| `Scheduler.PoliciesAgree` | pkg/scheduler/policies.go:82-152 | The second layer lies among the open tasks outside the horizon, and on acyclic tasks neither layer is empty while it has tasks to hold. |
| `ControlFlow.FirstChildUnique` | pkg/types/typedvalues/controlflow/flow.go:155-171 | The child that a lookup follows is the same for all map orders if and only if parents have one child each. |
| `ControlFlow.OutputIndependentOfOrder` | pkg/types/typedvalues/controlflow/flow.go:155-171 | With one child per parent the resolved output does not depend on map order; resolution terminates because child names extend parent names. |
| `ControlFlow.FlowOutputDangles` | pkg/types/typedvalues/controlflow/flow.go:155-171 | A resolved output is a flow only if some recorded flow has no child. |
| `ControlFlow.OutputEndsChain` | pkg/types/typedvalues/controlflow/flow.go:155-171 | The resolved output is what is recorded for the last of a chain of tasks, each of which gave a flow that the next one runs: missing if that one is not recorded, and a flow only if no child runs it. |
| `ControlFlow.DanglingOutput` | pkg/types/typedvalues/controlflow/flow.go:155-171 | A flow without a child is its own output. |
| `Controller.AllTasksFinished` | pkg/controller/invocation.go:509-519 | True if and only if every static and dynamic task is recorded as finished. |
| `Controller.DetermineTaskOutput` | pkg/controller/invocation.go:482-507 | Gives the final output if and only if every task succeeded. |
| `Controller.InvocationController.constructor` | pkg/controller/invocation.go:46-61 | A new controller has started nothing. |
| `Controller.InvocationController.Eval` | pkg/controller/invocation.go:63-227 | What an evaluation submits, which runs a given executor accepts, how the set of started tasks grows, and exactly when the result is done or an error. |
| `Controller.InvocationController.Schedule` | pkg/controller/invocation.go:174-227 | Aborts on a failure with the reason of a failed task; else the runs are exactly the horizon, and the prewarmed tasks exactly those of the policy, for the parents that were picked. |
| `Controller.InvocationController.Submit` | pkg/controller/invocation.go:187-221 | Submits the prewarming in order and then the runs in order, and counts as started exactly the runs that the executor accepts. |
| `Controller.AcceptedIsNew` | pkg/controller/invocation.go:89-100 | A run is accepted only for an open task that was not started, when everything started has finished in the same snapshot. |
| `Controller.SubmittedIsOnHorizon` | pkg/controller/invocation.go:174-221 | A submitted run is on the horizon of a snapshot without failures on which the controller may act. |
| `Controller.AtMostOnce` | pkg/controller/invocation.go:89-221 | Over the life of a controller, for any snapshots whatever, stale or reordered, no task is accepted twice. |
| `Controller.CompletesOnlyWhenSucceeded` | pkg/controller/invocation.go:150-171 | Completion is submitted if and only if the gates are open and every task of the snapshot succeeded; the output is a flow only if a flow has no child. |
| `Controller.FailsOnlyWhenFailed` | pkg/controller/invocation.go:66-186 | Failure is submitted if and only if the workflow is missing, or the controller may act and the deadline has passed, or all tasks are finished and one did not succeed, or a task failed before that; and alone, with the reason of that case. |
| `Controller.IdleOnlyWhenWaiting` | pkg/controller/invocation.go:63-227 | Nothing is submitted where the controller may not act; and where it may and the open tasks are acyclic, if and only if in time and without a failure no task is open but some are unfinished. |
| `Engine.AcceptedIsValid` | pkg/types/validate/validate.go:101-164 | What validation accepts, whatever its names and dynamic requirements, is a workflow to which dependency safety applies. |
| `Engine.ChildShows` | pkg/api/task.go:89-117 | A snapshot that shows the result of a task that flowed also shows its child, because the child is appended first. |
| `Engine.RunKeepsInv` | pkg/api/task.go:38-146 | Every run of evaluations, added children, results and terminations keeps the invariant on log, phases and flows. |
| `Engine.DependencySafety` | pkg/controller/invocation.go:94-221 | In every run, over every snapshot of a cache whose refreshes were written in time, a task is submitted only after every task it requires succeeded, and after the dynamic child of each of these that flowed. |
| `Completion.SnapshotChildren` | pkg/api/dynamic.go:77-98 | In every snapshot of a run child names extend parent names and parents have one child each. |
| `Completion.NothingDangles` | pkg/api/task.go:89-117 | In every snapshot of a run every flow output has its child, if outputs are not turned into flows afterwards. |
| `Completion.CompletionIsFinal` | pkg/controller/invocation.go:150-171 | When completion is submitted, every static task and every dynamic task ever added has succeeded. |
| `Completion.CompletionOutput` | pkg/controller/invocation.go:482-507 | The completed output is the resolved output for every map order, and is never a flow unless the `output` of a task made one up. |
| `Completion.PendingOutput` | pkg/types/typedvalues/controlflow/flow.go:155-171 | A pending output reads as missing, and any other is the recorded output of some task. |
| `Completion.RunRecordsOnce` | pkg/api/task.go:72-146 | In every run each task has at most one result in the log. |
| `Completion.OutputPendingIff` | pkg/controller/invocation.go:94-221 | In every run, whatever outputs were replaced, when a task is submitted, the output of a task it requires is pending if and only if recorded flows lead from that one, past its child, to a task that is not recorded. |
| `Completion.OutputAvailable` | pkg/types/graph/graph.go:162-186 | In every run, it is always there when no dynamic task returned a flow. |
| `Verdict.DeadlineIs` | pkg/controller/invocation.go:108-128 | In every run the deadline of an evaluated snapshot is the one given at the creation, or ten minutes after the stamp of the creation. |
| `Verdict.FailureIsRecorded` | pkg/scheduler/policies.go:28-38 | In every run, when an invocation is failed because of its tasks, a task has failed in the log, and the reason of an aborted schedule is the error of one. |
| `Verdict.StatusIs` | pkg/api/projectors/invocation.go:54-93 | The fold of a log shows the invocation as finished if and only if an event ended it, and as the last of these says. |
| `Verdict.NothingAfterEnd` | pkg/controller/invocation.go:102-106 | In every run, evaluating the fold of a log in which the invocation has ended submits nothing. |
| `Verdict.OutputIsRecorded` | pkg/controller/invocation.go:482-507 | In every run the completed output is what the log records for the last of a chain of tasks from the output task along recorded flows and their children, and the headers are those of the output task itself. |
| `Grandchild.OutputCanBePending` | pkg/types/graph/graph.go:162-186 | There is a run of the engine in which a task is submitted while the output it requires is pending. |
| `LateRefresh.SafeIfInTime` | pkg/controller/invocation.go:679-700 | However the cache goes on after a refresh that was written in time, evaluating what it shows submits a task only after what it requires and the dynamic children of these. |
| `LateRefresh.TooLateIsUnsafe` | pkg/controller/invocation.go:679-700 | There are a run of the cache, in which a refresh overwrites a delivered event, and a run of the engine with the same log, such that evaluating the cached entity submits a task while the dynamic child of what it requires is added and has not succeeded. |
| `LateRefresh.KeptIsFold` | pkg/fes/cache/cache.go:125-160 | Applying deliveries to what a late refresh wrote gives the fold of the events that were not lost. |
| `LateRefresh.UnsafeOnlyIfLost` | pkg/controller/invocation.go:679-700 | In every run, over what is left of the log after a refresh however late, a task is submitted only after every task it requires succeeded; and before the dynamic child of one of these only if the addition of that child was lost. |
| `Progress.AddChildren` | pkg/api/dynamic.go:77-89 | Any set of tasks without children can get one each and the graph stays acyclic. |
| `Progress.StepKeepsInv` | pkg/types/graph/graph.go:162-186 | A round in which some of the ready tasks get done, and any of these add a child, keeps the open tasks acyclic if and only if it leaves no two open dynamic children of one task. |
| `Progress.SomeReady` | pkg/scheduler/policies.go:40-47 | As long as a task is open, one is ready, whichever of several dynamic parents parsing picks. |
| `Progress.ReadyInOrder` | pkg/scheduler/policies.go:40-47 | Tasks get done in topological order, after what they require and the other tasks that have it as their dynamic parent. |
| `Progress.StepGoesOn` | pkg/scheduler/policies.go:40-47 | Each round with an open task gets at least one task done, whichever ready tasks the executor refuses. |
| `Progress.AllTasksFinish` | pkg/scheduler/policies.go:25-48 | Rounds in which at least one task of the horizon is accepted and succeeds finish every static and dynamic task in no more rounds than there are tasks in the end, whichever tasks return flows and whatever they are named, as long as no two open tasks are dynamic children of one task. |
| `Progress.TwoRoundsPerTask` | pkg/scheduler/policies.go:25-48 | If only static tasks return flows, two rounds per static task are enough. |
| `Progress.FinishIffNoRivals` | pkg/types/graph/graph.go:162-186 | Where tasks have at most one dynamic parent and no child takes the place of a task of its name, such rounds finish if and only if no two open tasks ever are dynamic children of one task. |
| `Progress.ValidIsFresh` | pkg/types/validate/validate.go:137-161 | A new invocation of a valid specification, whatever its names and dynamic requirements, is where such rounds start, and has no two dynamic children of one task. |
| `Rounds.RoundOfRun` | pkg/controller/invocation.go:94-221 | Evaluating the fold of the log when nothing is running, and then adding children and recording successes until nothing is running again, is such a round between the two folds. |
| `Finish.RunFinishes` | pkg/controller/invocation.go:94-221 | After a run of as many such rounds as there are tasks, the fold of the log shows every static and dynamic task as succeeded, as long as no fold on the way shows two open dynamic children of one task. |
| `Finish.TurnsHaveNoRivals` | pkg/api/dynamic.go:77-98 | No fold does, if no task that returned a flow is required dynamically in the specification. |
| `Finish.TasksAfterTurns` | pkg/api/dynamic.go:77-98 | If only static tasks returned flows, there are at most twice as many tasks as static ones. |
| `Finish.RunCompletes` | pkg/controller/invocation.go:150-171 | Evaluating that fold before the deadline submits the completion of the invocation. |
| `WorkQueue.Type.constructor` | pkg/util/workqueue/workqueue.go:40-48 | A new queue is empty. |
| `WorkQueue.Type.Add` | pkg/util/workqueue/workqueue.go:80-107 | Accepts or refuses, coalesces or replaces, and queues, as the specification of the queue says. |
| `WorkQueue.Type.Get` | pkg/util/workqueue/workqueue.go:121-139 | Hands out the item of the first key and marks it as being processed. |
| `WorkQueue.Type.Done` | pkg/util/workqueue/workqueue.go:144-154 | Ends the processing of a key and queues it again if it became dirty. |
| `WorkQueue.Type.ShutDown` | pkg/util/workqueue/workqueue.go:159-164 | Only marks the queue as shutting down. |
| `WorkQueue.DoneKeepsInv` | pkg/util/workqueue/workqueue.go:144-154 | `Done` keeps the queue consistent if and only if its key is being processed or not dirty. |
| `WorkQueue.NothingIsLost` | pkg/util/workqueue/workqueue.go:60-154 | In every run, in terms of what callers saw added, handed out and done: the queue lists once the keys that need processing and that no worker has; a key needs processing if and only if an item was added since it was last handed out; the next worker gets a key no other has, with the latest or the first of these items. |
| `WorkQueue.RefusedIff` | pkg/util/workqueue/workqueue.go:80-107 | In every run an item is refused if and only if the queue was shut down, or nothing waits for its key and as many keys as the bound wait for a worker; a refusal changes nothing, and an item that is added has its key wait, behind those before it. |
| `WorkQueue.ServedInOrder` | pkg/util/workqueue/workqueue.go:121-139 | Keys are served first in, first out, whatever is added or done in between. |
| `WorkQueue.SizeBound` | pkg/util/workqueue/workqueue.go:95-153 | With at most W keys in processing, queued plus processed keys never exceed the limit plus W. |
| `DelayingQueue.RootIsMinimum` | pkg/util/workqueue/delaying_queue.go:95-102 | In a heap the first entry is due first. |
| `DelayingQueue.WaitForPriorityQueue.Swap` | pkg/util/workqueue/delaying_queue.go:103-107 | Exchanges two entries and keeps every entry's index. |
| `DelayingQueue.WaitForPriorityQueue.Push` | pkg/util/workqueue/delaying_queue.go:111-116 | Adds the entry and restores heap order and indices. |
| `DelayingQueue.WaitForPriorityQueue.Pop` | pkg/util/workqueue/delaying_queue.go:120-126 | Removes exactly the first entry and restores heap order and indices. |
| `DelayingQueue.WaitForPriorityQueue.Fix` | pkg/util/workqueue/delaying_queue.go:255-269 | Restores the heap after one entry changed. |
| `DelayingQueue.WaitForPriorityQueue.Reschedule` | pkg/util/workqueue/delaying_queue.go:255-269 | Changes the time of an entry found by its index and restores the heap. |
| `DelayingQueue.WaitForPriorityQueue.FirstIsDueFirst` | pkg/util/workqueue/delaying_queue.go:128-132 | Peeking gives an entry that is due no later than any other. |
| `DelayingQueue.WaitingEntries.Insert` | pkg/util/workqueue/delaying_queue.go:255-269 | A datum waits for the earlier of its old and its new time; heap and index by datum stay in bijection. |
| `DelayingQueue.WaitingEntries.Drain` | pkg/util/workqueue/delaying_queue.go:199-211 | Emits exactly the data that are due, once each and in order of time, and leaves exactly the others. |
| `DelayingQueue.WaitsForEarliest` | pkg/util/workqueue/delaying_queue.go:185-252 | Over every sequence of requests and drains a datum waits exactly when it was requested since it was last emitted, for the earliest of those requests. |
| `Executor.LocalExecutor.constructor` | pkg/controller/executor/executor.go:44-57 | A new executor has an empty queue and no counts; sizes that are not positive panic. |
| `Executor.LocalExecutor.GetGroupTasks` | pkg/controller/executor/executor.go:80-85 | Reads the counter of a group. |
| `Executor.LocalExecutor.SubmitAfter` | pkg/controller/executor/executor.go:87-108 | Queues the task and counts it if it was accepted, as a submission followed by its count. |
| `Executor.LocalExecutor.WorkerTurn` | pkg/controller/executor/executor.go:120-137 | A turn of a worker is a take, a finish and a count-off in that order. |
| `Executor.CounterIsExact` | pkg/controller/executor/executor.go:80-136 | Under every interleaving the counter of a group plus the accepted submissions not yet counted is the number of its tasks queued, running or finished but not counted off, plus its coalesced submissions. |
| `Executor.ExecutorServes` | pkg/controller/executor/executor.go:44-137 | Under every interleaving there are as many workers as configured, the queue is in a state that a proper run of the work queue leads to, submissions are refused exactly as it refuses them, and an idle worker gets a task if and only if a key waits for one. |
| `Executor.ZeroMeansQuiet` | pkg/controller/executor/executor.go:80-136 | When a group has no uncounted submission, a counter of zero means that nothing of it is queued or running; and once nothing is, the counter reads the number of coalesced submissions, so it returns to zero exactly when there was none. |
| `Executor.CoalescedStaysCounted` | pkg/controller/executor/executor.go:87-136 | Submitting a task twice before a worker takes it leaves the counter at one when nothing is queued, running or uncounted. |
| `MemBackend.Backend.constructor` | pkg/fes/backend/mem/mem.go:73-103 | A new store is empty, with the configured or default limits. |
| `MemBackend.Backend.Find` | pkg/fes/backend/mem/mem.go:187-200 | Looks into the active streams and then the completed ones, of which it marks the one found as recently used. |
| `MemBackend.Backend.Get` | pkg/fes/backend/mem/mem.go:157-168 | Gives the stream from either tier, or an error for a key without an identifier. |
| `MemBackend.Backend.FitBuffer` | pkg/fes/backend/mem/mem.go:222-231 | Terminates, and evicts oldest completed streams until there is room or none is left. |
| `MemBackend.Backend.Promote` | pkg/fes/backend/mem/mem.go:203-210 | Moves a completed stream to the active ones; the counter drops by one. |
| `MemBackend.Backend.DemoteKey` | pkg/fes/backend/mem/mem.go:213-220 | Moves an active stream to the buffer, evicting the oldest one if it is full. |
| `MemBackend.Backend.AppendEvent` | pkg/fes/backend/mem/mem.go:105-155 | The new store and the outcome of an append, in each of its cases. |
| `MemBackend.AppendKeeps` | pkg/fes/backend/mem/mem.go:105-155 | An append keeps the tiers consistent, extends the stream of an acknowledged event, loses at most one other stream and leaves the rest, and loses a count exactly when it reactivates a completed stream. |
| `MemBackend.StoreRefinesLog` | pkg/fes/backend/mem/mem.go:105-200 | In every run each key holds the events written to it and acknowledged, in order, since the store last held none of it, and what it no longer holds ended with a completed stream; it is in the buffer exactly when its last event completed it and else among the active streams; with a limit per key it holds at most one event more than that. |
| `MemBackend.WritesAreAnswered` | pkg/fes/backend/mem/mem.go:105-155 | In every run an event is acknowledged if and only if its stream holds it from then on; it is refused if and only if it is not valid, its stream is over the limit, or it starts a stream while nothing can be evicted and the active streams are as many as the limit plus the reactivations; a refused event changes no stream. |
| `MemBackend.EntriesAreCounted` | pkg/fes/backend/mem/mem.go:118-244 | In every run the counter is the number of streams minus the reactivations so far, and at most the configured or default limit. |
| `MemBackend.TwoStreamsWithLimitOne` | pkg/fes/backend/mem/mem.go:203-210 | With room for one stream, a reactivated stream does not count and a second one is let in. |
| `MemBackend.LeastRecentlyUsedGoes` | pkg/fes/backend/mem/mem.go:187-244 | In every run an operation costs the store a stream if and only if room is needed for a new stream with the counter at the limit, or for a completed one in a full buffer; it was completed, and used less recently than every other completed stream. |
| `Inputs.Prioritize` | pkg/types/typedvalues/priority.go:21-63 | Lists every input once, from the highest to the lowest priority. |
| `Inputs.ResolveEach` | pkg/controller/invocation.go:352-372 | Resolves the inputs in that order, each in the scope of those before it. |
| `Inputs.PriorityOrdersAgree` | pkg/types/typedvalues/priority.go:24-30 | Where inputs read only inputs of higher priority, it does not matter how the unstable sort orders equal priorities. |
| `Inputs.SeesLeader` | pkg/controller/invocation.go:352-372 | An input of strictly highest priority is in the scope of every other input. |
| `Inputs.ResolvesEveryLeaf` | pkg/controller/expr/expr.go:56-204 | Resolving a value evaluates every expression in it, at any depth of maps and lists, and changes no key, element or other leaf. |
| `Inputs.ParsesDecimals` | pkg/types/typedvalues/priority.go:32-42 | A priority in decimal notation is read as the number it denotes, with or without a sign, if that fits 64 bits. |
| `Dag.HorizonIsTopological` | pkg/scheduler/policies.go:40-48 | Every order that the horizon allows is topological. |
| `Dag.ExecuteSolves` | pkg/controller/invocation.go:209-221 | Whatever order is taken, each output is what its task makes of the final outputs. |
| `Dag.OrderDoesNotMatter` | pkg/controller/invocation.go:209-221 | All orders that the horizon allows give the same outputs, if tasks depend only on what they require. |
| `Dag.OutputExprIsExpression` | pkg/controller/expr/functions.go:67-90 | A generated output lookup is wrapped as an expression. |
| `Dag.TaskIdInverse` | pkg/fnenv/native/builtin/repeat.go:109-111 | Generated task names are distinct from each other and from the collector. |
| `Repeat.CreateRepeatTasks` | pkg/fnenv/native/builtin/repeat.go:89-107 | Builds the chain of iterations. |
| `Repeat.Invoke` | pkg/fnenv/native/builtin/repeat.go:54-87 | Gives the unrolled loop, of the task without its own requirements, if and only if the count is positive. |
| `Repeat.RepeatIsValid` | pkg/fnenv/native/builtin/repeat.go:77-111 | The unrolled loop is a valid workflow if and only if the task has a function. |
| `Repeat.RepeatMeansLoop` | pkg/fnenv/native/builtin/repeat.go:77-111 | The horizon leaves one order, the outputs are those of a plain loop that gives each iteration the output before as `_prev`, whatever the inputs of the task read, and the output task is the last iteration. |
| `Repeat.RepeatMeansIterate` | pkg/fnenv/native/builtin/repeat.go:54-111 | If the inputs read no other task, the output of the workflow is the task applied n times, each time to the result before. |
| `Repeat.PrevIsInScope` | pkg/fnenv/native/builtin/repeat.go:96-102 | Every other input of an iteration, if its priority is below 100, is resolved with the previous output in its scope. |
| `Repeat.LoopIterates` | pkg/fnenv/native/builtin/repeat.go:89-107 | If the inputs read no other task, the last output of the plain loop is the task applied n times. |
| `Foreach.CreateTasks` | pkg/fnenv/native/builtin/foreach.go:113-130 | Builds one task per item, in order, chained if sequential. |
| `Foreach.Invoke` | pkg/fnenv/native/builtin/foreach.go:107-147 | Builds the item tasks and the collector. |
| `Foreach.ForeachIsValid` | pkg/fnenv/native/builtin/foreach.go:107-147 | The workflow is valid if and only if there is no item, or the task has a function and requires nothing. |
| `Foreach.ForeachMeansMap` | pkg/fnenv/native/builtin/foreach.go:107-147 | Under every horizon order, in parallel or in sequence, the output is the list of results in the order of the items, if the task and the items read no other task of the workflow. |
| `Foreach.SequentialMeansLoop` | pkg/fnenv/native/builtin/foreach.go:107-147 | In sequence the horizon leaves one order, and the outputs are those of a plain loop over the items, whose inputs may read all earlier items, collected in the order of the items. |
| `Foreach.ItemInputHolds` | pkg/fnenv/native/builtin/foreach.go:115-119 | What a task is given as its item is the item itself, up to truncated ints and the unwrapping of what was typed. |
| `Foreach.ItemIsGiven` | pkg/fnenv/native/builtin/foreach.go:115-119 | An item that holds no expression reaches the function as it is, whatever the other inputs are. |
| `Foreach.ItemIsInScope` | pkg/fnenv/native/builtin/foreach.go:115-119 | Every other input, if its priority is below 1000, is resolved with the item in its scope, and with the item itself if that holds no expression. |
| `Foreach.ParallelAtOnce` | pkg/fnenv/native/builtin/foreach.go:113-130 | In parallel the horizon at the start is exactly the tasks of the items, or the collector if there is none. |
| `While.Invoke` | pkg/fnenv/native/builtin/while.go:66-200 | Ends the loop, fails, or compiles the next turn, with every error case of the inputs. |
| `While.ReadMeans` | pkg/fnenv/native/builtin/while.go:66-123 | The inputs are read if and only if the condition is a boolean with a source, limit and count are numbers, the delay is a duration and there is an action; as what is given, and else with an error about an input that is missing or wrong. |
| `While.BuildAction` | pkg/fnenv/native/builtin/while.go:139-159 | A flow action is told the count and, after the first turn, the previous output. |
| `While.BuildTurn` | pkg/fnenv/native/builtin/while.go:161-193 | Builds action, condition and, with a delay, the wait before the action. |
| `While.TurnDoes` | pkg/fnenv/native/builtin/while.go:161-193 | The tasks of a turn: the action passed through, the next `while` as output, and with a delay a sleep of that duration. |
| `While.NestedInputs` | pkg/fnenv/native/builtin/while.go:139-159 | A task that is an action keeps its function and other inputs, gets the number of the turn and, after the first turn only, the lookup of the previous output. |
| `While.ActionIsKept` | pkg/fnenv/native/builtin/while.go:139-159 | Actions that are no task are passed through unchanged. |
| `While.TurnIsSequential` | pkg/fnenv/native/builtin/while.go:161-193 | A turn is a valid workflow, and the horizon lets it run in one order only. |
| `While.ReadNext` | pkg/fnenv/native/builtin/while.go:66-123 | The next invocation reads back from its inputs, resolved by priority, the same loop one turn further. |
| `While.ConditionInSight` | pkg/fnenv/native/builtin/while.go:139-183 | The condition is evaluated again from its source, with the count and the last output in its scope. |
| `While.WhileMeansLoop` | pkg/fnenv/native/builtin/while.go:125-193 | The compiled loop does exactly k actions, where k is the first number of turns after which the condition fails, and gives the last output; a condition that is no boolean or the limit stop it with an error. |
| `While.LimitExceededIff` | pkg/fnenv/native/builtin/while.go:125-137 | The limit error arises if and only if the condition holds at the start and after every turn up to max(limit - count, 0). |
| `While.NestedCountsOn` | pkg/fnenv/native/builtin/while.go:139-159 | A loop that is the action of a loop, once its inputs are resolved, starts at the outer count plus one and has max(limit - count - 1, 0) turns; it exceeds its limit exactly when its condition holds through all of these. |
| `While.NestedReads` | pkg/fnenv/native/builtin/while.go:66-113 | A nested loop whose condition is an expression is read if and only if the condition gives a boolean and its delay, if any, a duration; a delay given as text is read as it was written. |

## Left out

- gRPC, the HTTP gateway, the command line, the NATS event store, the Fission and HTTP runtimes: plumbing around foreign services.
- Protobuf encoding and the JavaScript evaluator: values are typed directly, and expressions are evaluated by an abstract function with the few laws each theorem names.
- FNV hashes of task names and the cycle enumeration of the graph library: nodes are the names themselves, and cycles are found by removing roots.
- Dropped notifications of the subscription, and streams that the event store evicted under the cache: convergence is stated for deliveries that arrive in order.
- The capacity of the LRU cache: evictions may happen at any time instead.
- Merging of the tasks of a workflow's specification and status: a workflow has its tasks.
- Requirements whose parameters are a nil pointer make the lookup of children in the source panic; here they are not dynamic.
- The branch of an evaluation in which the creation time of an invocation cannot be read.
- The loop variable that the prewarming closures share: only the identifier that is submitted is modelled.
- Scopes inherited from a parent invocation, status and time stamps in scopes, timeouts of the evaluator, and deadlines of task runs.
- Liveness of runs that append no result, and notifications and ticks that trigger an evaluation.
- The channel, heartbeat and timer in front of the delayed items, and `AddAfter` itself: a drain happens at any given time.
- Unwrapping of the inputs of `repeat` and `foreach`: their models start from the unwrapped values.
- Overflow of the 32-bit counter of the event store after 2^31 reactivations.
- Validate.ValidateWorkflowSpec: a task that requires itself is excluded, because the graph library panics on it before anything is reported.
- Engine.DependencySafety: snapshots left by a refresh that was written too late are excluded, because safety fails on them (`LateRefresh.TooLateIsUnsafe`).
- Progress.AllTasksFinish: is about rounds in which accepted runs succeed, without two open dynamic children of one task, because these wait for each other (`Progress.FinishIffNoRivals`).
- Foreach.ForeachMeansMap: a task or item that reads another task of the generated workflow is excluded, since parallel tasks have no order; `Foreach.SequentialMeansLoop` includes it for tasks in sequence.
- Completion.CompletionOutput: an output transformer that turns an output into a flow is excluded where the output is said not to be a flow.

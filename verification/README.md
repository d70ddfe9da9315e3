# Verification of the rclex core

rclex lets Elixir programs take part in a ROS 2 graph. This project models its
stateful core in Dafny and proves what its handlers, its generated message
codec and its native helpers keep on every run and for every input.

| Files | What they model |
|---|---|
| `GoalStates`, `ActionServerModel` | the goal state machine, and the action server's handlers as one step function on the goals map, the native goal registry, the running tasks and a log of native calls |
| `ActionMonitor` | an observer that replays only the log of native calls against the action protocol; it does not know the goals map, and is the reference the server is proved against |
| `ActionServerProofs`, `ActionServerRuns`, `ActionServerTheorems` | what every handler keeps, when a handler raises, and the theorems about whole runs |
| `ActionServerEffects` | what each message does to the goals and which native calls, with what contents, it adds to the log, told from the message and the state alone |
| `ActionServer` | the same handlers in place, over a native server object; each is proved to take exactly the model's step |
| `ActionClient`, `ActionClientEffects` | the action client's three request tables, timers, mailbox and feedback routes, and what each message does to them |
| `ServiceClient`, `ServiceClientEffects`, `ServiceClientTheorems` | service clients with their pending tables and the callers that use several of them, what each message does to them, and the theorems about whole runs |
| `Introspection` | a client's introspection clock |
| `Codec`, `CodecTheorems`, `Messages` | the generated `set` and `get` functions once for all schemas, and four message types |
| `Waiter` | the graph guard waiter thread and the call that stops it, as interleaved steps |
| `RosArgs` | allocation, unwinding and release of a node's argument vector |
| `Clock` | the clock process with its time override and registered tf2 buffers |
| `Qos`, `TimeSplit` | QoS profile conversion over exact reals, and the three ways nanoseconds are split |

How the models read the code:

* A raised error ends a run: the theorems speak of the states before it, and
  where a handler can raise, a theorem says exactly when. This covers the
  `rescue` at `lib/rclex/action_server.ex:487-488`, whose logger value would
  become the goals map. A cancel request raises when an accepted entry names a
  goal that was never executed (line 272 shuts down a task that is `nil`) and
  when the cancel callback answers something its caller has no clause for.
* The clause at `lib/rclex/action_server.ex:208-213`, meant to report a second
  execute call, never matches, because the server's state has no `:task` key.
  A second execute call of a goal therefore raises in the native update; the
  model follows the code (`HandleExecuteKeeps`).
* One notification of `a + b` events equals two of `a` and `b`. For goal
  requests this holds without any condition on the uuids: acceptance is decided
  by the native registry, which sees each goal at once, so inserting into the
  map only after the batch makes no difference (`LateInsertion`).
* What a handler learns from outside is part of its message: what a take
  returned, what a user callback decided, which goals are due to expire, which
  native call fails. The native contracts are small and stated in the models:
  the five goal events, expiry of terminal goals only and at most 100 at once,
  fresh increasing sequence numbers, latching guard conditions, a clock that
  reads its override while it is on.
* A native goal handle is a uuid with a generation, so that using a handle after
  it was freed is visible even if the uuid was accepted again.
* C integers are explicit: 8 and 16-bit fields are read as 32-bit and reduced,
  `unsigned int` depths are reduced modulo 2^32. Division truncates toward zero
  where Elixir and C do.

## Model

| member | source | states |
|---|---|---|
| ActionServerTheorems.ResultRequestsConserved | lib/rclex/action_server.ex:508-597 | on every run, the result requests taken for a uuid are, with multiplicity, those answered plus those in that goal's waiting list: none lost, none answered twice |
| ActionServerTheorems.TaskAnswersWaiting | lib/rclex/action_server.ex:600-642 | when a task ends, exactly the requests waiting for its goal are answered, all with the final state and the struct the task returned, or an empty result if it returned nil or false, even if the expiry of the same step drops the goal |
| ActionServerTheorems.CancelAnswersWaiting | lib/rclex/action_server.ex:264-287 | when a goal is canceled its task is stopped and exactly the requests waiting for it are answered, all with "canceled" and the struct the callback gave, or an empty result if it gave nil or false, even if the expiry of the same step drops the goal |
| ActionServerTheorems.LifeCycle | lib/rclex/action_server.ex:208-287 | at every handler boundary the goals map and the native registry have the same goals, with live handles; a goal has a task iff it is executing and a response iff it is terminal, then with that state and no request waiting; the cached status is the native one, "unknown" only while merely accepted |
| ActionServerTheorems.HistoriesArePaths | src/rcl_action_server.c:817-844 | the events of every handle ever accepted are a path of the goal state machine, ending in its present state, or in a terminal one if it was freed |
| GoalStates.PathsAreLives | src/rcl_action_server.c:817-844 | the paths from acceptance on are exactly: executed or not, asked to cancel or not, then at most one end, success or failure once either has happened, cancelation only once asked for; so no goal sees more than three events |
| ActionServerTheorems.EveryCallLegal | lib/rclex/action_server.ex:709-751 | every native call of a run is one the observer allows: no freed handle is used, no refused event is sent, every status message has one current entry per live goal |
| ActionServerTheorems.FirstExecuteFinds | lib/rclex/action_server.ex:215-262 | the first execute call after an acceptance finds the goal and starts it, whatever messages came between |
| ActionServerTheorems.WaitsForExecute | lib/rclex/action_server.ex:215-262 | an accepted goal stays as it is until a message asks to execute it; no expiry or cancel takes it away |
| ActionServerTheorems.NotificationsSplit | lib/rclex/action_server.ex:338-503 | one notification of a + b goal, cancel or result events leaves the same state and the same log of responses as one of a followed by one of b |
| ActionServerTheorems.LateInsertion | lib/rclex/action_server.ex:338-428 | inserting the accepted goals only after the whole batch equals inserting each at once |
| ActionServerTheorems.StepKeeps | lib/rclex/action_server.ex:203-642 | every message that can arrive keeps the invariant or raises, and it raises exactly in the cases named on the state before it; for a batch of cancel requests, when some request selects, among the goals no earlier request has ended, one that cannot be canceled as its callback decides |
| ActionServerTheorems.RunKeeps | lib/rclex/action_server.ex:203-642 | the invariant holds at every handler boundary of every run |
| ActionServerTheorems.HandleExecuteKeeps | lib/rclex/action_server.ex:208-262 | an execute call raises iff the goal is known and not in the accepted state; otherwise the invariant is kept |
| ActionServerTheorems.SecondExecuteRaises | lib/rclex/action_server.ex:208-262 | where the first execute call of an accepted goal starts it, a second one raises, although a clause was meant to report it |
| ActionServerTheorems.CancelBeforeExecuteRaises | lib/rclex/action_server.ex:264-287 | a cancel notification whose callback accepts canceling a goal that was never executed raises |
| ActionServerTheorems.TaskFindsGoal | lib/rclex/action_server.ex:824-834 | every task result or crash message finds its goal, an executing one, and no other goal has that task |
| ActionServerTheorems.HandleTaskKeeps | lib/rclex/action_server.ex:600-642 | a task's end raises iff its value is neither nil nor false nor a result struct the response message takes (another map is refused only when the message is set, after the expiry); otherwise the invariant is kept and no other unfinished goal changes |
| ActionServerTheorems.HandleResultsKeep | lib/rclex/action_server.ex:517-596 | any batch of result requests keeps the invariant |
| ActionServerTheorems.GoalsKeep | lib/rclex/action_server.ex:323-429 | any batch of goal requests, fresh or repeated, accepted or not, keeps the invariant |
| ActionServerTheorems.AcceptedStays | lib/rclex/action_server.ex:147-201 | no message but its own execute call changes the native state of a goal that is merely accepted |
| ActionServerEffects.GoalRequestsAnswered | lib/rclex/action_server.ex:323-429 | each goal request of a batch gets exactly one answer, with its header and time: yes iff the callback accepted it and its uuid was neither live before nor accepted earlier in the batch; exactly those make a goal with their payload and time, and have their accepted callback spawned; every other goal keeps its entries |
| ActionServerEffects.CancelRequestEffect | lib/rclex/action_server.ex:431-506 | a cancel request is answered with the infos of exactly the entries that are the first to name a goal accepted or executing, each goal once; the requests waiting for the goals whose cancelation the callback accepts, and no others, are answered, with the result it gave |
| ActionServerEffects.CancelRequestFates | lib/rclex/action_server.ex:264-321 | the goals so named end canceled, with the result their callback gave, if it accepts, and stay as they were if it rejects; no other unfinished goal changes |
| ActionServerEffects.CancelRequestRaises | lib/rclex/action_server.ex:264-321 | a cancel request raises iff the callback accepts one of them that does not execute, or with a value the message does not take, or answers something else |
| ActionServerEffects.SelectionIsChosen | src/rcl_action_server.c:282-330 | the native selection is exactly the first entries to name a goal that is accepted or executing, in their order |
| ActionServerEffects.CancelEnded | lib/rclex/action_server.ex:264-287 | the native calls of a cancelation in order, and the state it leaves |
| ActionServerEffects.ResultRequestsAnswered | lib/rclex/action_server.ex:508-597 | every result request of a batch is taken; it is answered "unknown" if its goal is not there, with the goal's response if it has one, and else waits; nothing else changes |
| ActionServerEffects.WaitingLatestFirst | lib/rclex/action_server.ex:549-558 | the requests that wait for a goal are kept latest first, and the goal's end answers them in that order |
| ActionServerEffects.ExecuteEffect | lib/rclex/action_server.ex:208-262 | an execute call of an accepted goal moves it to executing, publishes that, and starts a fresh task with the goal's own payload; for an unknown goal it does nothing, otherwise it raises |
| ActionServerEffects.TaskDoneEffect | lib/rclex/action_server.ex:600-623 | a task's result makes its goal succeed: the event, the published statuses, the expiry and one answer to each waiting request, in this order, with the struct returned or an empty result; no other goal changes but those freed |
| ActionServerEffects.TaskDownEffect | lib/rclex/action_server.ex:626-642 | a task's crash makes its goal abort in the same way, with an empty result |
| ActionServerEffects.ResponseKeptUntilFreed | lib/rclex/action_server.ex:147-201 | on every run a goal keeps the response it got for as long as it is not freed |
| ActionServerEffects.LaterRequestsGetTheResult | lib/rclex/action_server.ex:536-548 | so every request that comes after the task's result, while the goal is not freed, is answered at once with that result and with nothing else |
| ActionServerEffects.FeedbackEffect | lib/rclex/action_server.ex:203-206 | feedback is passed on as it came, and nothing else happens |
| ActionServerRuns.CancelEntriesKeep | lib/rclex/action_server.ex:467-477 | handling the goals of a cancel request raises iff one of them does in the state the request found; each goal is still in the map at its turn, so the "not found" branches are never taken; the goals accepted end canceled, the others are unchanged |
| ActionServerRuns.HandleCancelKeeps | lib/rclex/action_server.ex:448-499 | a cancel request keeps the invariant or raises, with the exact condition |
| ActionServerRuns.CancelsKeepExactly | lib/rclex/action_server.ex:441-503 | a batch of cancel requests raises exactly as the state before it tells, and otherwise has ended exactly the goals the accepted entries name |
| ActionServerRuns.AnnouncedAreCanceled | lib/rclex/action_server.ex:298-309 | a cancel response announces the infos of the goals selected, in order and nothing else; a goal its callback rejected is announced and stays as it was, so the goals announced are those canceled iff none was rejected |
| ActionServerRuns.CancelGoalKeeps | lib/rclex/action_server.ex:264-287 | canceling a goal works iff it is executing and the callback's value is usable; then it ends canceled, if not freed at once, the invariant is kept and other unfinished goals are untouched |
| ActionServerRuns.CancelingSelected | src/rcl_action_server.c:282-330 | the goals a cancel request selects are live, cancelable and each named once |
| ActionServerRuns.EndGoal | lib/rclex/action_server.ex:600-642 | the tail shared by success, failure and cancelation: one event that ends the goal and then its result restores the invariant |
| ActionServerProofs.SetResultKeeps | lib/rclex/action_server.ex:147-201 | storing the result, expiring and answering restores the invariant, whatever goals the expiry takes |
| ActionServerProofs.SendAllLegal | lib/rclex/action_server.ex:644-676 | answering a whole waiting list answers requests that were all still open, once each, with one response |
| ActionServerProofs.UpdateKeeps | lib/rclex/action_server.ex:709-731 | an event the native state allows keeps the two registries and the published statuses in agreement |
| ActionServerProofs.ExpiryLegal | src/rcl_action_server.c:203-263 | an expiry frees at most 100 goals, all live and terminal |
| ActionMonitor.Conserved | lib/rclex/action_server.ex:508-707 | in any log the observer allows, requests taken are requests answered plus requests open |
| ActionMonitor.HistoryIsPath | src/rcl_action_server.c:817-844 | in any log the observer allows, each handle's events are a path of the goal state machine |
| ActionServerProcess.ActionServer.UpdateGoalsState | lib/rclex/action_server.ex:709-731 | the helper in place is the model's step: same new state, or it raises in the same cases |
| ActionServerProcess.ActionServer.SetResult | lib/rclex/action_server.ex:147-201 | storing a result in place is the model's step |
| ActionServerProcess.ActionServer.NewGoalRequests | lib/rclex/action_server.ex:323-429 | the goal handler with its batch loop and late insertion takes the model's step and keeps the invariant |
| ActionServerProcess.ActionServer.CancelIfAccepted | lib/rclex/action_server.ex:289-321 | handling one canceled goal in place is the model's step |
| ActionServerProcess.ActionServer.NewCancelRequests | lib/rclex/action_server.ex:431-506 | the cancel handler takes the model's step, or raises when the model does |
| ActionServerProcess.ActionServer.NewResultRequests | lib/rclex/action_server.ex:508-597 | the result handler takes the model's step and keeps the invariant |
| ActionServerProcess.ActionServer.ExecuteGoal | lib/rclex/action_server.ex:215-262 | the execute handler takes the model's step and says whether the goal was found |
| ActionServerProcess.ActionServer.FindGoalForTask | lib/rclex/action_server.ex:824-834 | the search of the goals map finds the goal that holds a running task |
| ActionServerProcess.ActionServer.TaskEnded | lib/rclex/action_server.ex:600-642 | the result and DOWN handlers take the model's step and raise exactly for a value the response message does not take |
| ActionServerProcess.NativeServer.Update | src/rcl_action_server.c:817-844 | the native update: refused for a dead handle or a transition outside the table, then nothing changes |
| ActionServerProcess.NativeServer.Expire | src/rcl_action_server.c:203-263 | the native expiry frees exactly the terminal ones among the first 100 goals due |
| ActionClient.CallbacksOnce | lib/rclex/action_client.ex:338-550 | under every interleaving of responses, timers and expiry messages, a request's callback runs at most once, and numbers issued are the disjoint union of pending, answered and expired; a pending request will still be expired |
| ActionClient.CallbacksMatch | lib/rclex/action_client.ex:350-599 | a callback runs for the request it was given with; feedback runs the callback of the goal request whose acceptance of that uuid was taken last while it was pending |
| ActionClient.ExpiryIsLocal | lib/rclex/action_client.ex:640-686 | an expiry message touches only its own kind's table and there only its own number, although numbers of the kinds overlap; after an answer it changes nothing |
| ActionClient.StepKeeps | lib/rclex/action_client.ex:200-686 | every handler keeps the tables, the timers and the mailbox in agreement |
| ActionClientEffects.SendEffect | lib/rclex/action_client.ex:200-324 | a request goes out under the next number of its kind, which was not pending, is pending with what it came with and has a timer of its own |
| ActionClientEffects.ResponsesEffect | lib/rclex/action_client.ex:338-550 | after a batch of responses no number it names is pending; each that was has had its own callback run exactly once, with the answer and payload of the first response to it, and its timer disarmed; an acceptance routes the goal's feedback; everything else is as it was |
| ActionClientEffects.FeedbackEffect | lib/rclex/action_client.ex:552-599 | each feedback message of a routed uuid reaches the callback it is routed to, once, with its payload |
| ActionClientEffects.TimerEffect | lib/rclex/action_client.ex:200-324 | a timer that fires leaves its request's expiry message and is gone |
| ActionClientEffects.ExpiryEffect | lib/rclex/action_client.ex:640-686 | an expiry message of a pending request takes it away and runs its callback with a timeout, any other does nothing |
| ServiceClientTheorems.NumbersConserved | lib/rclex/client.ex:204-324 | with any number of clients, each numbering from one, every number a running client issued is pending, delivered, run or withdrawn, exactly one of the four, however often the middleware answers; a client that stops forgets what was pending |
| ServiceClientTheorems.ResponseReachesIssuer | lib/rclex/client.ex:262-320 | a response reaches only the caller or callback of the call that got its number at that client, at most once; a synchronous call returns only a payload its own client took under its own number, although other clients' responses with that number may be in the mailbox |
| ServiceClientTheorems.TimedOutIsGone | lib/rclex/client.ex:77-88 | once the removal of a timed-out call is handled its entry is gone, and only timed-out calls are removed |
| ServiceClientTheorems.LateResponseNeverMatches | lib/rclex/client.ex:58-88 | a response delivered after the timeout stays in the mailbox: no later wait matches it, also one for the same number at another client, because the reference differs |
| ServiceClientTheorems.SameNumberElsewhere | lib/rclex/client.ex:58-88 | a concrete run in which a late message is for the very caller and number that waits at another client, and only the reference keeps it apart |
| ServiceClientTheorems.RefsAreDistinct | lib/rclex/client.ex:58-63 | no two synchronous calls, at one client or at two, are made under the same reference |
| ServiceClientTheorems.WaitingIsServed | lib/rclex/client.ex:71-88 | a waiting caller's call is pending, or its one response is in its mailbox, never both, and one of them iff its client runs or sent the response before it stopped; while the call is pending no message matches |
| ServiceClientTheorems.StrandedForever | lib/rclex/client.ex:71-75 | a caller that waits without a timeout for a client that stopped before answering still waits for that call in every later state |
| ServiceClientTheorems.StoppedUnderCaller | lib/rclex/client.ex:71-75 | a concrete run of three messages that leaves a caller so |
| ServiceClientTheorems.StepKeeps | lib/rclex/client.ex:204-324 | every handler, every move of a caller, and every start or stop of a client keeps the tables, the mailboxes and the waits in agreement |
| ServiceClientEffects.ResponsesEffect | lib/rclex/client.ex:262-320 | every response of a notification is taken once; after it no call it names is pending at this client, and each that was has had the payload of the first response to it sent to its caller under the caller's reference, or handed to its callback, exactly once; other calls and clients are as they were |
| ServiceClientEffects.CallAsyncEffect | lib/rclex/client.ex:204-225 | a call to a running client is issued under its next number, which was not pending, and is pending; one to a client that is not there changes nothing |
| ServiceClientEffects.CallSyncEffect | lib/rclex/client.ex:227-248 | the same for a synchronous call, whose caller then waits for that number under a reference no one had before |
| ServiceClientEffects.ReceiveEffect | lib/rclex/client.ex:71-88 | a caller that receives returns the payload of the message matched, which leaves its mailbox |
| ServiceClientEffects.TimeOutEffect | lib/rclex/client.ex:71-88 | a caller that gives up stops waiting and casts one removal of its call |
| ServiceClientEffects.RemovalEffect | lib/rclex/client.ex:322-324 | a removal takes its call from the pending ones if it is there still, and leaves all others |
| Introspection.ClocksConserved | lib/rclex/client.ex:326-396 | before the process ends, also between a raised switch and the termination it causes, clocks created minus clocks finalized is one when the process holds a clock and zero when not, and it holds one iff the last switch that went through turned introspection on; rcl publishes with that clock, and none is finalized twice or while rcl publishes with it |
| Introspection.NoClockLeft | lib/rclex/client.ex:157-174 | an ended process leaves no clock behind iff its termination got as far as the clock; otherwise exactly one |
| Introspection.LeakyTermination | lib/rclex/client.ex:166-171 | a concrete run that leaves a clock behind: introspection on, then finalizing the native client fails |
| Introspection.ReconfigureConserves | lib/rclex/client.ex:181-202 | a switch keeps the account, reuses the clock while on, and when it raises leaves the old state for the termination |
| Introspection.TerminateConserves | lib/rclex/client.ex:157-174 | a termination conserves the clocks iff no call before the clock's own fails or there is no clock |
| Introspection.RunConserves | lib/rclex/client.ex:157-396 | up to its end every run is conserved; ended, it is exactly when its termination was clean |
| Introspection.SwitchEffect | lib/rclex/client.ex:326-396 | a start or switch goes through iff none of its own native calls fails; then rcl publishes with the clock held, kept or new if introspection is on, none if it is off, and a clock given up is finalized; if a call fails the switch crashes with the old clock |
| Codec.Message.Set | test/expected_files/sensor_msgs/msg/point_cloud.c:125-280 | a set, directed by any schema, accepts exactly the acceptable terms and leaves what ReadBack says, at every depth, touching nothing outside its path |
| Codec.Message.SetStruct | test/expected_files/rcl_interfaces/msg/parameter_descriptor.c:119-272 | the fields are read in order and the first refusal stops the rest |
| Codec.Message.SetSeq | test/expected_files/std_msgs/msg/u_int32_multi_array.c:119-203 | the list loop over a freshly created sequence, element by element |
| Codec.Message.SetArray | lib/rclex/generators/msg_c.ex:298-324 | a fixed array of a primitive is filled in place from the front of a list, a list too short is refused at its end and a longer one is cut |
| Codec.Message.Read | test/expected_files/sensor_msgs/msg/point_cloud.c:282-397 | a get builds the term of the message memory, field by field and element by element |
| CodecTheorems.RoundTrip | test/expected_files/sensor_msgs/msg/point_cloud.c:125-397 | for every schema, setting a well-typed term succeeds and reads back as that term, whatever the message held before |
| CodecTheorems.RoundTripExact | test/expected_files/sensor_msgs/msg/point_cloud.c:125-397 | for every schema, an accepted term reads back as itself iff it is well typed |
| CodecTheorems.SetThenGet | test/expected_files/sensor_msgs/msg/point_cloud.c:125-397 | the same for the two native functions in sequence on a message object |
| CodecTheorems.ReadBackTyped | test/expected_files/rcl_interfaces/msg/parameter_descriptor.c:119-368 | whatever is set, accepted or refused, what reads back is well typed |
| CodecTheorems.SetAgain | test/expected_files/rcl_interfaces/msg/parameter_descriptor.c:119-368 | so what a get returns can be set on any message and reads back the same |
| CodecTheorems.RefusedStruct | test/expected_files/action_msgs/msg/goal_info.c:119-163 | a struct refused at a field keeps every later field as it was and has every earlier one as given |
| CodecTheorems.RefusedSeq | test/expected_files/std_msgs/msg/u_int32_multi_array.c:119-203 | a sequence refused at an element has its new length, with zeros after that element |
| CodecTheorems.FixedArrays | lib/rclex/generators/msg_c.ex:298-324 | a fixed array takes the front of a list and ignores the rest, whatever it is; the cells a short list does not reach are as they were, and it is refused |
| CodecTheorems.NarrowInteger | test/expected_files/rcl_interfaces/msg/parameter_descriptor.c:119-272 | a narrow field accepts every 32-bit integer and keeps it iff it fits the field |
| CodecTheorems.BooleanAtoms | test/expected_files/rcl_interfaces/msg/parameter_descriptor.c:119-272 | an atom is taken for true iff its name starts with "true"; only true and false read back as given |
| CodecTheorems.LeafAcceptance | lib/rclex/generators/msg_c.ex:326-436 | which terms a primitive field accepts, told by what is well typed: an integer field those of the width it is read at, a boolean field any atom, a byte field what is no longer than it |
| Messages.PointCloudRoundTrip | test/expected_files/sensor_msgs/msg/point_cloud.c:125-397 | every point cloud with integers in range and representable floats survives the native message unchanged |
| Messages.DescriptorRoundTrip | test/expected_files/rcl_interfaces/msg/parameter_descriptor.c:119-368 | every parameter descriptor whose type fits 8 bits survives the native message unchanged |
| Messages.DescriptorTypeReduced | test/expected_files/rcl_interfaces/msg/parameter_descriptor.c:119-368 | a descriptor with any 32-bit type is accepted and comes back with the type modulo 256 and all else kept, so it survives iff its type is below 256 |
| Messages.MultiArrayRoundTrip | test/expected_files/std_msgs/msg/u_int32_multi_array.c:119-257 | every multi-array whose sizes, strides, offset and data fit 32 bits survives the native message unchanged |
| Messages.RefusedData | test/expected_files/std_msgs/msg/u_int32_multi_array.c:119-203 | an array refused at a data element has its new layout, the data before that element, and zeros from there |
| Messages.GoalInfoUuid | test/expected_files/action_msgs/msg/goal_info.c:119-190 | a uuid of k <= 16 bytes replaces the first k bytes and keeps the rest; a longer one is refused with nothing changed |
| Waiter.StopEndsTheThread | src/rcl_node.c:215-355 | from the trigger on, under every interleaving, the loop ends with the wait in progress or the next one: at most one more wait begins, and two return only if the trigger fell between the first taking its conditions and its return; the thread takes at most thirteen steps and is never blocked, and then the join can succeed |
| Waiter.OnlyOneReturn | src/rcl_node.c:232-272 | a trigger that does not fall between a wait taking its conditions and its return is followed by at most one return |
| Waiter.EventsAreSent | src/rcl_node.c:263-271 | every graph event a wait took is sent before the thread looks at its exit signal again, also one taken together with the exit; only a wait that fails loses the event it took, and then the error is reported and the loop over |
| Waiter.EventsAreLatched | src/rcl_node.c:251-271 | a graph change stays triggered until a wait takes it, and is counted as taken exactly then |
| Waiter.ExitConditionOutlivesThread | src/rcl_node.c:327-355 | the exit condition is finalized only after the thread has returned, and never used after that |
| Waiter.NoSilentEnd | src/rcl_node.c:221-282 | the thread ends because of the exit signal or after reporting an error, always gives back its environment, and its wait set unless it reported otherwise |
| Waiter.StepKeeps | src/rcl_node.c:215-355 | every step of either thread and of the graph keeps the protocol's invariant |
| Waiter.StopBounds | src/rcl_node.c:232-272 | once stopped, the thread's own steps are bounded by a rank no other step raises |
| RosArgs.Heap.ParseRosArgs | src/rcl_node.c:18-66 | succeeds iff the term is a list of iolists and no allocation fails; a failure at any point leaves the heap as it was, a success exactly the argument vector |
| RosArgs.Heap.FreeRosArgs | src/rcl_node.c:68-74 | gives back every block of a parse, each once, and nothing else |
| RosArgs.Heap.WithRosArgs | src/rcl_node.c:123-139 | parsing, use and release leave the heap as it was on every path |
| RosArgs.BlocksAllocated | src/rcl_node.c:29-65 | a successful parse of a nonempty list leaves length + 1 new blocks; the i-th pointer names the i-th element's bytes and a terminator |
| Clock.TimeNeverGoesBack | lib/rclex/clock.ex:149-199 | a buffer that stays registered and is not cleared between two states of a run has seen no switch of the override and, while it is on, no time that goes back |
| Clock.StepKeeps | lib/rclex/clock.ex:149-195 | a message clears every registered buffer once if time jumps and none if not; a clock that is not ROS time changes nothing and says so |
| Clock.ReadsLastOverride | lib/rclex/clock.ex:135-178 | with the override on, the clock reads the time set last, also one set while it was off |
| Clock.OverrideEffect | lib/rclex/clock.ex:149-178 | on a ROS clock the override is on after enabling, off after disabling, and has the time set last; nothing else changes but the clearing; any other clock refuses and stays as it is |
| Clock.DownRemovesOne | lib/rclex/clock.ex:180-195 | an owner's death removes exactly the buffer registered under that monitor |
| Clock.StaleMonitor | lib/rclex/clock.ex:185-195 | a down message for a monitor given up changes nothing, even if the buffer was registered anew |
| Clock.NoMonitorLeaks | lib/rclex/clock.ex:180-195 | after every message the runtime holds a monitor for each registered buffer and no other |
| ClockProcess.ClockServer.EnableRosTimeOverride | lib/rclex/clock.ex:149-157 | the handler in place takes the model's step: the override of a ROS clock is on afterwards, with the time it had; another clock is left alone |
| ClockProcess.ClockServer.DisableRosTimeOverride | lib/rclex/clock.ex:159-167 | the handler in place takes the model's step: the override of a ROS clock is off afterwards; another clock is left alone |
| ClockProcess.ClockServer.SetRosTimeOverride | lib/rclex/clock.ex:169-178 | the handler in place takes the model's step, comparing with the time before the change: the override of a ROS clock has the time given, and is on iff it was |
| ClockProcess.ClockServer.ClearTf2Buffers | lib/rclex/clock.ex:197-199 | the loop clears every registered buffer exactly once |
| ClockProcess.ClockServer.RegisterTf2Buffer | lib/rclex/clock.ex:180-183 | a new buffer gets a monitor no other has or had, a buffer already registered keeps its own, and every other buffer keeps its monitor |
| ClockProcess.ClockServer.UnregisterTf2Buffer | lib/rclex/clock.ex:185-189 | the buffer and its monitor are gone, so that a down message already sent for it changes nothing; every other buffer keeps its monitor |
| ClockProcess.ClockServer.OwnerDown | lib/rclex/clock.ex:192-195 | a monitor in use takes away exactly the one buffer registered under it, any other takes nothing |
| Qos.ElixirRoundTrip | src/qos.c:61-275 | every accepted profile with durations in [0, 2^64) seconds comes back from C with the same policies and depth, each duration short by less than a nanosecond; a second trip changes nothing more |
| Qos.CRoundTripExact | src/qos.c:61-275 | a C profile written out reads back as itself iff depth fits 32 bits and all nanoseconds are below one second |
| Qos.CRoundTrip | src/qos.c:61-275 | in general depth is cut to 32 bits and nanoseconds are carried into the seconds, keeping every duration's total |
| Qos.QosProfile.GetCQosProfile | src/qos.c:61-179 | the fields are read in order; the verdict is that of the first field missing or not taking its value; accepted, the C fields are the conversion of the map, whatever C makes of durations no unsigned integer holds |
| Qos.QosProfile.GetExQosProfile | src/qos.c:181-275 | raises iff a policy is one the conversion does not know; else the map has exactly the ten keys |
| Qos.FineMeansComplete | src/qos.c:61-179 | a map is accepted iff it has ten keys and all nine fields take their values |
| Qos.VerdictFromMap | src/qos.c:61-179 | the verdict told from the map: a bad argument without ten keys; else the first field in reading order that is missing gives a bad argument, or that does not take its value an error; accepted if there is none |
| Qos.PoliciesByName | src/qos.c:61-179 | which C constant each policy atom stands for, and that other atoms stand for none |
| Qos.ThereAndBack | src/qos.c:330-337 | a profile the C side accepts is always given back, whatever its durations |
| Qos.TimeTruncates | src/qos.c:123-136 | splitting an exact duration loses less than a nanosecond |
| Qos.TimeNormalizes | src/qos.c:231-239 | joining and splitting again keeps the total |
| TimeSplit.ToMsgIsTheNormalStamp | lib/rclex/duration.ex:35-53 | the split of any count, negative or not, is the one stamp with nanoseconds in [0, 10^9) that stands for it; from_msg inverts it |
| TimeSplit.ToMsgKeepsOrder | lib/rclex/duration.ex:73-81 | comparing durations is comparing their messages, seconds first |
| TimeSplit.ToMsgKeepsArithmetic | lib/rclex/duration.ex:55-71 | adding, subtracting and negating durations is, on their messages, arithmetic with a carry |
| TimeSplit.GenTimeStructAgrees | lib/rclex/action_helpers.ex:29-32 | the action stamp equals the duration split iff the count is not negative or whole seconds; else its nanoseconds are negative |
| TimeSplit.NegativeStamp | lib/rclex/action_helpers.ex:29-32 | the two splits of -1 ns differ, and the action stamp's is not normal |
| TimeSplit.DurationArrives | lib/rclex/duration.ex:35-53 | a duration can be sent in a message iff its seconds fit 32 bits, and then arrives as the same duration |
| TimeSplit.ActionStampAccepted | lib/rclex/action_helpers.ex:29-32 | an action stamp can be sent iff the count is in range and not negative, or whole seconds |
| TimeSplit.TransformStamp.SetStamp | src/tf2_buffer.cpp:241-247 | the buffer fills in the duration's split of a count in range, and refuses any other before it writes |
| TimeSplit.Tf2SplitAgrees | src/tf2_buffer.cpp:241-247 | tf2 takes a count iff its split has seconds a message can hold, and there all three splits agree |
| TimeSplit.Tf2RoundTrip | src/tf2_buffer.cpp:349-356 | tf2 joins exactly the stamps it splits counts into, gives the count back, and stays clear of the 64-bit limit |

## Left out

- Failures of native calls in the action server other than a refused goal event (a client gone while a result is sent, a full middleware): they raise and end the run.
- What remains after a raised error, including the state the rescued cancel request would go on with.
- The order of entries in a status message: the message is a map from goal to status.
- Message types of the action server: it reads result requests with the goal request's type (`lib/rclex/action_server.ex:519`); requests are headers and uuids here.
- Notifications of zero events: the handlers have no clause for them.
- Feedback of the action server is passed on unchecked, as the code does; only that it changes nothing else is shown.
- User callbacks and their tasks, beyond what they hand back.
- GenServer.call's own timeout, registration by name, supervision, logging and process links.
- Clients: one native client never issues a sequence number twice; losing requests in the network is covered, since any response may be missing, repeated or unknown.
- The service client's `service_server_available` call and its message callbacks.
- Codec.Message.Set: takes only terms whose tuples have at least as many fields as the schema, because the C code reads them without looking at the arity.
- Codec: improper lists, allocation failures, binaries of 4 GiB and more, sequence capacities, and the memory of replaced sequences. Narrowing to a float is an arbitrary function, not IEEE rounding.
- The other generated messages: the schema has a constructor for each kind of field code the generator emits (primitives, strings, bounded strings, byte fields, fixed arrays, sequences, structs), but only four message types are written out as schemas. Fixed arrays have at least one cell.
- Waiter: the two threads are one state machine rather than a loop in place, since their interleaving is the point; a second stop call of the same thread is not modelled, nor the start call's failure paths.
- RosArgs.Heap.ParseRosArgs: the branch for a list cell that cannot be read is not there, because the list's length was taken before; lists of 2^31 elements and more are not modelled.
- Native memory that rcl itself allocates while parsing arguments.
- Introspection: a failing finalization of a clock, and a process killed without termination.
- Clock: a tf2 buffer destroyed while it is still registered; steady and system clocks beyond refusing an override.
- Qos.ElixirRoundTrip: claims nothing of durations outside [0, 2^64) seconds, because converting them to an unsigned integer is undefined in C; there an arbitrary function stands for it. Rounding of doubles is not modelled, durations are exact.
- The lookup, interpolation and geometry of tf2, and the other fields of the messages its functions fill in, are not part of this model.
- Conversions from and to floating-point seconds, and scaling of durations, which round.
- Thin wrappers around native calls, graph queries, publishers, subscriptions, timers, parameters, code generation and livebooks: they would add only simple statements.

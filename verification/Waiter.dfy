/**
 The graph guard waiter: a native thread that waits on a node's graph condition and on an exit condition,
 and the call that stops it. The two threads, and the graph that triggers its condition when it likes, are
 one state machine whose steps interleave freely. Guard conditions latch: a trigger is kept until a wait
 takes it. A wait takes every condition that is triggered at one moment and returns some time later, so a
 trigger may fall in between and be left for the next wait.
 */
module Waiter {
  /** Where the waiter thread is; Waking, Woke and Noted hold what the last wait took. */
  datatype Pc =
    | Begin
    | Top
    | AddEvent
    | AddExit
    | Waiting
    | Waking(event: bool, exit: bool)
    | Woke(event: bool, exit: bool)
    | Noted(event: bool)
    | FiniWaitSet
    | FreeEnv
    | Returned

  /** Where the call that stops the thread is. */
  datatype Stop = Idle | Joining | Joined | OptsDestroyed | Done(ok: bool) | JoinFailed

  /**
   gotExit is the loop variable; the flags are the latched triggers. The counters say what happened: graph
   events that waits took, those lost with a wait that failed, events and errors sent to the owner, and the
   waits begun and the waits returned from after the stop call's trigger. misused records a use of the exit
   condition after it was finalized.
   */
  datatype State = State(
    pc: Pc,
    gotExit: bool,
    eventFlag: bool,
    exitFlag: bool,
    stop: Stop,
    exitLive: bool,
    envLive: bool,
    waitSetLive: bool,
    taken: nat,
    lost: nat,
    sent: nat,
    errors: nat,
    begunAfterStop: nat,
    returnsAfterStop: nat,
    misused: bool)

  const Init: State := State(Begin, false, false, false, Idle, true, true, false, 0, 0, 0, 0, 0, 0, false)

  datatype WaitResult = Ready | Timeout | Error

  datatype Action =
    // the waiter thread
    | InitWaitSet(ok: bool)
    | Loop
    | AddEventCondition(ok: bool)
    | AddExitCondition(ok: bool)
    | WaitTakes
    | WaitReturns(result: WaitResult)
    | NoteExit
    | SendEvent
    | FiniSet(ok: bool)
    | Free
    // the stop call
    | Trigger(ok: bool)
    | Join(ok: bool)
    | DestroyOpts
    | FiniExit(ok: bool)
    // the graph
    | GraphChange

  predicate OfWaiter(a: Action) {
    match a
    case Trigger(_) | Join(_) | DestroyOpts | FiniExit(_) | GraphChange => false
    case _ => true
  }

  /**
   A wait that took no condition can only time out or fail, and one that took some does not time out. With
   nothing triggered a wait is held up, for ten seconds at most, before it takes nothing.
   */
  predicate Enabled(s: State, a: Action) {
    match a
    case InitWaitSet(_) => s.pc == Begin
    case Loop => s.pc == Top
    case AddEventCondition(_) => s.pc == AddEvent
    case AddExitCondition(_) => s.pc == AddExit
    case WaitTakes => s.pc == Waiting
    case WaitReturns(result) =>
      && s.pc.Waking?
      && (result == Ready ==> s.pc.event || s.pc.exit)
      && (result == Timeout ==> !s.pc.event && !s.pc.exit)
    case NoteExit => s.pc.Woke?
    case SendEvent => s.pc.Noted?
    case FiniSet(_) => s.pc == FiniWaitSet
    case Free => s.pc == FreeEnv
    case Trigger(_) => s.stop == Idle
    case Join(ok) => s.stop == Joining && (ok ==> s.pc == Returned)
    case DestroyOpts => s.stop == Joined
    case FiniExit(_) => s.stop == OptsDestroyed
    case GraphChange => true
  }

  function Step(s: State, a: Action): State {
    match a
    case InitWaitSet(ok) =>
      if ok then s.(pc := Top, waitSetLive := true) else s.(pc := Returned, envLive := false, errors := s.errors + 1)
    case Loop => s.(pc := if s.gotExit then FiniWaitSet else AddEvent)
    case AddEventCondition(ok) =>
      if ok then s.(pc := AddExit) else s.(pc := FiniWaitSet, errors := s.errors + 1)
    case AddExitCondition(ok) =>
      var used := s.(misused := s.misused || !s.exitLive);
      if ok then used.(pc := Waiting, begunAfterStop := s.begunAfterStop + if s.stop != Idle then 1 else 0)
      else used.(pc := FiniWaitSet, errors := s.errors + 1)
    case WaitTakes =>
      s.(pc := Waking(s.eventFlag, s.exitFlag), eventFlag := false, exitFlag := false,
         taken := s.taken + if s.eventFlag then 1 else 0, misused := s.misused || !s.exitLive)
    case WaitReturns(result) =>
      if !s.pc.Waking? then s
      else
        var back := s.(returnsAfterStop := s.returnsAfterStop + if s.stop != Idle then 1 else 0,
                       misused := s.misused || !s.exitLive);
        (match result
         case Ready => back.(pc := Woke(s.pc.event, s.pc.exit))
         case Timeout => back.(pc := Top)
         case Error =>
           back.(pc := FiniWaitSet, errors := s.errors + 1, lost := s.lost + if s.pc.event then 1 else 0))
    case NoteExit =>
      if s.pc.Woke? then s.(pc := Noted(s.pc.event), gotExit := s.gotExit || s.pc.exit) else s
    case SendEvent =>
      if s.pc.Noted? then s.(pc := Top, sent := s.sent + if s.pc.event then 1 else 0) else s
    case FiniSet(ok) => s.(pc := FreeEnv, waitSetLive := !ok, errors := s.errors + if ok then 0 else 1)
    case Free => s.(pc := Returned, envLive := false)
    case Trigger(ok) => if ok then s.(exitFlag := true, stop := Joining) else s
    case Join(ok) => s.(stop := if ok then Joined else JoinFailed)
    case DestroyOpts => s.(stop := OptsDestroyed)
    case FiniExit(ok) => s.(stop := Done(ok), exitLive := !ok)
    case GraphChange => s.(eventFlag := true)
  }

  // ---------- the invariant ----------

  predicate Ending(s: State) {
    s.pc in {FiniWaitSet, FreeEnv, Returned}
  }

  predicate HasExit(pc: Pc) {
    match pc
    case Waking(_, exit) => exit
    case Woke(_, exit) => exit
    case _ => false
  }

  /** The exit signal is latched, or the thread has it in hand, or it is past the loop. */
  predicate ExitOnItsWay(s: State) {
    s.exitFlag || HasExit(s.pc) || s.gotExit || Ending(s)
  }

  /** While a wait is on, it is the one in progress at the trigger, or the one begun since. */
  predicate StopCounts(s: State) {
    && s.begunAfterStop <= 1 && s.returnsAfterStop <= s.begunAfterStop + 1
    && (s.pc == Waiting || s.pc.Waking? ==> s.returnsAfterStop <= s.begunAfterStop)
    && (s.exitFlag && !Ending(s) ==> (s.begunAfterStop == 1 ==> s.pc == Waiting))
    && (s.stop == Idle ==> s.begunAfterStop == 0 && s.returnsAfterStop == 0)
  }

  /** Events taken by a wait and not sent yet: none, or the one in hand. */
  function InHand(s: State): nat {
    match s.pc
    case Waking(event, _) => if event then 1 else 0
    case Woke(event, _) => if event then 1 else 0
    case Noted(event) => if event then 1 else 0
    case _ => 0
  }

  predicate Inv(s: State) {
    && !s.misused && StopCounts(s)
    && (s.stop != Idle ==> ExitOnItsWay(s))
    && (s.stop == Idle ==> !s.exitFlag && !s.gotExit && !HasExit(s.pc))
    && (s.gotExit ==> s.pc == Top || s.pc.Noted? || Ending(s))
    && (s.stop in {Joined, OptsDestroyed} || s.stop.Done? ==> s.pc == Returned)
    && (!s.exitLive ==> s.stop.Done?)
    && s.sent + InHand(s) + s.lost == s.taken && s.lost <= s.errors
    && (s.lost > 0 ==> Ending(s))
    && (Ending(s) ==> s.gotExit || s.errors > 0)
    && (s.envLive <==> s.pc != Returned)
    && (s.waitSetLive && s.pc in {FreeEnv, Returned} ==> s.errors > 0)
    && (!s.waitSetLive ==> s.pc in {Begin, FreeEnv, Returned})
  }

  lemma InitHolds()
    ensures Inv(Init)
  {
  }

  lemma PrepareKeeps(s: State, a: Action)
    requires Inv(s) && Enabled(s, a) && (a.InitWaitSet? || a.Loop? || a.AddEventCondition? || a.AddExitCondition?)
    ensures Inv(Step(s, a))
  {
  }

  lemma TakeKeeps(s: State)
    requires Inv(s) && Enabled(s, WaitTakes)
    ensures Inv(Step(s, WaitTakes))
  {
  }

  lemma WaitKeeps(s: State, result: WaitResult)
    requires Inv(s) && Enabled(s, WaitReturns(result))
    ensures Inv(Step(s, WaitReturns(result)))
  {
  }

  lemma WakeKeeps(s: State, a: Action)
    requires Inv(s) && Enabled(s, a) && (a.NoteExit? || a.SendEvent?)
    ensures Inv(Step(s, a))
  {
  }

  lemma EndKeeps(s: State, a: Action)
    requires Inv(s) && Enabled(s, a) && (a.FiniSet? || a.Free? || a.GraphChange?)
    ensures Inv(Step(s, a))
  {
  }

  lemma StopKeeps(s: State, a: Action)
    requires Inv(s) && Enabled(s, a) && (a.Trigger? || a.Join? || a.DestroyOpts? || a.FiniExit?)
    ensures Inv(Step(s, a))
  {
  }

  lemma StepKeeps(s: State, a: Action)
    requires Inv(s) && Enabled(s, a)
    ensures Inv(Step(s, a))
  {
    match a
    case InitWaitSet(_) | Loop | AddEventCondition(_) | AddExitCondition(_) => PrepareKeeps(s, a);
    case WaitTakes => TakeKeeps(s);
    case WaitReturns(result) => WaitKeeps(s, result);
    case NoteExit | SendEvent => WakeKeeps(s, a);
    case FiniSet(_) | Free | GraphChange => EndKeeps(s, a);
    case Trigger(_) | Join(_) | DestroyOpts | FiniExit(_) => StopKeeps(s, a);
  }

  // ---------- the stop ends the thread ----------

  /** How many steps of its own the thread has left, once the exit signal is on its way. */
  function Rank(s: State): nat {
    match s.pc
    case Returned => 0
    case FreeEnv => 1
    case FiniWaitSet => 2
    case Top => if s.gotExit then 3 else 10
    case Noted(_) => if s.gotExit then 4 else 11
    case Woke(_, exit) => if exit || s.gotExit then 5 else 12
    case Waking(_, exit) => if exit then 6 else 13
    case Waiting => 7
    case AddExit => 8
    case AddEvent => 9
    case Begin => 11
  }

  const MAX_STEPS := 13

  /** Once stopped, each step of the thread lowers its rank, and no step of anyone else raises it. */
  lemma StopDescends(s: State, a: Action)
    requires Inv(s) && Enabled(s, a) && s.stop != Idle
    ensures Rank(Step(s, a)) + (if OfWaiter(a) then 1 else 0) <= Rank(s)
    ensures Step(s, a).stop != Idle
  {
  }

  /** The step the thread takes next; a wait that is to be ready finds its condition triggered. */
  function NextOfWaiter(s: State): Action {
    match s.pc
    case Begin => InitWaitSet(true)
    case Top => Loop
    case AddEvent => AddEventCondition(true)
    case AddExit => AddExitCondition(true)
    case Waiting => WaitTakes
    case Waking(event, exit) => WaitReturns(if event || exit then Ready else Timeout)
    case Woke(_, _) => NoteExit
    case Noted(_) => SendEvent
    case FiniWaitSet => FiniSet(true)
    case FreeEnv => Free
    case Returned => GraphChange
  }

  // ---------- every interleaving ----------

  predicate StepAt(states: seq<State>, actions: seq<Action>, i: nat)
    requires i < |actions| && |states| == |actions| + 1
  {
    Enabled(states[i], actions[i]) && states[i + 1] == Step(states[i], actions[i])
  }

  ghost predicate Run(states: seq<State>, actions: seq<Action>) {
    && |states| == |actions| + 1 && states[0] == Init
    && forall i | 0 <= i < |actions| :: StepAt(states, actions, i)
  }

  lemma {:induction false} RunKeeps(states: seq<State>, actions: seq<Action>, i: nat)
    requires Run(states, actions) && i <= |actions|
    ensures Inv(states[i])
  {
    if i == 0 {
      InitHolds();
    } else {
      RunKeeps(states, actions, i - 1);
      NextKeeps(states, actions, i);
    }
  }

  lemma NextKeeps(states: seq<State>, actions: seq<Action>, i: nat)
    requires Run(states, actions) && 0 < i <= |actions| && Inv(states[i - 1])
    ensures Inv(states[i])
  {
    assert StepAt(states, actions, i - 1);
    StepKeeps(states[i - 1], actions[i - 1]);
  }

  /** The thread's own steps in actions i to j - 1. */
  function WaiterSteps(actions: seq<Action>, i: nat, j: nat): nat
    requires i <= j <= |actions|
  {
    if i == j then 0 else WaiterSteps(actions, i, j - 1) + if OfWaiter(actions[j - 1]) then 1 else 0
  }

  lemma {:induction false} StopBounds(states: seq<State>, actions: seq<Action>, i: nat, j: nat)
    requires Run(states, actions) && i <= j <= |actions| && states[i].stop != Idle
    ensures Rank(states[j]) + WaiterSteps(actions, i, j) <= Rank(states[i])
    ensures states[j].stop != Idle
  {
    if i < j {
      StopBounds(states, actions, i, j - 1);
      RunKeeps(states, actions, j - 1);
      assert StepAt(states, actions, j - 1);
      StopDescends(states[j - 1], actions[j - 1]);
    }
  }

  /** The trigger came before the wait in progress took its conditions: it, or the next wait, has the exit. */
  predicate OneReturn(s: State) {
    && s.stop != Idle && s.returnsAfterStop <= 1
    && (s.pc.Waking? ==> s.pc.exit && s.returnsAfterStop == 0)
    && (s.returnsAfterStop == 1 ==> s.gotExit || HasExit(s.pc) || Ending(s))
  }

  lemma OneReturnStays(s: State, a: Action)
    requires Inv(s) && Enabled(s, a) && OneReturn(s)
    ensures OneReturn(Step(s, a))
  {
    StepKeeps(s, a);
  }

  /** If the trigger does not fall between a wait's taking its conditions and its return, only one wait returns. */
  lemma {:induction false} OnlyOneReturn(states: seq<State>, actions: seq<Action>, i: nat, j: nat)
    requires Run(states, actions) && i < j <= |actions| && actions[i] == Trigger(true) && !states[i].pc.Waking?
    ensures OneReturn(states[j])
  {
    RunKeeps(states, actions, j - 1);
    assert StepAt(states, actions, j - 1);
    if i + 1 < j {
      OnlyOneReturn(states, actions, i, j - 1);
      OneReturnStays(states[j - 1], actions[j - 1]);
    }
  }

  /**
   From the trigger on, however the two threads and the graph interleave, the loop ends with the wait in
   progress or the next one: at most one more wait begins, and only after a wait that had taken its
   conditions before the trigger do two return. The thread takes at most thirteen steps of its own, and until
   it has returned it is never blocked, a wait in particular finding the exit triggered, so the join that
   waits for it comes to an end.
   */
  lemma StopEndsTheThread(states: seq<State>, actions: seq<Action>, i: nat, j: nat)
    requires Run(states, actions) && i <= j <= |actions| && states[i].stop != Idle
    ensures states[j].begunAfterStop <= 1 && states[j].returnsAfterStop <= states[j].begunAfterStop + 1
    ensures forall k | 0 <= k < j && actions[k] == Trigger(true) && !states[k].pc.Waking? ::
              states[j].returnsAfterStop <= 1
    ensures WaiterSteps(actions, i, j) <= MAX_STEPS
    ensures states[j].pc == Waiting ==> states[j].exitFlag
    ensures states[j].pc != Returned ==>
              OfWaiter(NextOfWaiter(states[j])) && Enabled(states[j], NextOfWaiter(states[j]))
    ensures states[j].pc == Returned && states[j].stop == Joining ==> Enabled(states[j], Join(true))
  {
    StopBounds(states, actions, i, j);
    RunKeeps(states, actions, j);
    forall k | 0 <= k < j && actions[k] == Trigger(true) && !states[k].pc.Waking?
      ensures states[j].returnsAfterStop <= 1
    {
      OnlyOneReturn(states, actions, k, j);
    }
  }

  predicate EventsLatched(s: State, a: Action) {
    && Step(s, a).eventFlag == (a.GraphChange? || (s.eventFlag && !a.WaitTakes?))
    && Step(s, a).taken == s.taken + if a.WaitTakes? && s.eventFlag then 1 else 0
  }

  lemma PrepareLatches(s: State, a: Action)
    requires Enabled(s, a) && (a.InitWaitSet? || a.Loop? || a.AddEventCondition? || a.AddExitCondition?)
    ensures EventsLatched(s, a)
  {
  }

  lemma WaitLatches(s: State, a: Action)
    requires Enabled(s, a) && (a.WaitTakes? || a.WaitReturns?)
    ensures EventsLatched(s, a)
  {
  }

  lemma WakeLatches(s: State, a: Action)
    requires Enabled(s, a) && (a.NoteExit? || a.SendEvent?)
    ensures EventsLatched(s, a)
  {
  }

  lemma EndLatches(s: State, a: Action)
    requires Enabled(s, a) && (a.FiniSet? || a.Free? || a.GraphChange?)
    ensures EventsLatched(s, a)
  {
  }

  lemma StopLatches(s: State, a: Action)
    requires Enabled(s, a) && (a.Trigger? || a.Join? || a.DestroyOpts? || a.FiniExit?)
    ensures EventsLatched(s, a)
  {
  }

  /** A graph change is kept until a wait takes it, and then counted as taken. */
  lemma EventsAreLatched(s: State, a: Action)
    requires Enabled(s, a)
    ensures Step(s, a).eventFlag == (a.GraphChange? || (s.eventFlag && !a.WaitTakes?))
    ensures Step(s, a).taken == s.taken + if a.WaitTakes? && s.eventFlag then 1 else 0
  {
    assert EventsLatched(s, a) by {
      match a
      case InitWaitSet(_) | Loop | AddEventCondition(_) | AddExitCondition(_) => PrepareLatches(s, a);
      case WaitTakes | WaitReturns(_) => WaitLatches(s, a);
      case NoteExit | SendEvent => WakeLatches(s, a);
      case FiniSet(_) | Free | GraphChange => EndLatches(s, a);
      case Trigger(_) | Join(_) | DestroyOpts | FiniExit(_) => StopLatches(s, a);
    }
  }

  /**
   Every graph event a wait took has been sent by the time the thread looks at its exit signal again, so one
   taken together with the exit is sent before the loop ends. Only a wait that fails loses the event it took,
   and then the thread has reported the error and is past its loop.
   */
  lemma EventsAreSent(states: seq<State>, actions: seq<Action>, i: nat)
    requires Run(states, actions) && i <= |actions|
    ensures states[i].pc == Top ==> states[i].sent == states[i].taken
    ensures Ending(states[i]) ==> states[i].sent + states[i].lost == states[i].taken
    ensures states[i].lost <= states[i].errors && (states[i].lost > 0 ==> Ending(states[i]))
    ensures states[i].sent + states[i].lost <= states[i].taken <= states[i].sent + states[i].lost + 1
  {
    RunKeeps(states, actions, i);
  }

  /** The exit condition is finalized only after the thread has returned, and never used after that. */
  lemma ExitConditionOutlivesThread(states: seq<State>, actions: seq<Action>, i: nat)
    requires Run(states, actions) && i <= |actions|
    ensures !states[i].exitLive ==> states[i].pc == Returned
    ensures !states[i].misused
  {
    RunKeeps(states, actions, i);
  }

  /** The thread never ends silently, nor with its environment or, unless it said so, its wait set. */
  lemma NoSilentEnd(states: seq<State>, actions: seq<Action>, i: nat)
    requires Run(states, actions) && i <= |actions| && states[i].pc == Returned
    ensures states[i].errors == 0 ==> states[i].gotExit && states[i].stop != Idle && !states[i].waitSetLive
    ensures !states[i].envLive
  {
    RunKeeps(states, actions, i);
  }
}

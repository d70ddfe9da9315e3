/**
 The goal life cycle of the ROS 2 design article "Actions", section "Goal States": the states a goal
 can be in and the five events the native server accepts.
 */
module GoalStates {
  import opened Wrappers

  /** The status codes 0..6 of action_msgs/msg/GoalStatus, in order. */
  datatype Status = Unknown | Accepted | Executing | Canceling | Succeeded | Canceled | Aborted

  datatype GoalEvent = Execute | CancelGoal | Succeed | Abort | CancelDone

  /** The transition table; None is an event the native server refuses in that state. */
  function Transition(s: Status, e: GoalEvent): Option<Status> {
    match (s, e)
    case (Accepted, Execute) => Some(Executing)
    case (Accepted, CancelGoal) => Some(Canceling)
    case (Executing, CancelGoal) => Some(Canceling)
    case (Executing, Succeed) => Some(Succeeded)
    case (Executing, Abort) => Some(Aborted)
    case (Canceling, Succeed) => Some(Succeeded)
    case (Canceling, Abort) => Some(Aborted)
    case (Canceling, CancelDone) => Some(Canceled)
    case _ => None
  }

  predicate Terminal(s: Status) {
    s == Succeeded || s == Canceled || s == Aborted
  }

  predicate Cancelable(s: Status) {
    Transition(s, CancelGoal).Some?
  }

  /** Follows a list of events, oldest first, from state s. */
  function Follow(s: Status, events: seq<GoalEvent>): Option<Status>
    decreases |events|
  {
    if events == [] then Some(s)
    else
      var before := Follow(s, events[..|events| - 1]);
      if before.None? then None else Transition(before.value, events[|events| - 1])
  }

  // ---------- the lives of a goal ----------

  function Without(events: seq<GoalEvent>, e: GoalEvent): seq<GoalEvent> {
    if events != [] && events[0] == e then events[1..] else events
  }

  /**
   Executed or not, then asked to cancel or not, then at most one end: success or failure once either has
   happened, cancelation only once asked for.
   */
  predicate IsLife(events: seq<GoalEvent>) {
    var waiting := Without(events, Execute);
    var end := Without(waiting, CancelGoal);
    || end == []
    || (end == [CancelDone] && end != waiting)
    || ((end == [Succeed] || end == [Abort]) && end != events)
  }

  function StepsLeft(s: Status): nat {
    match s
    case Accepted => 3
    case Executing => 2
    case Canceling => 1
    case _ => 0
  }

  lemma {:induction false} EventsAreFew(events: seq<GoalEvent>)
    ensures var s := Follow(Accepted, events); s.Some? ==> |events| + StepsLeft(s.value) <= 3
  {
    if events != [] {
      EventsAreFew(events[..|events| - 1]);
    }
  }

  /** The events a goal can have from its acceptance on are exactly the lives. */
  lemma PathsAreLives(events: seq<GoalEvent>)
    ensures Follow(Accepted, events).Some? <==> IsLife(events)
  {
    EventsAreFew(events);
    if |events| == 1 {
      assert events[..0] == [];
    } else if |events| == 2 {
      assert events[..1][..0] == [];
    } else if |events| == 3 {
      assert events[..2][..1] == [events[0]] && events[..2][..1][..0] == [];
    }
  }
}

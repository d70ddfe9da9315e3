/**
 What each message of the action client does, told from the message and the state it finds: which callbacks
 run, with what, which requests stay pending, which timers stay armed. None of the statements mentions a
 handler other than Step.
 */
module ActionClientEffects {
  import opened Wrappers
  import opened ActionClient

  /** The log with more entries, oldest first. */
  function Append(log: Log, events: seq<Event>): Log {
    if events == [] then log else After(Append(log, events[..|events| - 1]), events[|events| - 1])
  }

  lemma AppendSnoc(log: Log, events: seq<Event>, e: Event)
    ensures Append(log, events + [e]) == After(Append(log, events), e)
  {
    assert (events + [e])[..|events|] == events;
  }

  // ---------- a request is sent ----------

  /** A request goes out under the next number of its kind, is pending with what it came with, and has a timer. */
  lemma SendEffect(s: State, k: Kind, uuid: Uuid, callback: Callback, feedback: Callback)
    requires Inv(s)
    ensures var (t, number) := (Step(s, Send(k, uuid, callback, feedback)), s.next.At(k));
            var entry := Entry(uuid, callback, feedback, s.nextTimer);
            && number !in s.tables.At(k)
            && t.tables.At(k) == s.tables.At(k)[number := entry]
            && t.next.At(k) == number + 1
            && (forall j | j != k :: t.tables.At(j) == s.tables.At(j) && t.next.At(j) == s.next.At(j))
            && s.nextTimer !in s.timers && t.timers == s.timers[s.nextTimer := (k, number)]
            && t.nextTimer == s.nextTimer + 1
            && t.goals == s.goals && t.mailbox == s.mailbox
            && t.log == After(s.log, Sent(k, number, entry))
  {
    assert Partition(s, (k, s.next.At(k)));
    forall timer | timer in s.timers ensures timer < s.nextTimer {
      assert Armed(s, timer);
    }
  }

  // ---------- responses ----------

  predicate Names(take: Take, number: nat) {
    take.Response? && take.number == number
  }

  predicate Named(takes: seq<Take>, n: nat, number: nat)
    requires n <= |takes|
  {
    exists i: nat :: i < n && Names(takes[i], number)
  }

  /** Response i is the first of its notification to a request that was pending before. */
  predicate Settles(table: Table, takes: seq<Take>, i: nat)
    requires i < |takes|
  {
    takes[i].Response? && takes[i].number in table && !Named(takes, i, takes[i].number)
  }

  /** The callbacks run: for each request settled its own, with the answer taken first. */
  function Calls(k: Kind, table: Table, takes: seq<Take>, n: nat): seq<Event>
    requires n <= |takes|
  {
    if n == 0 then []
    else
      Calls(k, table, takes, n - 1)
      + if Settles(table, takes, n - 1) then
          var take := takes[n - 1];
          [Called(k, take.number, table[take.number].callback, Replied(take.accepted, take.payload))]
        else []
  }

  /** The feedback routes: an acceptance of a goal request adds the route of its uuid. */
  function Routes(k: Kind, goals: map<Uuid, Callback>, table: Table, takes: seq<Take>, n: nat): map<Uuid, Callback>
    requires n <= |takes|
  {
    if n == 0 then goals
    else
      var before := Routes(k, goals, table, takes, n - 1);
      if k == Goal && Settles(table, takes, n - 1) && takes[n - 1].accepted then
        before[table[takes[n - 1].number].uuid := table[takes[n - 1].number].feedback]
      else before
  }

  predicate Disarmed(table: Table, takes: seq<Take>, n: nat, timer: nat)
    requires n <= |takes|
  {
    exists i: nat :: i < n && Settles(table, takes, i) && table[takes[i].number].timer == timer
  }

  /** A request is pending still unless a response names it. */
  ghost predicate PendingStill(s: State, t: State, k: Kind, takes: seq<Take>, n: nat, number: nat)
    requires n <= |takes|
  {
    && (number in t.tables.At(k) <==> number in s.tables.At(k) && !Named(takes, n, number))
    && (number in t.tables.At(k) ==> t.tables.At(k)[number] == s.tables.At(k)[number])
  }

  /** A timer is armed still unless its request was settled. */
  ghost predicate ArmedStill(s: State, t: State, k: Kind, takes: seq<Take>, n: nat, timer: nat)
    requires n <= |takes|
  {
    && (timer in t.timers <==> timer in s.timers && !Disarmed(s.tables.At(k), takes, n, timer))
    && (timer in t.timers ==> t.timers[timer] == s.timers[timer])
  }

  /** t is s after the first n responses of a notification. */
  ghost predicate ResponsesHandled(s: State, t: State, k: Kind, takes: seq<Take>, n: nat)
    requires n <= |takes|
  {
    && t.log == Append(s.log, Calls(k, s.tables.At(k), takes, n))
    && t.goals == Routes(k, s.goals, s.tables.At(k), takes, n)
    && t.next == s.next && t.nextTimer == s.nextTimer && t.mailbox == s.mailbox
    && (forall j | j != k :: t.tables.At(j) == s.tables.At(j))
    && (forall number :: PendingStill(s, t, k, takes, n, number))
    && (forall timer :: ArmedStill(s, t, k, takes, n, timer))
  }

  /** t is mid with one more response handled; settled says whether its request is pending in mid. */
  ghost predicate OneResponse(mid: State, t: State, k: Kind, take: Take, settled: bool) {
    && t.next == mid.next && t.nextTimer == mid.nextTimer && t.mailbox == mid.mailbox
    && (forall j | j != k :: t.tables.At(j) == mid.tables.At(j))
    && if !settled then
         t.log == mid.log && t.goals == mid.goals && t.timers == mid.timers && t.tables.At(k) == mid.tables.At(k)
       else
         && take.Response? && take.number in mid.tables.At(k)
         && var entry := mid.tables.At(k)[take.number];
            && t.tables.At(k) == mid.tables.At(k) - {take.number} && t.timers == mid.timers - {entry.timer}
            && t.goals == (if k == Goal && take.accepted then mid.goals[entry.uuid := entry.feedback] else mid.goals)
            && t.log == After(mid.log,
                              Called(k, take.number, entry.callback, Replied(take.accepted, take.payload)))
  }

  lemma OneResponseShape(mid: State, k: Kind, take: Take)
    ensures OneResponse(mid, HandleResponse(mid, k, take), k, take, take.Response? && take.number in mid.tables.At(k))
  {
  }

  lemma NextSettles(s: State, mid: State, k: Kind, takes: seq<Take>, n: nat)
    requires n < |takes| && forall number :: PendingStill(s, mid, k, takes, n, number)
    ensures takes[n].Response? && takes[n].number in mid.tables.At(k) <==> Settles(s.tables.At(k), takes, n)
  {
    if takes[n].Response? {
      assert PendingStill(s, mid, k, takes, n, takes[n].number);
    }
  }

  lemma PendingNext(s: State, mid: State, t: State, k: Kind, takes: seq<Take>, n: nat, next: nat, number: nat)
    requires n < |takes| && next == n + 1 && PendingStill(s, mid, k, takes, n, number)
    requires OneResponse(mid, t, k, takes[n], takes[n].Response? && takes[n].number in mid.tables.At(k))
    ensures PendingStill(s, t, k, takes, next, number)
  {
    assert Named(takes, next, number) <==> Named(takes, n, number) || Names(takes[n], number) by {
      if Named(takes, n, number) {
        var i: nat :| i < n && Names(takes[i], number);
        assert i < next;
      }
    }
  }

  lemma ArmedNext(s: State, mid: State, t: State, k: Kind, takes: seq<Take>, n: nat, next: nat, timer: nat)
    requires n < |takes| && next == n + 1 && ArmedStill(s, mid, k, takes, n, timer)
    requires OneResponse(mid, t, k, takes[n], Settles(s.tables.At(k), takes, n))
    requires Settles(s.tables.At(k), takes, n) ==>
               mid.tables.At(k)[takes[n].number] == s.tables.At(k)[takes[n].number]
    ensures ArmedStill(s, t, k, takes, next, timer)
  {
    var table := s.tables.At(k);
    assert Disarmed(table, takes, next, timer) <==>
           Disarmed(table, takes, n, timer) || (Settles(table, takes, n) && table[takes[n].number].timer == timer) by {
      if Disarmed(table, takes, n, timer) {
        var i: nat :| i < n && Settles(table, takes, i) && table[takes[i].number].timer == timer;
        assert i < next;
      }
    }
  }

  lemma ResponsesHandledNext(s: State, mid: State, t: State, k: Kind, takes: seq<Take>, n: nat, next: nat)
    requires n < |takes| && next == n + 1 && ResponsesHandled(s, mid, k, takes, n)
    requires OneResponse(mid, t, k, takes[n], takes[n].Response? && takes[n].number in mid.tables.At(k))
    ensures ResponsesHandled(s, t, k, takes, next)
  {
    NextSettles(s, mid, k, takes, n);
    assert takes[n].Response? ==> PendingStill(s, mid, k, takes, n, takes[n].number);
    forall number ensures PendingStill(s, t, k, takes, next, number) {
      assert PendingStill(s, mid, k, takes, n, number);
      PendingNext(s, mid, t, k, takes, n, next, number);
    }
    forall timer ensures ArmedStill(s, t, k, takes, next, timer) {
      assert ArmedStill(s, mid, k, takes, n, timer);
      ArmedNext(s, mid, t, k, takes, n, next, timer);
    }
    var calls := Calls(k, s.tables.At(k), takes, n);
    if Settles(s.tables.At(k), takes, n) {
      AppendSnoc(s.log, calls, t.log.event);
    } else {
      assert calls + [] == calls;
    }
  }

  lemma {:induction false} ResponsesHandledUpTo(s: State, k: Kind, takes: seq<Take>, n: nat)
    requires n <= |takes|
    ensures ResponsesHandled(s, HandleResponses(s, k, takes[..n]), k, takes, n)
  {
    if n == 0 {
      assert takes[..0] == [];
    } else {
      ResponsesHandledUpTo(s, k, takes, n - 1);
      assert takes[..n][..n - 1] == takes[..n - 1];
      var mid := HandleResponses(s, k, takes[..n - 1]);
      OneResponseShape(mid, k, takes[n - 1]);
      ResponsesHandledNext(s, mid, HandleResponse(mid, k, takes[n - 1]), k, takes, n - 1, n);
    }
  }

  /**
   After a notification of responses none of the requests they name is pending. Each that was has had its
   callback run exactly once, with the answer and payload of the first response to it, and its timer is
   disarmed; an accepted goal has its feedback routed. Requests not named, other kinds and all other timers
   are as they were.
   */
  lemma ResponsesEffect(s: State, k: Kind, takes: seq<Take>)
    ensures ResponsesHandled(s, Step(s, NewResponses(k, takes)), k, takes, |takes|)
  {
    ResponsesHandledUpTo(s, k, takes, |takes|);
    assert takes[..|takes|] == takes;
  }

  // ---------- feedback ----------

  /** The feedback callbacks run: for each message of a routed uuid the callback it is routed to, with its payload. */
  function FeedbackCalls(goals: map<Uuid, Callback>, takes: seq<FeedbackTake>, n: nat): seq<Event>
    requires n <= |takes|
  {
    if n == 0 then []
    else
      FeedbackCalls(goals, takes, n - 1)
      + match takes[n - 1]
        case NoFeedback => []
        case Feedback(u, payload) => if u in goals then [Fed(u, goals[u], payload)] else []
  }

  lemma {:induction false} FeedbacksUpTo(s: State, takes: seq<FeedbackTake>, n: nat)
    requires n <= |takes|
    ensures HandleFeedbacks(s, takes[..n]) == s.(log := Append(s.log, FeedbackCalls(s.goals, takes, n)))
  {
    if n == 0 {
      assert takes[..0] == [];
    } else {
      FeedbacksUpTo(s, takes, n - 1);
      assert takes[..n][..n - 1] == takes[..n - 1];
      var before := FeedbackCalls(s.goals, takes, n - 1);
      assert before + [] == before;
      match takes[n - 1]
      case NoFeedback =>
      case Feedback(u, payload) =>
        if u in s.goals {
          AppendSnoc(s.log, before, Fed(u, s.goals[u], payload));
        }
    }
  }

  /** Feedback of a routed uuid reaches the callback it is routed to, each message once with its own payload. */
  lemma FeedbackEffect(s: State, takes: seq<FeedbackTake>)
    ensures Step(s, NewFeedback(takes)) == s.(log := Append(s.log, FeedbackCalls(s.goals, takes, |takes|)))
  {
    FeedbacksUpTo(s, takes, |takes|);
    assert takes[..|takes|] == takes;
  }

  // ---------- expiry ----------

  /** An armed timer that fires leaves its request's expiry message in the mailbox and is gone. */
  lemma TimerEffect(s: State, timer: nat)
    requires Enabled(s, TimerFires(timer))
    ensures Step(s, TimerFires(timer)) ==
            s.(timers := s.timers - {timer}, mailbox := s.mailbox + multiset{s.timers[timer]})
  {
  }

  /** An expiry message of a pending request takes it away and runs its callback with a timeout; else it is idle. */
  lemma ExpiryEffect(s: State, k: Kind, number: nat)
    requires Inv(s) && Enabled(s, ExpireRequest(k, number))
    ensures var t := Step(s, ExpireRequest(k, number));
            && t.mailbox == s.mailbox - multiset{(k, number)}
            && t.goals == s.goals && t.next == s.next && t.nextTimer == s.nextTimer && t.timers == s.timers
            && (forall j | j != k :: t.tables.At(j) == s.tables.At(j))
            && t.tables.At(k) == s.tables.At(k) - {number}
            && t.log == if number in s.tables.At(k) then
                          After(s.log, Called(k, number, s.tables.At(k)[number].callback, TimedOut))
                        else s.log
  {
    assert Watched(s, (k, number));
    ExpiryTables(s, k, number);
  }
}

/**
 The action client: three tables of pending requests keyed by the sequence numbers of three native
 service clients, a timer for each request, and the table that routes feedback. Its state is immutable
 maps threaded through the handlers, so a run is a sequence of steps. The mailbox and the timers belong
 to the runtime: a timer canceled too late has already left its message behind.
 */
module ActionClient {
  import opened Wrappers

  datatype Kind = Goal | Result | Cancel
  datatype Uuid = Uuid(id: nat)
  datatype Callback = Callback(id: nat)
  datatype Payload = Payload(id: nat)

  /** A pending request. Only goal requests have a feedback callback. */
  datatype Entry = Entry(uuid: Uuid, callback: Callback, feedback: Callback, timer: nat)

  type Table = map<nat, Entry>
  type Key = (Kind, nat)

  datatype PerKind<T> = PerKind(goal: T, result: T, cancel: T) {
    function At(k: Kind): T {
      match k
      case Goal => goal
      case Result => result
      case Cancel => cancel
    }

    function With(k: Kind, t: T): (r: PerKind<T>)
      ensures r.At(k) == t && forall j | j != k :: r.At(j) == this.At(j)
    {
      match k
      case Goal => this.(goal := t)
      case Result => this.(result := t)
      case Cancel => this.(cancel := t)
    }
  }

  datatype Answer = Replied(accepted: bool, payload: Payload) | TimedOut

  datatype Event =
    | Sent(kind: Kind, number: nat, entry: Entry)
    | Called(kind: Kind, number: nat, callback: Callback, answer: Answer)
    | Fed(uuid: Uuid, callback: Callback, payload: Payload)

  datatype Log = Start | After(log: Log, event: Event)

  /** timers are armed and not yet fired; mailbox holds the expiry messages not yet handled. */
  datatype State = State(
    tables: PerKind<Table>,
    goals: map<Uuid, Callback>,
    next: PerKind<nat>,
    timers: map<nat, Key>,
    nextTimer: nat,
    mailbox: multiset<Key>,
    log: Log)

  const Init: State := State(PerKind(map[], map[], map[]), map[], PerKind(1, 1, 1), map[], 0, multiset{}, Start)

  datatype Take = NoResponse | Response(number: nat, accepted: bool, payload: Payload)
  datatype FeedbackTake = NoFeedback | Feedback(uuid: Uuid, payload: Payload)

  datatype Message =
    | Send(kind: Kind, uuid: Uuid, callback: Callback, feedback: Callback)
    | NewResponses(kind: Kind, takes: seq<Take>)
    | NewFeedback(feedbacks: seq<FeedbackTake>)
    | TimerFires(timer: nat)
    | ExpireRequest(kind: Kind, number: nat)

  // ---------- the handlers ----------

  function HandleSend(s: State, k: Kind, uuid: Uuid, callback: Callback, feedback: Callback): State {
    var number := s.next.At(k);
    var entry := Entry(uuid, callback, feedback, s.nextTimer);
    var table := s.tables.At(k);
    s.(tables := s.tables.With(k, if number in table then table else table[number := entry]),
       next := s.next.With(k, number + 1),
       timers := s.timers[s.nextTimer := (k, number)],
       nextTimer := s.nextTimer + 1,
       log := After(s.log, Sent(k, number, entry)))
  }

  /** Pops the request and runs its callback; the timer goes if it has not fired yet. */
  function Settle(s: State, k: Kind, number: nat, answer: Answer): State {
    var table := s.tables.At(k);
    if number !in table then s
    else
      var entry := table[number];
      s.(tables := s.tables.With(k, table - {number}),
         timers := s.timers - {entry.timer},
         log := After(s.log, Called(k, number, entry.callback, answer)))
  }

  function HandleResponse(s: State, k: Kind, take: Take): State {
    if take.NoResponse? then s
    else
      var t := Settle(s, k, take.number, Replied(take.accepted, take.payload));
      if k == Goal && take.accepted && take.number in s.tables.goal then
        var entry := s.tables.goal[take.number];
        t.(goals := t.goals[entry.uuid := entry.feedback])
      else t
  }

  function HandleResponses(s: State, k: Kind, takes: seq<Take>): State {
    if takes == [] then s
    else HandleResponse(HandleResponses(s, k, takes[..|takes| - 1]), k, takes[|takes| - 1])
  }

  function HandleFeedback(s: State, take: FeedbackTake): State {
    if take.NoFeedback? || take.uuid !in s.goals then s
    else s.(log := After(s.log, Fed(take.uuid, s.goals[take.uuid], take.payload)))
  }

  function HandleFeedbacks(s: State, takes: seq<FeedbackTake>): State {
    if takes == [] then s
    else HandleFeedback(HandleFeedbacks(s, takes[..|takes| - 1]), takes[|takes| - 1])
  }

  function Step(s: State, m: Message): State {
    match m
    case Send(k, uuid, callback, feedback) => HandleSend(s, k, uuid, callback, feedback)
    case NewResponses(k, takes) => HandleResponses(s, k, takes)
    case NewFeedback(takes) => HandleFeedbacks(s, takes)
    case TimerFires(timer) =>
      if timer in s.timers then s.(timers := s.timers - {timer}, mailbox := s.mailbox + multiset{s.timers[timer]})
      else s
    case ExpireRequest(k, number) =>
      Settle(s.(mailbox := s.mailbox - multiset{(k, number)}), k, number, TimedOut)
  }

  predicate Enabled(s: State, m: Message) {
    match m
    case TimerFires(timer) => timer in s.timers
    case ExpireRequest(k, number) => (k, number) in s.mailbox
    case NewResponses(_, takes) => takes != []
    case NewFeedback(takes) => takes != []
    case Send(_, _, _, _) => true
  }

  // ---------- what the log says ----------

  function Requests(log: Log): multiset<Key> {
    match log
    case Start => multiset{}
    case After(before, e) => Requests(before) + if e.Sent? then multiset{(e.kind, e.number)} else multiset{}
  }

  function Replies(log: Log): multiset<Key> {
    match log
    case Start => multiset{}
    case After(before, e) =>
      Replies(before) + if e.Called? && e.answer.Replied? then multiset{(e.kind, e.number)} else multiset{}
  }

  function Timeouts(log: Log): multiset<Key> {
    match log
    case Start => multiset{}
    case After(before, e) =>
      Timeouts(before) + if e.Called? && e.answer.TimedOut? then multiset{(e.kind, e.number)} else multiset{}
  }

  /** The request sent under a number. */
  function Request(log: Log, key: Key): Option<Entry> {
    match log
    case Start => None
    case After(before, e) =>
      if e.Sent? && (e.kind, e.number) == key then Some(e.entry) else Request(before, key)
  }

  predicate IsAcceptance(before: Log, e: Event, u: Uuid) {
    && e.Called? && e.kind == Goal && e.answer.Replied? && e.answer.accepted
    && Request(before, (Goal, e.number)).Some? && Request(before, (Goal, e.number)).value.uuid == u
  }

  /** The feedback callback of the goal request whose acceptance of u was taken last. */
  function LastAccepted(log: Log, u: Uuid): Option<Callback> {
    match log
    case Start => None
    case After(before, e) =>
      if IsAcceptance(before, e, u) then Some(Request(before, (Goal, e.number)).value.feedback)
      else LastAccepted(before, u)
  }

  /** Every callback run was the right one, and was owed. */
  predicate LegalCall(before: Log, e: Event) {
    match e
    case Sent(k, number, _) => Request(before, (k, number)).None?
    case Called(k, number, callback, _) =>
      && Request(before, (k, number)).Some? && Request(before, (k, number)).value.callback == callback
      && (k, number) !in Replies(before) && (k, number) !in Timeouts(before)
    case Fed(u, callback, _) => LastAccepted(before, u) == Some(callback)
  }

  predicate LegalLog(log: Log) {
    log.After? ==> LegalLog(log.log) && LegalCall(log.log, log.event)
  }

  // ---------- the invariant ----------

  predicate Issued(s: State, key: Key) {
    1 <= key.1 < s.next.At(key.0)
  }

  predicate Pending(s: State, key: Key) {
    key.1 in s.tables.At(key.0)
  }

  function Count(b: bool): nat {
    if b then 1 else 0
  }

  /** Numbers issued are the disjoint union of pending, replied and timed out. */
  ghost predicate Partition(s: State, key: Key) {
    && Requests(s.log)[key] == Count(Issued(s, key))
    && Replies(s.log)[key] + Timeouts(s.log)[key] + Count(Pending(s, key)) == Count(Issued(s, key))
    && (Issued(s, key) <==> Request(s.log, key).Some?)
  }

  /** A pending request still has its timer or its expiry message, and never both. */
  ghost predicate Watched(s: State, key: Key) {
    && s.mailbox[key] <= 1
    && (key in s.mailbox ==> Issued(s, key))
    && (Pending(s, key) ==>
      var entry := s.tables.At(key.0)[key.1];
      && Request(s.log, key) == Some(entry)
      && entry.timer < s.nextTimer
      && (entry.timer in s.timers <==> key !in s.mailbox)
      && (entry.timer in s.timers ==> s.timers[entry.timer] == key))
  }

  /** An armed timer belongs to a pending request. */
  ghost predicate Armed(s: State, timer: nat)
    requires timer in s.timers
  {
    var key := s.timers[timer];
    timer < s.nextTimer && Pending(s, key) && s.tables.At(key.0)[key.1].timer == timer
  }

  ghost predicate Inv(s: State) {
    && LegalLog(s.log)
    && (forall k :: s.next.At(k) >= 1)
    && (forall key: Key :: Partition(s, key))
    && (forall key: Key :: Watched(s, key))
    && (forall timer | timer in s.timers :: Armed(s, timer))
    && (forall u :: LastAccepted(s.log, u) == if u in s.goals then Some(s.goals[u]) else None)
  }

  lemma InitHolds()
    ensures Inv(Init)
  {
  }

  /** t is s with a new request mine sent. */
  ghost predicate SentFrom(s: State, t: State, mine: Key, entry: Entry) {
    && mine.1 == s.next.At(mine.0) && entry.timer == s.nextTimer
    && !Pending(s, mine) && Pending(t, mine) && t.tables.At(mine.0)[mine.1] == entry
    && (forall key: Key | key != mine :: Pending(t, key) <==> Pending(s, key))
    && (forall key: Key | Pending(s, key) :: t.tables.At(key.0)[key.1] == s.tables.At(key.0)[key.1])
    && t.goals == s.goals && t.mailbox == s.mailbox
    && t.timers == s.timers[s.nextTimer := mine] && t.nextTimer == s.nextTimer + 1
    && t.next == s.next.With(mine.0, mine.1 + 1)
    && t.log == After(s.log, Sent(mine.0, mine.1, entry))
  }

  lemma SendPartition(s: State, t: State, mine: Key, entry: Entry)
    requires SentFrom(s, t, mine, entry) && s.next.At(mine.0) >= 1 && forall key: Key :: Partition(s, key)
    ensures forall key: Key :: Partition(t, key)
    ensures LegalCall(s.log, t.log.event)
  {
    assert Partition(s, mine);
    forall key: Key ensures Partition(t, key) {
      assert Partition(s, key);
    }
  }

  lemma SendWatched(s: State, t: State, mine: Key, entry: Entry)
    requires SentFrom(s, t, mine, entry) && forall key: Key :: Watched(s, key) && Partition(s, key)
    requires forall timer | timer in s.timers :: Armed(s, timer)
    ensures forall key: Key :: Watched(t, key)
    ensures forall timer | timer in t.timers :: Armed(t, timer)
  {
    forall key: Key ensures Watched(t, key) {
      assert Watched(s, key) && Partition(s, key);
    }
    forall timer | timer in t.timers ensures Armed(t, timer) {
      assert timer in s.timers ==> Armed(s, timer);
    }
  }

  lemma SendKeeps(s: State, k: Kind, uuid: Uuid, callback: Callback, feedback: Callback)
    requires Inv(s)
    ensures Inv(HandleSend(s, k, uuid, callback, feedback))
  {
    var t := HandleSend(s, k, uuid, callback, feedback);
    var (mine, entry) := ((k, s.next.At(k)), Entry(uuid, callback, feedback, s.nextTimer));
    assert Partition(s, mine);
    assert SentFrom(s, t, mine, entry);
    SendPartition(s, t, mine, entry);
    SendWatched(s, t, mine, entry);
  }

  /** t is s with the request mine settled by answer; goals may differ. */
  ghost predicate Settled(s: State, t: State, mine: Key, answer: Answer) {
    && Pending(s, mine)
    && var entry := s.tables.At(mine.0)[mine.1];
    && (forall key: Key :: Pending(t, key) <==> Pending(s, key) && key != mine)
    && (forall key: Key | Pending(t, key) :: t.tables.At(key.0)[key.1] == s.tables.At(key.0)[key.1])
    && t.timers == s.timers - {entry.timer}
    && t.mailbox == s.mailbox && t.next == s.next && t.nextTimer == s.nextTimer
    && t.log == After(s.log, Called(mine.0, mine.1, entry.callback, answer))
  }

  lemma SettleShape(s: State, k: Kind, number: nat, answer: Answer)
    requires number in s.tables.At(k)
    ensures Settled(s, Settle(s, k, number, answer), (k, number), answer)
  {
  }

  lemma SettledPartition(s: State, t: State, mine: Key, answer: Answer)
    requires Settled(s, t, mine, answer) && forall key: Key :: Partition(s, key)
    ensures forall key: Key :: Partition(t, key)
  {
    forall key: Key ensures Partition(t, key) {
      assert Partition(s, key);
    }
  }

  lemma SettledWatched(s: State, t: State, mine: Key, answer: Answer)
    requires Settled(s, t, mine, answer) && forall key: Key :: Watched(s, key)
    requires forall timer | timer in s.timers :: Armed(s, timer)
    ensures forall key: Key :: Watched(t, key)
    ensures forall timer | timer in t.timers :: Armed(t, timer)
  {
    forall key: Key ensures Watched(t, key) {
      assert Watched(s, key) && Watched(s, mine);
    }
    forall timer | timer in t.timers ensures Armed(t, timer) {
      assert Armed(s, timer);
    }
  }

  /** Settling an owed request keeps the invariant; an acceptance also becomes the uuid's feedback route. */
  lemma SettleKeeps(s: State, t: State, mine: Key, answer: Answer)
    requires Inv(s) && Settled(s, t, mine, answer)
    requires var entry := s.tables.At(mine.0)[mine.1];
             t.goals ==
             if mine.0 == Goal && answer.Replied? && answer.accepted then s.goals[entry.uuid := entry.feedback]
             else s.goals
    ensures Inv(t)
  {
    assert Partition(s, mine) && Watched(s, mine);
    SettledPartition(s, t, mine, answer);
    SettledWatched(s, t, mine, answer);
    assert LegalCall(s.log, t.log.event);
  }

  lemma ResponseKeeps(s: State, k: Kind, take: Take)
    requires Inv(s)
    ensures Inv(HandleResponse(s, k, take))
  {
    if take.Response? && take.number in s.tables.At(k) {
      var answer := Replied(take.accepted, take.payload);
      SettleShape(s, k, take.number, answer);
      SettleKeeps(s, HandleResponse(s, k, take), (k, take.number), answer);
    }
  }

  lemma {:induction false} ResponsesKeep(s: State, k: Kind, takes: seq<Take>)
    requires Inv(s)
    ensures Inv(HandleResponses(s, k, takes))
  {
    if takes != [] {
      ResponsesKeep(s, k, takes[..|takes| - 1]);
      ResponseKeeps(HandleResponses(s, k, takes[..|takes| - 1]), k, takes[|takes| - 1]);
    }
  }

  /** A feedback entry in the log says nothing about requests. */
  lemma FedKey(s: State, t: State, e: Event, key: Key)
    requires e.Fed? && t == s.(log := After(s.log, e)) && Partition(s, key) && Watched(s, key)
    ensures Partition(t, key) && Watched(t, key)
  {
  }

  lemma FedKeeps(s: State, e: Event)
    requires Inv(s) && e.Fed? && LegalCall(s.log, e)
    ensures Inv(s.(log := After(s.log, e)))
  {
    var t := s.(log := After(s.log, e));
    forall key: Key ensures Partition(t, key) && Watched(t, key) {
      FedKey(s, t, e, key);
    }
    forall timer | timer in t.timers ensures Armed(t, timer) {
      assert Armed(s, timer);
    }
    forall u ensures LastAccepted(t.log, u) == LastAccepted(s.log, u) {}
  }

  lemma FeedbackKeeps(s: State, take: FeedbackTake)
    requires Inv(s)
    ensures Inv(HandleFeedback(s, take))
  {
    if take.Feedback? && take.uuid in s.goals {
      assert LastAccepted(s.log, take.uuid) == Some(s.goals[take.uuid]);
      FedKeeps(s, Fed(take.uuid, s.goals[take.uuid], take.payload));
    }
  }

  lemma {:induction false} FeedbacksKeep(s: State, takes: seq<FeedbackTake>)
    requires Inv(s)
    ensures Inv(HandleFeedbacks(s, takes))
  {
    if takes != [] {
      FeedbacksKeep(s, takes[..|takes| - 1]);
      FeedbackKeeps(HandleFeedbacks(s, takes[..|takes| - 1]), takes[|takes| - 1]);
    }
  }

  /** t is s with an armed timer fired: its request's message is in the mailbox. */
  ghost predicate FiredFrom(s: State, t: State, timer: nat) {
    && timer in s.timers
    && t == s.(timers := s.timers - {timer}, mailbox := s.mailbox + multiset{s.timers[timer]})
  }

  lemma FireKey(s: State, t: State, timer: nat, key: Key)
    requires FiredFrom(s, t, timer) && Armed(s, timer) && Partition(s, key) && Watched(s, key)
    requires Watched(s, s.timers[timer]) && Partition(s, s.timers[timer])
    ensures Partition(t, key) && Watched(t, key)
  {
  }

  lemma FireKeeps(s: State, timer: nat)
    requires Inv(s) && timer in s.timers
    ensures Inv(Step(s, TimerFires(timer)))
  {
    var t := Step(s, TimerFires(timer));
    assert Armed(s, timer) && Watched(s, s.timers[timer]) && Partition(s, s.timers[timer]);
    forall key: Key ensures Partition(t, key) && Watched(t, key) {
      FireKey(s, t, timer, key);
    }
    forall other | other in t.timers ensures Armed(t, other) {
      assert Armed(s, other);
    }
  }

  /** The state once the expiry message of mine has been taken from the mailbox. */
  function Consumed(s: State, mine: Key): State {
    s.(mailbox := s.mailbox - multiset{mine})
  }

  lemma ExpireStale(s: State, mine: Key)
    requires Inv(s) && mine in s.mailbox && !Pending(s, mine)
    ensures Inv(Consumed(s, mine))
  {
    var t := Consumed(s, mine);
    forall key: Key ensures Partition(t, key) {
      assert Partition(s, key);
    }
    forall key: Key ensures Watched(t, key) {
      assert Watched(s, key);
    }
    forall timer | timer in t.timers ensures Armed(t, timer) {
      assert Armed(s, timer);
    }
  }

  lemma ExpirePending(s: State, t: State, mine: Key)
    requires Inv(s) && mine in s.mailbox && Settled(Consumed(s, mine), t, mine, TimedOut) && t.goals == s.goals
    ensures Inv(t)
  {
    assert Partition(s, mine) && Watched(s, mine);
    ExpirePartition(s, t, mine);
    ExpireWatched(s, t, mine);
    ExpireArmed(s, t, mine);
    assert LegalCall(s.log, t.log.event);
  }

  lemma ExpireKeeps(s: State, mine: Key)
    requires Inv(s) && mine in s.mailbox
    ensures Inv(Step(s, ExpireRequest(mine.0, mine.1)))
  {
    if Pending(s, mine) {
      SettleShape(Consumed(s, mine), mine.0, mine.1, TimedOut);
      ExpirePending(s, Step(s, ExpireRequest(mine.0, mine.1)), mine);
    } else {
      ExpireStale(s, mine);
    }
  }

  lemma ExpireKey(s: State, t: State, mine: Key, key: Key)
    requires Settled(Consumed(s, mine), t, mine, TimedOut) && Partition(s, key)
    ensures Partition(t, key)
  {
    assert Requests(t.log) == Requests(s.log) && Replies(t.log) == Replies(s.log);
    assert Timeouts(t.log) == Timeouts(s.log) + multiset{mine} && Request(t.log, key) == Request(s.log, key);
    assert Issued(t, key) <==> Issued(s, key);
  }

  lemma ExpirePartition(s: State, t: State, mine: Key)
    requires Settled(Consumed(s, mine), t, mine, TimedOut) && forall key: Key :: Partition(s, key)
    ensures forall key: Key :: Partition(t, key)
  {
    forall key: Key ensures Partition(t, key) {
      ExpireKey(s, t, mine, key);
    }
  }

  lemma ExpireWatched(s: State, t: State, mine: Key)
    requires Settled(Consumed(s, mine), t, mine, TimedOut) && mine in s.mailbox
    requires forall key: Key :: Watched(s, key)
    ensures forall key: Key :: Watched(t, key)
  {
    assert Watched(s, mine);
    forall key: Key ensures Watched(t, key) {
      assert Watched(s, key);
    }
  }

  lemma ExpireArmed(s: State, t: State, mine: Key)
    requires Settled(Consumed(s, mine), t, mine, TimedOut) && mine in s.mailbox && Watched(s, mine)
    requires forall timer | timer in s.timers :: Armed(s, timer)
    ensures forall timer | timer in t.timers :: Armed(t, timer)
  {
  }

  lemma StepKeeps(s: State, m: Message)
    requires Inv(s) && Enabled(s, m)
    ensures Inv(Step(s, m))
  {
    match m
    case Send(k, uuid, callback, feedback) => SendKeeps(s, k, uuid, callback, feedback);
    case NewResponses(k, takes) => ResponsesKeep(s, k, takes);
    case NewFeedback(takes) => FeedbacksKeep(s, takes);
    case TimerFires(timer) => FireKeeps(s, timer);
    case ExpireRequest(k, number) => ExpireKeeps(s, (k, number));
  }

  // ---------- every interleaving ----------

  predicate StepAt(states: seq<State>, msgs: seq<Message>, i: nat)
    requires i < |msgs| && |states| == |msgs| + 1
  {
    Enabled(states[i], msgs[i]) && states[i + 1] == Step(states[i], msgs[i])
  }

  ghost predicate Run(states: seq<State>, msgs: seq<Message>) {
    && |states| == |msgs| + 1 && states[0] == Init
    && forall i | 0 <= i < |msgs| :: StepAt(states, msgs, i)
  }

  lemma {:induction false} RunKeeps(states: seq<State>, msgs: seq<Message>, i: nat)
    requires Run(states, msgs) && i <= |msgs|
    ensures Inv(states[i])
  {
    if i > 0 {
      RunKeeps(states, msgs, i - 1);
      assert StepAt(states, msgs, i - 1);
      StepKeeps(states[i - 1], msgs[i - 1]);
    } else {
      InitHolds();
    }
  }

  /**
   Under every interleaving of responses, timers and expiry messages, the callback of a request runs at
   most once; it has run exactly when the request was sent and is no longer pending, and a pending
   request will still be expired.
   */
  lemma CallbacksOnce(states: seq<State>, msgs: seq<Message>, i: nat, key: Key)
    requires Run(states, msgs) && i <= |msgs|
    ensures var s := states[i];
            && Requests(s.log)[key] <= 1
            && Replies(s.log)[key] + Timeouts(s.log)[key] + Count(Pending(s, key)) == Requests(s.log)[key]
            && (Pending(s, key) ==> key in s.mailbox || s.tables.At(key.0)[key.1].timer in s.timers)
  {
    RunKeeps(states, msgs, i);
    assert Partition(states[i], key) && Watched(states[i], key);
  }

  ghost predicate Within(prefix: Log, log: Log) {
    prefix == log || (log.After? && Within(prefix, log.log))
  }

  lemma {:induction false} LegalWithin(prefix: Log, log: Log)
    requires LegalLog(log) && Within(prefix, log)
    ensures LegalLog(prefix)
  {
    if prefix != log {
      LegalWithin(prefix, log.log);
    }
  }

  /**
   Feedback for a uuid runs the callback given with the goal request whose acceptance of that uuid was
   taken last, while that request was pending; other callbacks run for the request they came with.
   */
  lemma CallbacksMatch(states: seq<State>, msgs: seq<Message>, i: nat, before: Log, e: Event)
    requires Run(states, msgs) && i <= |msgs| && Within(After(before, e), states[i].log)
    ensures e.Fed? ==> LastAccepted(before, e.uuid) == Some(e.callback)
    ensures e.Called? ==>
              && Request(before, (e.kind, e.number)).Some?
              && Request(before, (e.kind, e.number)).value.callback == e.callback
  {
    RunKeeps(states, msgs, i);
    LegalWithin(After(before, e), states[i].log);
  }

  /**
   An expiry message touches no table but its own kind's, and there no number but its own, although the
   numbers of the kinds overlap. If the response was taken first, the late message changes nothing at all.
   */
  lemma ExpiryIsLocal(s: State, k: Kind, number: nat)
    requires Inv(s) && (k, number) in s.mailbox
    ensures var t := Step(s, ExpireRequest(k, number));
            && t.goals == s.goals
            && (forall j | j != k :: t.tables.At(j) == s.tables.At(j))
            && t.tables.At(k) == s.tables.At(k) - {number}
            && (Replies(s.log)[(k, number)] > 0 ==> t == Consumed(s, (k, number)))
  {
    assert Partition(s, (k, number));
    ExpiryTables(s, k, number);
  }

  lemma ExpiryTables(s: State, k: Kind, number: nat)
    ensures var t := Step(s, ExpireRequest(k, number));
            && t.goals == s.goals
            && (forall j | j != k :: t.tables.At(j) == s.tables.At(j))
            && t.tables.At(k) == s.tables.At(k) - {number}
            && (number !in s.tables.At(k) ==> t == Consumed(s, (k, number)))
  {
    if number !in s.tables.At(k) {
      assert s.tables.At(k) - {number} == s.tables.At(k);
    }
  }
}

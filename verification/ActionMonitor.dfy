/**
 An observer of the action server's native calls. It knows nothing of the server's own goals map: it
 replays the log against the action protocol and says which calls were legal. It is the reference the
 server is proved against.
 */
module ActionMonitor {
  import opened Wrappers
  import opened GoalStates
  import opened ActionServerModel

  /**
   last is the last state each uuid was seen in, also after its handle was freed; open holds the result
   requests taken and not yet answered; answer is the response a goal's requests have been given so far.
   */
  datatype Monitor = Monitor(
    live: Live,
    nextGen: nat,
    last: map<Uuid, Status>,
    open: map<Uuid, multiset<Header>>,
    answer: map<Uuid, Response>)

  function Open(m: Monitor, u: Uuid): multiset<Header> {
    if u in m.open then m.open[u] else multiset{}
  }

  /** What a status message must say of a goal: its state, or "unknown" before its first event. */
  function Announced(s: Status): Status {
    if s == Accepted then Unknown else s
  }

  ghost predicate StatusesCurrent(live: Live, statuses: map<Uuid, GoalStatus>) {
    && statuses.Keys == live.Keys
    && forall u | u in statuses ::
      u in live && statuses[u].info.uuid == u && statuses[u].status == Announced(live[u].state)
  }

  ghost predicate AnswerLegal(m: Monitor, u: Uuid, r: Response) {
    if r.status == Unknown then u !in m.live && r.result == DefaultResult
    else
      && u in m.last && m.last[u] == r.status && Terminal(r.status)
      && (u in m.answer ==> m.answer[u] == r)
  }

  ghost predicate Legal(m: Monitor, e: Event) {
    match e
    case GoalAccepted(h) => h.uuid !in m.live && h.gen == m.nextGen
    case Transitioned(h, ev) => HandleIsLive(m.live, h) && Transition(m.live[h.uuid].state, ev).Some?
    case Published(statuses) => StatusesCurrent(m.live, statuses)
    case Expired(us) =>
      && |us| <= EXPIRE_LIMIT && us <= m.live.Keys
      && forall u | u in us :: Terminal(m.live[u].state)
    case SentResult(h, u, r) => h in Open(m, u) && AnswerLegal(m, u, r)
    case _ => true
  }

  ghost function Observe(m: Monitor, e: Event): Monitor {
    if !Legal(m, e) then m
    else
      match e
      case GoalAccepted(h) =>
        m.(live := m.live[h.uuid := NativeGoal(h.gen, Accepted)], nextGen := m.nextGen + 1,
           last := m.last[h.uuid := Accepted], answer := m.answer - {h.uuid})
      case Transitioned(h, ev) =>
        var t := Transition(m.live[h.uuid].state, ev).value;
        m.(live := m.live[h.uuid := NativeGoal(h.gen, t)], last := m.last[h.uuid := t])
      case Expired(us) => m.(live := m.live - us)
      case TookResult(h, u) => m.(open := m.open[u := Open(m, u) + multiset{h}])
      case SentResult(h, u, r) =>
        m.(open := m.open[u := Open(m, u) - multiset{h}],
           answer := if r.status == Unknown then m.answer else m.answer[u := r])
      case _ => m
  }

  ghost function Watch(log: Log): Monitor {
    match log
    case Start => Monitor(map[], 0, map[], map[], map[])
    case After(before, e) => Observe(Watch(before), e)
  }

  ghost predicate LegalLog(log: Log) {
    log.After? ==> LegalLog(log.log) && Legal(Watch(log.log), log.event)
  }

  // ---------- counting the requests of one uuid ----------

  ghost function Taken(log: Log, u: Uuid): multiset<Header> {
    match log
    case Start => multiset{}
    case After(before, e) =>
      Taken(before, u) + if e.TookResult? && e.uuid == u then multiset{e.header} else multiset{}
  }

  ghost function Answered(log: Log, u: Uuid): multiset<Header> {
    match log
    case Start => multiset{}
    case After(before, e) =>
      Answered(before, u) + if e.SentResult? && e.uuid == u then multiset{e.header} else multiset{}
  }

  lemma OpenAfter(m: Monitor, e: Event, u: Uuid)
    requires Legal(m, e)
    ensures Open(Observe(m, e), u) ==
            if e.TookResult? && e.uuid == u then Open(m, u) + multiset{e.header}
            else if e.SentResult? && e.uuid == u then Open(m, u) - multiset{e.header}
            else Open(m, u)
  {
  }

  /** A legal log answers nothing it did not take, and what is open is exactly what is still owed. */
  lemma {:induction false} Conserved(log: Log, u: Uuid)
    requires LegalLog(log)
    ensures Taken(log, u) == Answered(log, u) + Open(Watch(log), u)
  {
    if log.After? {
      Conserved(log.log, u);
      OpenAfter(Watch(log.log), log.event, u);
    }
  }

  // ---------- the history of one goal ----------

  ghost function EventsOf(log: Log, h: Handle): seq<GoalEvent> {
    match log
    case Start => []
    case After(before, e) =>
      if e.Transitioned? && e.handle == h then EventsOf(before, h) + [e.event] else EventsOf(before, h)
  }

  ghost predicate WasAccepted(log: Log, h: Handle) {
    log.After? && (log.event == GoalAccepted(h) || WasAccepted(log.log, h))
  }

  lemma {:induction false} FreshHandle(log: Log, h: Handle)
    requires LegalLog(log)
    requires Watch(log).nextGen <= h.gen
    ensures EventsOf(log, h) == [] && !WasAccepted(log, h)
    ensures forall u | u in Watch(log).live :: Watch(log).live[u].gen < Watch(log).nextGen
  {
    if log.After? {
      FreshHandle(log.log, h);
    }
  }

  lemma FollowOne(s: Status, events: seq<GoalEvent>, e: GoalEvent)
    ensures Follow(s, events + [e]) ==
            if Follow(s, events).None? then None else Transition(Follow(s, events).value, e)
  {
  }

  /**
   The events of every handle ever accepted, also of one freed since, are a path of the goal state
   machine from Accepted; the path of a live handle ends in its current state, that of a freed one in a
   terminal state.
   */
  lemma {:induction false} HistoryIsPath(log: Log, h: Handle)
    requires LegalLog(log)
    requires WasAccepted(log, h)
    ensures h.gen < Watch(log).nextGen
    ensures var end := Follow(Accepted, EventsOf(log, h));
            end.Some? &&
            if HandleIsLive(Watch(log).live, h) then end.value == Watch(log).live[h.uuid].state
            else Terminal(end.value)
  {
    var m := Watch(log.log);
    if log.event == GoalAccepted(h) {
      FreshHandle(log.log, h);
    } else {
      HistoryIsPath(log.log, h);
      if log.event.Transitioned? && log.event.handle == h {
        FollowOne(Accepted, EventsOf(log.log, h), log.event.event);
      }
    }
  }
}

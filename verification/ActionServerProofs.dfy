/** What every run of the action server keeps. */
module ActionServerProofs {
  import opened Wrappers
  import opened GoalStates
  import opened ActionServerModel
  import opened ActionMonitor

  function Waiting(goals: Goals, u: Uuid): multiset<Header> {
    if u in goals then multiset(goals[u].waiting) else multiset{}
  }

  ghost function TaskRefs(goals: Goals): set<nat> {
    set u | u in goals && goals[u].task.Some? :: goals[u].task.value
  }

  /** The Elixir map's entry for u and what the native calls say of u agree. */
  ghost predicate AgreeOn(goals: Goals, m: Monitor, u: Uuid) {
    && u in goals && u in m.live
    && m.live[u].gen < m.nextGen
    && goals[u].info.uuid == u
    && goals[u].handle == Handle(u, m.live[u].gen)
    && goals[u].status.info.uuid == u
    && goals[u].status.status == Announced(m.live[u].state)
    && m.live[u].state != Unknown
    && u in m.last && m.last[u] == m.live[u].state
    && (u in m.answer ==> goals[u].response == Some(m.answer[u]))
  }

  ghost predicate Agree(goals: Goals, m: Monitor) {
    goals.Keys == m.live.Keys && forall u | u in goals :: AgreeOn(goals, m, u)
  }

  /** The requests still owed are exactly those in the waiting lists. */
  ghost predicate Owed(goals: Goals, m: Monitor) {
    forall u :: Open(m, u) == Waiting(goals, u)
  }

  ghost predicate TasksKnown(goals: Goals, running: set<nat>, nextTask: nat) {
    && (forall u, v | u in goals && v in goals && goals[u].task.Some? && goals[u].task == goals[v].task :: u == v)
    && (forall u | u in goals && goals[u].task.Some? :: goals[u].task.value < nextTask)
    && running <= TaskRefs(goals)
  }

  /** What holds between any two native calls of a handler. */
  ghost predicate Core(s: State) {
    var m := Watch(s.log);
    && LegalLog(s.log)
    && m.live == s.live && m.nextGen == s.nextGen
    && Agree(s.goals, m)
    && Owed(s.goals, m)
    && TasksKnown(s.goals, s.running, s.nextTask)
  }

  /** What holds of one goal whenever no handler is working on it. */
  ghost predicate Settled(s: State, u: Uuid)
    requires u in s.goals && u in s.live
  {
    var (goal, state) := (s.goals[u], s.live[u].state);
    && (goal.task.Some? <==> state == Executing)
    && (goal.task.Some? ==> goal.task.value in s.running)
    && (goal.response.Some? <==> Terminal(state))
    && (goal.response.Some? ==> goal.response.value.status == state)
    && (Terminal(state) ==> goal.waiting == [])
    && state != Canceling
  }

  ghost predicate SettledBut(s: State, u: Uuid)
    requires s.goals.Keys == s.live.Keys
  {
    forall v | v in s.goals && v != u :: Settled(s, v)
  }

  /** What holds at every handler boundary. */
  ghost predicate Inv(s: State) {
    Core(s) && forall u | u in s.goals :: Settled(s, u)
  }

  // ---------- the helpers ----------

  lemma TransitionAgrees(goals: Goals, m: Monitor, e: GoalEvent, info: GoalInfo)
    requires Agree(goals, m) && info.uuid in goals
    requires Transition(m.live[info.uuid].state, e).Some?
    ensures var u := info.uuid;
            var event := Transitioned(goals[u].handle, e);
            var state := Transition(m.live[u].state, e).value;
            var t := Observe(m, event);
            && Legal(m, event)
            && t == m.(live := m.live[u := NativeGoal(m.live[u].gen, state)], last := m.last[u := state])
            && Agree(goals[u := goals[u].(status := GoalStatus(info, state))], t)
  {
    var u := info.uuid;
    assert AgreeOn(goals, m, u);
    var t := Observe(m, Transitioned(goals[u].handle, e));
    var after := goals[u := goals[u].(status := GoalStatus(info, t.live[u].state))];
    forall v | v in after ensures AgreeOn(after, t, v) {
      assert AgreeOn(goals, m, v);
    }
  }

  lemma AgreedStatuses(goals: Goals, m: Monitor)
    requires Agree(goals, m)
    ensures Legal(m, Published(Statuses(goals)))
  {
  }

  /** What UpdateGoalsState leaves behind when the native server accepts the event. */
  function Updated(s: State, e: GoalEvent, info: GoalInfo): State
    requires info.uuid in s.goals && info.uuid in s.live && Transition(s.live[info.uuid].state, e).Some?
  {
    var u := info.uuid;
    var state := Transition(s.live[u].state, e).value;
    var goals := s.goals[u := s.goals[u].(status := GoalStatus(info, state))];
    s.(goals := goals,
       live := s.live[u := NativeGoal(s.live[u].gen, state)],
       log := After(After(s.log, Transitioned(s.goals[u].handle, e)), Published(Statuses(goals))))
  }

  lemma UpdateGives(s: State, e: GoalEvent, info: GoalInfo)
    requires info.uuid in s.goals && info.uuid in s.live && Transition(s.live[info.uuid].state, e).Some?
    requires s.goals[info.uuid].handle == Handle(info.uuid, s.live[info.uuid].gen)
    ensures UpdateGoalsState(s, e, info) == Some(Updated(s, e, info))
  {
  }

  lemma LogKeeps(log: Log, e: Event)
    requires LegalLog(log) && Legal(Watch(log), e)
    ensures LegalLog(After(log, e)) && Watch(After(log, e)) == Observe(Watch(log), e)
  {
  }

  lemma UpdateKeeps(s: State, e: GoalEvent, info: GoalInfo)
    requires Core(s) && info.uuid in s.goals
    requires Transition(s.live[info.uuid].state, e).Some?
    ensures UpdateGoalsState(s, e, info) == Some(Updated(s, e, info))
    ensures Core(Updated(s, e, info))
  {
    var m := Watch(s.log);
    var t := Updated(s, e, info);
    var event := Transitioned(s.goals[info.uuid].handle, e);
    assert AgreeOn(s.goals, m, info.uuid);
    UpdateGives(s, e, info);
    TransitionAgrees(s.goals, m, e, info);
    var n := Observe(m, event);
    AgreedStatuses(t.goals, n);
    LogKeeps(s.log, event);
    LogKeeps(After(s.log, event), Published(Statuses(t.goals)));
    UpdatedShape(s, e, info);
    SameWaiting(s.goals, t.goals, m, n);
    SameTasks(s.goals, t.goals, s.running, s.nextTask);
  }

  lemma UpdatedShape(s: State, e: GoalEvent, info: GoalInfo)
    requires info.uuid in s.goals && info.uuid in s.live && Transition(s.live[info.uuid].state, e).Some?
    ensures var t := Updated(s, e, info);
            && t.goals.Keys == s.goals.Keys
            && forall v | v in s.goals :: t.goals[v].waiting == s.goals[v].waiting && t.goals[v].task == s.goals[v].task
  {
  }

  lemma SameWaiting(before: Goals, after: Goals, m: Monitor, t: Monitor)
    requires Owed(before, m) && t.open == m.open
    requires before.Keys == after.Keys && forall v | v in before :: after[v].waiting == before[v].waiting
    ensures Owed(after, t)
  {
    forall u ensures Open(t, u) == Waiting(after, u) {
      assert Open(m, u) == Waiting(before, u);
    }
  }

  /** Only tasks matter for TasksKnown. */
  lemma SameTasks(before: Goals, after: Goals, running: set<nat>, nextTask: nat)
    requires TasksKnown(before, running, nextTask)
    requires before.Keys == after.Keys && forall v | v in before :: after[v].task == before[v].task
    ensures TasksKnown(after, running, nextTask)
  {
  }

  /** t is m after the requests hs of u were all answered with r. */
  ghost predicate SentTo(m: Monitor, t: Monitor, u: Uuid, hs: multiset<Header>, r: Response) {
    && t.live == m.live && t.nextGen == m.nextGen && t.last == m.last
    && (t.answer == m.answer || t.answer == m.answer[u := r])
    && AnswerLegal(t, u, r)
    && Open(t, u) == Open(m, u) - hs
    && forall v | v != u :: Open(t, v) == Open(m, v)
  }

  lemma SentOneMore(m: Monitor, n: Monitor, t: Monitor, u: Uuid, hs: multiset<Header>, h: Header, r: Response)
    requires SentTo(m, n, u, hs, r)
    requires t.live == n.live && t.nextGen == n.nextGen && t.last == n.last && t.answer == n.answer[u := r]
    requires Open(t, u) == Open(n, u) - multiset{h} && forall v | v != u :: Open(t, v) == Open(n, v)
    ensures SentTo(m, t, u, hs + multiset{h}, r)
  {
    TakenOff(Open(m, u), hs, h);
  }

  lemma TakenOff(open: multiset<Header>, hs: multiset<Header>, h: Header)
    ensures open - hs - multiset{h} == open - (hs + multiset{h})
  {
  }

  lemma SendOneMore(m: Monitor, n: Monitor, u: Uuid, hs: multiset<Header>, h: Header, r: Response)
    requires SentTo(m, n, u, hs, r) && r.status != Unknown
    requires hs + multiset{h} <= Open(m, u)
    ensures Legal(n, SentResult(h, u, r))
    ensures SentTo(m, Observe(n, SentResult(h, u, r)), u, hs + multiset{h}, r)
  {
    assert Open(n, u)[h] == Open(m, u)[h] - hs[h];
    assert (hs + multiset{h})[h] <= Open(m, u)[h];
    assert Legal(n, SentResult(h, u, r));
    var t := Observe(n, SentResult(h, u, r));
    forall v ensures Open(t, v) == if v == u then Open(n, u) - multiset{h} else Open(n, v) {
      OpenAfter(n, SentResult(h, u, r), v);
    }
    SentOneMore(m, n, t, u, hs, h, r);
  }

  lemma {:induction false} SendAllLegal(log: Log, u: Uuid, headers: seq<Header>, r: Response)
    requires LegalLog(log) && multiset(headers) <= Open(Watch(log), u)
    requires AnswerLegal(Watch(log), u, r) && r.status != Unknown
    ensures LegalLog(SendAll(log, u, headers, r))
    ensures SentTo(Watch(log), Watch(SendAll(log, u, headers, r)), u, multiset(headers), r)
  {
    if headers != [] {
      var before, h := headers[..|headers| - 1], headers[|headers| - 1];
      var sent := SendAll(log, u, before, r);
      assert multiset(headers) == multiset(before) + multiset{h} by {
        assert headers == before + [h];
      }
      SendAllLegal(log, u, before, r);
      SendOneMore(Watch(log), Watch(sent), u, multiset(before), h, r);
      LogKeeps(sent, SentResult(h, u, r));
    }
  }

  lemma {:induction false} SizeOfElements<T>(xs: seq<T>, s: set<T>)
    requires forall x | x in s :: x in xs
    ensures |s| <= |xs|
  {
    if xs == [] {
      assert s == {};
    } else {
      SizeOfElements(xs[1..], s - {xs[0]});
    }
  }

  lemma ExpiryLegal(live: Live, due: seq<Uuid>)
    ensures var us := ExpiredGoals(live, due);
            |us| <= EXPIRE_LIMIT && us <= live.Keys && forall u | u in us :: u in live && Terminal(live[u].state)
  {
    SizeOfElements(if |due| <= EXPIRE_LIMIT then due else due[..EXPIRE_LIMIT], ExpiredGoals(live, due));
  }

  lemma ResultAgrees(goals: Goals, m: Monitor, t: Monitor, u: Uuid, goal: Goal, us: set<Uuid>)
    requires Agree(goals, m) && u in goals && us <= goals.Keys
    requires goal.info == goals[u].info && goal.handle == goals[u].handle && goal.status == goals[u].status
    requires goal.response.Some?
    requires t.live == m.live - us && t.nextGen == m.nextGen && t.last == m.last
    requires t.answer == m.answer || t.answer == m.answer[u := goal.response.value]
    requires u in t.answer ==> t.answer[u] == goal.response.value
    ensures Agree(goals[u := goal] - us, t)
  {
  }

  lemma ResultOwed(goals: Goals, m: Monitor, t: Monitor, u: Uuid, goal: Goal, us: set<Uuid>)
    requires Owed(goals, m) && u in goals && us <= goals.Keys && goal.waiting == []
    requires forall v | v in us && v != u :: goals[v].waiting == []
    requires Open(t, u) == Open(m, u) - multiset(goals[u].waiting)
    requires forall v | v != u :: Open(t, v) == Open(m, v)
    ensures Owed(goals[u := goal] - us, t)
  {
  }

  lemma ResultTasks(goals: Goals, running: set<nat>, nextTask: nat, u: Uuid, goal: Goal, us: set<Uuid>)
    requires TasksKnown(goals, running, nextTask) && u in goals && goal.task.None?
    requires goals[u].task.Some? ==> goals[u].task.value !in running
    requires forall v | v in us && v != u && v in goals :: goals[v].task.None?
    ensures TasksKnown(goals[u := goal] - us, running, nextTask)
  {
    var after := goals[u := goal] - us;
    forall r | r in running ensures r in TaskRefs(after) {
      var v :| v in goals && goals[v].task == Some(r);
      assert v != u && v !in us;
      assert v in after && after[v].task == Some(r);
    }
  }

  /** The goal SetResult leaves in the map, if the expiry spares it. */
  function Finished(goal: Goal, status: Status, value: TaskValue): Goal {
    goal.(response := Some(Response(status, ToMsg(value))), waiting := [], task := None)
  }

  /** What SetResult leaves behind when the value is a struct, nil or false. */
  function Resulted(s: State, value: TaskValue, u: Uuid, us: set<Uuid>): State
    requires u in s.goals && u in s.live
  {
    var status := s.live[u].state;
    s.(goals := s.goals[u := Finished(s.goals[u], status, value)] - us,
       live := s.live - us,
       log := SendAll(After(s.log, Expired(us)), u, s.goals[u].waiting, Response(status, ToMsg(value))))
  }

  lemma SetResultGives(s: State, value: TaskValue, info: GoalInfo, due: seq<Uuid>)
    requires info.uuid in s.goals && info.uuid in s.live && Usable(value)
    requires s.goals[info.uuid].handle == Handle(info.uuid, s.live[info.uuid].gen)
    ensures SetResult(s, value, info, due) == Some(Resulted(s, value, info.uuid, ExpiredGoals(s.live, due)))
  {
  }

  lemma ResultLog(log: Log, live: Live, u: Uuid, headers: seq<Header>, r: Response, us: set<Uuid>)
    requires LegalLog(log) && Watch(log).live == live
    requires Legal(Watch(log), Expired(us)) && multiset(headers) == Open(Watch(log), u)
    requires r.status != Unknown && AnswerLegal(Watch(log), u, r)
    ensures var (m, t) := (Watch(log), Watch(SendAll(After(log, Expired(us)), u, headers, r)));
            && LegalLog(SendAll(After(log, Expired(us)), u, headers, r))
            && t.live == live - us && t.nextGen == m.nextGen && t.last == m.last
            && (t.answer == m.answer || t.answer == m.answer[u := r])
            && (u in t.answer ==> t.answer[u] == r)
            && Open(t, u) == multiset{}
            && forall v | v != u :: Open(t, v) == Open(m, v)
  {
    LogKeeps(log, Expired(us));
    SendAllLegal(After(log, Expired(us)), u, headers, r);
  }

  lemma ResultedCore(s: State, value: TaskValue, u: Uuid, us: set<Uuid>)
    requires Core(s) && u in s.goals && Terminal(s.live[u].state) && s.goals[u].response.None?
    requires s.goals[u].task.Some? ==> s.goals[u].task.value !in s.running
    requires Legal(Watch(s.log), Expired(us))
    requires forall v | v in us && v != u && v in s.goals :: s.goals[v].waiting == [] && s.goals[v].task.None?
    ensures Core(Resulted(s, value, u, us))
  {
    var m := Watch(s.log);
    var goal := Finished(s.goals[u], s.live[u].state, value);
    assert AgreeOn(s.goals, m, u);
    assert Open(m, u) == Waiting(s.goals, u);
    ResultLog(s.log, s.live, u, s.goals[u].waiting, goal.response.value, us);
    var t := Watch(Resulted(s, value, u, us).log);
    ResultAgrees(s.goals, m, t, u, goal, us);
    ResultOwed(s.goals, m, t, u, goal, us);
    ResultTasks(s.goals, s.running, s.nextTask, u, goal, us);
  }

  lemma ResultedSettled(s: State, value: TaskValue, u: Uuid, us: set<Uuid>)
    requires s.goals.Keys == s.live.Keys && SettledBut(s, u) && u in s.goals && Terminal(s.live[u].state)
    ensures var t := Resulted(s, value, u, us);
            t.goals.Keys == t.live.Keys && forall v | v in t.goals :: Settled(t, v)
  {
  }

  /** A goal that is settled and terminal has neither requests waiting nor a task. */
  lemma ExpiredAreDone(s: State, u: Uuid, us: set<Uuid>)
    requires s.goals.Keys == s.live.Keys && SettledBut(s, u)
    requires forall v | v in us :: v in s.live && Terminal(s.live[v].state)
    ensures forall v | v in us && v != u && v in s.goals :: s.goals[v].waiting == [] && s.goals[v].task.None?
  {
  }

  lemma SetResultKeeps(s: State, value: TaskValue, info: GoalInfo, due: seq<Uuid>)
    requires Core(s) && SettledBut(s, info.uuid)
    requires info.uuid in s.goals && Terminal(s.live[info.uuid].state) && s.goals[info.uuid].response.None?
    requires s.goals[info.uuid].task.Some? ==> s.goals[info.uuid].task.value !in s.running
    requires Usable(value)
    ensures var us := ExpiredGoals(s.live, due);
            && SetResult(s, value, info, due) == Some(Resulted(s, value, info.uuid, us))
            && Inv(Resulted(s, value, info.uuid, us))
  {
    var u, us := info.uuid, ExpiredGoals(s.live, due);
    ExpiryLegal(s.live, due);
    assert AgreeOn(s.goals, Watch(s.log), u);
    SetResultGives(s, value, info, due);
    ExpiredAreDone(s, u, us);
    ResultedCore(s, value, u, us);
    ResultedSettled(s, value, u, us);
  }
}

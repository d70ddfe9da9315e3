/** The remaining handlers, and the theorems about whole runs of the action server. */
module ActionServerTheorems {
  import opened Wrappers
  import opened GoalStates
  import opened ActionServerModel
  import opened ActionMonitor
  import opened ActionServerProofs
  import opened ActionServerRuns

  // ---------- result requests ----------

  /** Answering on the spot: the request is taken and given a response the observer accepts. */
  lemma AnswerNow(s: State, h: Header, u: Uuid, r: Response)
    requires Inv(s)
    requires if r.status == Unknown then u !in s.goals && r.result == DefaultResult
             else u in s.goals && s.goals[u].response == Some(r)
    ensures Inv(s.(log := After(After(s.log, TookResult(h, u)), SentResult(h, u, r))))
  {
    var m := Watch(s.log);
    var took := After(s.log, TookResult(h, u));
    var t := s.(log := After(took, SentResult(h, u, r)));
    LogKeeps(s.log, TookResult(h, u));
    if u in s.goals {
      assert Settled(s, u) && AgreeOn(s.goals, m, u);
    }
    LogKeeps(took, SentResult(h, u, r));
    AnswerNowAgrees(s.goals, m, Watch(t.log), h, u, r);
    forall v | v in t.goals ensures Settled(t, v) {
      assert Settled(s, v);
    }
  }

  lemma AnswerNowAgrees(goals: Goals, m: Monitor, t: Monitor, h: Header, u: Uuid, r: Response)
    requires Agree(goals, m) && Owed(goals, m)
    requires t == Observe(Observe(m, TookResult(h, u)), SentResult(h, u, r))
    requires Legal(Observe(m, TookResult(h, u)), SentResult(h, u, r))
    requires u in goals ==> goals[u].response == Some(r)
    ensures Agree(goals, t) && Owed(goals, t) && t.live == m.live && t.nextGen == m.nextGen
  {
    SentEffect(Observe(m, TookResult(h, u)), h, u, r);
    AnswerAgrees(goals, m, t, u, r);
    AnswerOwed(goals, m, t, h, u, r);
  }

  lemma SentEffect(m: Monitor, h: Header, u: Uuid, r: Response)
    requires Legal(m, SentResult(h, u, r))
    ensures var t := Observe(m, SentResult(h, u, r));
            && t.live == m.live && t.nextGen == m.nextGen && t.last == m.last
            && (t.answer == m.answer || t.answer == m.answer[u := r])
  {
  }

  lemma AnswerOwed(goals: Goals, m: Monitor, t: Monitor, h: Header, u: Uuid, r: Response)
    requires Owed(goals, m)
    requires t == Observe(Observe(m, TookResult(h, u)), SentResult(h, u, r))
    requires Legal(Observe(m, TookResult(h, u)), SentResult(h, u, r))
    ensures Owed(goals, t)
  {
    forall v ensures Open(t, v) == Waiting(goals, v) {
      OpenAfter(m, TookResult(h, u), v);
      OpenAfter(Observe(m, TookResult(h, u)), SentResult(h, u, r), v);
      assert Open(m, v) == Waiting(goals, v);
    }
  }

  lemma AnswerAgrees(goals: Goals, m: Monitor, t: Monitor, u: Uuid, r: Response)
    requires Agree(goals, m) && t.live == m.live && t.nextGen == m.nextGen && t.last == m.last
    requires t.answer == m.answer || t.answer == m.answer[u := r]
    requires u in goals ==> goals[u].response == Some(r)
    ensures Agree(goals, t)
  {
  }

  /** Parking the request in its goal's waiting list. */
  lemma AnswerLater(s: State, h: Header, u: Uuid)
    requires Inv(s) && u in s.goals && s.goals[u].response.None?
    ensures var goal := s.goals[u].(waiting := [h] + s.goals[u].waiting);
            Inv(s.(log := After(s.log, TookResult(h, u)), goals := s.goals[u := goal]))
  {
    var goal := s.goals[u].(waiting := [h] + s.goals[u].waiting);
    var t := s.(log := After(s.log, TookResult(h, u)), goals := s.goals[u := goal]);
    LogKeeps(s.log, TookResult(h, u));
    AnswerLaterAgrees(s.goals, Watch(s.log), h, u, goal);
    SameTasks(s.goals, t.goals, s.running, s.nextTask);
    ParkedSettled(s, t, u);
  }

  lemma ParkedSettled(s: State, t: State, u: Uuid)
    requires s.goals.Keys == s.live.Keys && u in s.goals && (forall v | v in s.goals :: Settled(s, v))
    requires s.goals[u].response.None? && t.live == s.live && t.running == s.running
    requires u in t.goals && t.goals == s.goals[u := s.goals[u].(waiting := t.goals[u].waiting)]
    ensures forall v | v in t.goals :: Settled(t, v)
  {
    forall v | v in t.goals ensures Settled(t, v) {
      assert Settled(s, v);
    }
  }

  lemma AnswerLaterAgrees(goals: Goals, m: Monitor, h: Header, u: Uuid, goal: Goal)
    requires Agree(goals, m) && Owed(goals, m) && u in goals
    requires goal == goals[u].(waiting := [h] + goals[u].waiting)
    ensures var t := Observe(m, TookResult(h, u));
            Agree(goals[u := goal], t) && Owed(goals[u := goal], t) && t.live == m.live && t.nextGen == m.nextGen
  {
    var t := Observe(m, TookResult(h, u));
    SameEntries(goals, goals[u := goal], m, t);
    forall v ensures Open(t, v) == if v == u then Open(m, v) + multiset{h} else Open(m, v) {
      OpenAfter(m, TookResult(h, u), v);
    }
    AnswerLaterOwed(goals, m, t, h, u, goal);
  }

  lemma AnswerLaterOwed(goals: Goals, m: Monitor, t: Monitor, h: Header, u: Uuid, goal: Goal)
    requires Owed(goals, m) && u in goals && goal.waiting == [h] + goals[u].waiting
    requires forall v :: Open(t, v) == if v == u then Open(m, v) + multiset{h} else Open(m, v)
    ensures Owed(goals[u := goal], t)
  {
  }

  /** Waiting lists, payloads and tasks do not matter to the agreement. */
  lemma SameEntries(before: Goals, after: Goals, m: Monitor, t: Monitor)
    requires Agree(before, m) && before.Keys == after.Keys
    requires forall v | v in before ::
      after[v] == before[v].(waiting := after[v].waiting, task := after[v].task)
    requires t.live == m.live && t.nextGen == m.nextGen && t.last == m.last && t.answer == m.answer
    ensures Agree(after, t)
  {
  }

  lemma HandleResultKeeps(s: State, take: ResultTake)
    requires Inv(s)
    ensures Inv(HandleResult(s, take))
  {
    if take.ResultRequest? {
      var (h, u) := (take.header, take.uuid);
      if u !in s.goals {
        AnswerNow(s, h, u, Response(Unknown, DefaultResult));
      } else {
        assert Settled(s, u);
        if s.goals[u].response.Some? {
          AnswerNow(s, h, u, s.goals[u].response.value);
        } else {
          AnswerLater(s, h, u);
        }
      }
    }
  }

  lemma {:induction false} HandleResultsKeep(s: State, takes: seq<ResultTake>)
    requires Inv(s)
    ensures Inv(HandleResults(s, takes))
  {
    if takes != [] {
      HandleResultsKeep(s, takes[..|takes| - 1]);
      HandleResultKeeps(HandleResults(s, takes[..|takes| - 1]), takes[|takes| - 1]);
    }
  }

  // ---------- goal requests ----------

  /** One goal request handled with its entry inserted at once. */
  function GoalAtOnce(s: State, take: GoalTake): State {
    var t := AnswerGoal(s, take);
    if IsAccepted(s, take) then t.(goals := s.goals[take.uuid := NewGoal(take, s.nextGen)]) else t
  }

  function GoalsAtOnce(s: State, takes: seq<GoalTake>): State {
    if takes == [] then s
    else GoalAtOnce(GoalsAtOnce(s, takes[..|takes| - 1]), takes[|takes| - 1])
  }

  /** Inserting the accepted goals only after the whole batch makes no difference. */
  lemma {:induction false} LateInsertion(s: State, takes: seq<GoalTake>)
    ensures HandleGoals(s, takes) == GoalsAtOnce(s, takes)
    ensures AnswerGoals(s, takes).0 == GoalsAtOnce(s, takes).(goals := s.goals)
  {
    if takes != [] {
      LateInsertion(s, takes[..|takes| - 1]);
    }
  }

  lemma AcceptSettles(s: State, take: GoalTake)
    requires s.goals.Keys == s.live.Keys && IsAccepted(s, take) && forall v | v in s.goals :: Settled(s, v)
    ensures var t := GoalAtOnce(s, take);
            t.goals.Keys == t.live.Keys && forall v | v in t.goals :: Settled(t, v)
  {
  }

  lemma AcceptKeeps(s: State, take: GoalTake)
    requires Inv(s) && IsAccepted(s, take)
    ensures Inv(GoalAtOnce(s, take))
  {
    var (m, h) := (Watch(s.log), Handle(take.uuid, s.nextGen));
    var accepted := After(s.log, GoalAccepted(h));
    var answered := After(accepted, GoalAnswered(take.header, true, take.time));
    LogKeeps(s.log, GoalAccepted(h));
    LogKeeps(accepted, GoalAnswered(take.header, true, take.time));
    LogKeeps(answered, CallbackSpawned(GoalInfo(take.uuid, take.time)));
    AcceptAgrees(s.goals, m, take);
    AcceptTasks(s.goals, s.running, s.nextTask, take.uuid, NewGoal(take, s.nextGen));
    AcceptSettles(s, take);
  }

  lemma AcceptAgrees(goals: Goals, m: Monitor, take: GoalTake)
    requires Agree(goals, m) && Owed(goals, m) && take.GoalRequest? && take.uuid !in m.live
    ensures var t := Observe(m, GoalAccepted(Handle(take.uuid, m.nextGen)));
            var after := goals[take.uuid := NewGoal(take, m.nextGen)];
            && Agree(after, t) && Owed(after, t)
            && t.live == m.live[take.uuid := NativeGoal(m.nextGen, Accepted)] && t.nextGen == m.nextGen + 1
  {
    var t := Observe(m, GoalAccepted(Handle(take.uuid, m.nextGen)));
    var after := goals[take.uuid := NewGoal(take, m.nextGen)];
    forall v | v in after ensures AgreeOn(after, t, v) {
      assert v != take.uuid ==> AgreeOn(goals, m, v);
    }
    forall v ensures Open(t, v) == Waiting(after, v) {
      assert Open(m, v) == Waiting(goals, v);
    }
  }

  lemma AcceptTasks(goals: Goals, running: set<nat>, nextTask: nat, u: Uuid, goal: Goal)
    requires TasksKnown(goals, running, nextTask) && u !in goals && goal.task.None?
    ensures TasksKnown(goals[u := goal], running, nextTask)
  {
    forall r | r in running ensures r in TaskRefs(goals[u := goal]) {
      var v :| v in goals && goals[v].task == Some(r);
      assert goals[u := goal][v].task == Some(r);
    }
  }

  lemma GoalKeeps(s: State, take: GoalTake)
    requires Inv(s)
    ensures Inv(GoalAtOnce(s, take))
  {
    if IsAccepted(s, take) {
      AcceptKeeps(s, take);
    } else if take.GoalRequest? {
      var t := GoalAtOnce(s, take);
      LogKeeps(s.log, GoalAnswered(take.header, false, take.time));
      forall v | v in t.goals ensures Settled(t, v) {
        assert Settled(s, v);
      }
    }
  }

  lemma {:induction false} GoalsKeep(s: State, takes: seq<GoalTake>)
    requires Inv(s)
    ensures Inv(GoalsAtOnce(s, takes))
  {
    if takes != [] {
      GoalsKeep(s, takes[..|takes| - 1]);
      GoalKeeps(GoalsAtOnce(s, takes[..|takes| - 1]), takes[|takes| - 1]);
    }
  }

  // ---------- execution ----------

  /** The state once a fresh task runs for u. */
  function Started(t: State, u: Uuid): State
    requires u in t.goals
  {
    t.(goals := t.goals[u := t.goals[u].(task := Some(t.nextTask))],
       running := t.running + {t.nextTask},
       nextTask := t.nextTask + 1,
       log := After(t.log, TaskStarted(t.nextTask, t.goals[u].payload)))
  }

  lemma StartTasks(goals: Goals, running: set<nat>, nextTask: nat, u: Uuid)
    requires TasksKnown(goals, running, nextTask) && u in goals && goals[u].task.None?
    ensures TasksKnown(goals[u := goals[u].(task := Some(nextTask))], running + {nextTask}, nextTask + 1)
  {
    var after := goals[u := goals[u].(task := Some(nextTask))];
    forall r | r in running + {nextTask} ensures r in TaskRefs(after) {
      if r == nextTask {
        assert after[u].task == Some(r);
      } else {
        var v :| v in goals && goals[v].task == Some(r);
        assert after[v].task == Some(r);
      }
    }
  }

  lemma StartedShape(t: State, u: Uuid)
    requires u in t.goals
    ensures var after := Started(t, u).goals;
            && after.Keys == t.goals.Keys
            && forall v | v in t.goals ::
                 after[v] == t.goals[v].(task := after[v].task) && after[v].waiting == t.goals[v].waiting
  {
  }

  lemma StartTask(t: State, u: Uuid)
    requires Core(t) && u in t.goals && t.goals[u].task.None?
    ensures Core(Started(t, u))
  {
    var (m, after) := (Watch(t.log), Started(t, u).goals);
    StartedShape(t, u);
    LogKeeps(t.log, TaskStarted(t.nextTask, t.goals[u].payload));
    SameEntries(t.goals, after, m, m);
    SameWaiting(t.goals, after, m, m);
    StartTasks(t.goals, t.running, t.nextTask, u);
  }

  /** t is s with u's task started: u now executes and every other goal is as it was. */
  ghost predicate StartedFrom(s: State, t: State, u: Uuid) {
    && t.goals.Keys == s.goals.Keys && t.live.Keys == s.live.Keys && u in t.goals && u in t.live && u in s.goals
    && (forall v | v in s.goals && v != u :: t.goals[v] == s.goals[v])
    && (forall v | v in s.live && v != u :: t.live[v] == s.live[v])
    && s.running <= t.running && t.live[u].state == Executing
    && t.goals[u].task.Some? && t.goals[u].task.value in t.running && t.goals[u].response == s.goals[u].response
  }

  lemma ExecuteShape(s: State, info: GoalInfo)
    requires info.uuid in s.goals && info.uuid in s.live && s.live[info.uuid].state == Accepted
    ensures StartedFrom(s, Started(Updated(s, Execute, info), info.uuid), info.uuid)
  {
  }

  lemma ExecuteSettles(s: State, t: State, u: Uuid)
    requires s.goals.Keys == s.live.Keys && StartedFrom(s, t, u) && s.live[u].state == Accepted
    requires forall v | v in s.goals :: Settled(s, v)
    ensures forall v | v in t.goals :: Settled(t, v)
  {
  }

  lemma ExecuteGives(s: State, info: GoalInfo)
    requires info.uuid in s.goals && info.uuid in s.live && s.live[info.uuid].state == Accepted
    requires UpdateGoalsState(s, Execute, info) == Some(Updated(s, Execute, info))
    ensures HandleExecute(s, info) == Some(Started(Updated(s, Execute, info), info.uuid))
  {
  }

  lemma ExecuteRefused(s: State, info: GoalInfo)
    requires Inv(s) && info.uuid in s.goals && s.live[info.uuid].state != Accepted
    ensures HandleExecute(s, info).None?
  {
    assert AgreeOn(s.goals, Watch(s.log), info.uuid);
    assert Transition(s.live[info.uuid].state, Execute).None?;
    assert UpdateGoalState(s, s.goals[info.uuid].handle, Execute).None?;
  }

  lemma HandleExecuteKeeps(s: State, info: GoalInfo)
    requires Inv(s)
    ensures HandleExecute(s, info).None? <==> info.uuid in s.goals && s.live[info.uuid].state != Accepted
    ensures HandleExecute(s, info).Some? ==> Inv(HandleExecute(s, info).value)
  {
    var u := info.uuid;
    if u in s.goals && s.live[u].state == Accepted {
      assert Settled(s, u);
      UpdateKeeps(s, Execute, info);
      ExecuteGives(s, info);
      ExecuteShape(s, info);
      StartTask(Updated(s, Execute, info), u);
      ExecuteSettles(s, Started(Updated(s, Execute, info), u), u);
    } else if u in s.goals {
      ExecuteRefused(s, info);
    }
  }

  /** A goal cannot be executed twice: where the first execute call starts it, a second one raises. */
  lemma SecondExecuteRaises(s: State, info: GoalInfo)
    requires Inv(s) && info.uuid in s.live && s.live[info.uuid].state == Accepted
    ensures HandleExecute(s, info).Some?
    ensures HandleExecute(HandleExecute(s, info).value, info).None?
  {
    HandleExecuteKeeps(s, info);
    ExecuteStarts(s, info);
    HandleExecuteKeeps(HandleExecute(s, info).value, info);
  }

  /** A task message finds its goal, and only that goal. */
  lemma TaskFindsGoal(s: State, task: nat)
    requires Inv(s) && task in s.running
    ensures FindGoal(s.goals, task).Some?
    ensures var u := FindGoal(s.goals, task).value;
            && u in s.goals && s.goals[u].task == Some(task) && s.live[u].state == Executing
            && s.goals[u].info.uuid == u
            && forall v | v in s.goals && s.goals[v].task == Some(task) :: v == u
  {
  }

  /** The state once a task's message has been consumed. */
  function Consumed(s: State, task: nat): State {
    s.(running := s.running - {task})
  }

  lemma HandleTaskKeeps(s: State, task: nat, e: GoalEvent, value: TaskValue, due: seq<Uuid>)
    requires Inv(s) && task in s.running && (e == Succeed || e == Abort)
    ensures HandleTask(s, task, e, value, due).None? <==> value.OtherMap? || value.NotAMap?
    ensures var next := HandleTask(s, task, e, value, due);
            next.Some? ==> Inv(next.value) && OthersKept(s, next.value, FindGoal(s.goals, task).value)
  {
    TaskFindsGoal(s, task);
    var u := FindGoal(s.goals, task).value;
    ConsumedSettled(s, task, u);
    EndGoal(Consumed(s, task), e, value, s.goals[u].info, due);
    HandleTaskIs(s, task, e, value, due);
  }

  lemma HandleTaskIs(s: State, task: nat, e: GoalEvent, value: TaskValue, due: seq<Uuid>)
    requires FindGoal(s.goals, task).Some?
    ensures var info := s.goals[FindGoal(s.goals, task).value].info;
            var updated := UpdateGoalsState(Consumed(s, task), e, info);
            HandleTask(s, task, e, value, due) ==
            if updated.None? then None else SetResult(updated.value, value, info, due)
  {
  }

  lemma ConsumedSettled(s: State, task: nat, u: Uuid)
    requires Inv(s) && u in s.goals && s.goals[u].task == Some(task)
    requires forall v | v in s.goals && s.goals[v].task == Some(task) :: v == u
    ensures Core(Consumed(s, task)) && SettledBut(Consumed(s, task), u) && s.goals[u].response.None?
  {
    assert Settled(s, u);
    forall v | v in s.goals && v != u ensures Settled(Consumed(s, task), v) {
      assert Settled(s, v);
    }
  }

  // ---------- one step ----------

  /** The messages that end a run, among those that can arrive. */
  ghost predicate Raises(s: State, m: Message) {
    match m
    case ExecuteGoal(info) => info.uuid in s.goals && info.uuid in s.live && s.live[info.uuid].state != Accepted
    case TaskDone(_, value, _) => value.OtherMap? || value.NotAMap?
    case NewCancels(takes) => CancelsRaise(s, takes)
    case _ => false
  }

  lemma StepKeeps(s: State, m: Message)
    requires Inv(s) && Enabled(s, m)
    ensures Step(s, m).Raised? <==> Raises(s, m)
    ensures Step(s, m).Next? ==> Inv(Step(s, m).state)
  {
    match m
    case NewGoals(takes) =>
      LateInsertion(s, takes);
      GoalsKeep(s, takes);
    case NewCancels(takes) =>
      CancelsKeepExactly(s, takes);
    case NewResults(takes) => HandleResultsKeep(s, takes);
    case ExecuteGoal(info) => HandleExecuteKeeps(s, info);
    case TaskDone(task, value, due) => HandleTaskKeeps(s, task, Succeed, value, due);
    case TaskDown(task, due) => HandleTaskKeeps(s, task, Abort, Falsy, due);
    case PublishFeedback(u, f) => NoteKeeps(s, Feedback(u, f));
  }

  lemma OneSelected(live: Live, e: CancelEntry)
    requires Selectable(live, e.info.uuid)
    ensures SelectCanceling(live, [e]) == [e]
  {
    assert [e][..0] == [];
  }

  lemma OneRequestRaises(s: State, take: CancelTake)
    requires RequestRaises(s, take, {})
    ensures CancelsRaise(s, [take])
  {
    assert [take][..0] == [];
    assert RaisesAt(s, [take], 0);
  }

  /** A request to cancel one goal, which the callback accepts with no result. */
  function CancelOne(header: Header, info: GoalInfo): CancelTake {
    CancelRequest(header, [CancelEntry(info, Accept(Falsy), [])])
  }

  lemma NeverExecutedRaises(s: State, header: Header, info: GoalInfo)
    requires info.uuid in s.live && s.live[info.uuid].state == Accepted
    ensures RequestRaises(s, CancelOne(header, info), {})
  {
    var e := CancelEntry(info, Accept(Falsy), []);
    OneSelected(s.live - {}, e);
    assert e in [e] && EntryRaises(s, e);
  }

  /** An accepted cancel of a goal that was never executed raises. */
  lemma CancelBeforeExecuteRaises(s: State, header: Header, info: GoalInfo)
    requires Inv(s) && info.uuid in s.live && s.live[info.uuid].state == Accepted
    ensures Step(s, NewCancels([CancelOne(header, info)])).Raised?
  {
    NeverExecutedRaises(s, header, info);
    OneRequestRaises(s, CancelOne(header, info));
    CancelsKeepExactly(s, [CancelOne(header, info)]);
  }

  // ---------- an accepted goal waits for its first execute call ----------

  ghost predicate Untouched(s: State, t: State, u: Uuid) {
    u in s.live && u in t.live && t.live[u] == s.live[u]
  }

  lemma {:induction false} GoalsLeave(s: State, takes: seq<GoalTake>, u: Uuid)
    requires u in s.live
    ensures Untouched(s, GoalsAtOnce(s, takes), u)
  {
    if takes != [] {
      GoalsLeave(s, takes[..|takes| - 1], u);
    }
  }

  lemma {:induction false} ResultsLeave(s: State, takes: seq<ResultTake>, u: Uuid)
    ensures HandleResults(s, takes).live == s.live
  {
    if takes != [] {
      ResultsLeave(s, takes[..|takes| - 1], u);
    }
  }

  lemma CancelLeaves(s: State, take: CancelTake, u: Uuid)
    requires Inv(s) && u in s.live && s.live[u].state == Accepted && HandleCancel(s, take).Some?
    ensures Untouched(s, HandleCancel(s, take).value, u)
  {
    if take.CancelRequest? {
      var entries := SelectCanceling(s.live, take.wanted);
      CancelingSelected(s.live, take.wanted);
      CancelEntriesKeep(s, entries);
      assert !Named(entries, u) by {
        if Named(entries, u) {
          var i :| 0 <= i < |entries| && entries[i].info.uuid == u && entries[i].decision.Accept?;
          assert entries[i] in entries && EntryRaises(s, entries[i]);
        }
      }
    }
  }

  lemma {:induction false} CancelsLeave(s: State, takes: seq<CancelTake>, u: Uuid)
    requires Inv(s) && u in s.live && s.live[u].state == Accepted && HandleCancels(s, takes).Some?
    ensures Untouched(s, HandleCancels(s, takes).value, u)
  {
    if takes != [] {
      CancelsLeave(s, takes[..|takes| - 1], u);
      HandleCancelsKeep(s, takes[..|takes| - 1]);
      CancelLeaves(HandleCancels(s, takes[..|takes| - 1]).value, takes[|takes| - 1], u);
    }
  }

  lemma ExecuteLeaves(s: State, info: GoalInfo, u: Uuid)
    requires Inv(s) && u in s.live && info.uuid != u && HandleExecute(s, info).Some?
    ensures Untouched(s, HandleExecute(s, info).value, u)
  {
    HandleExecuteKeeps(s, info);
    if info.uuid in s.goals {
      UpdateKeeps(s, Execute, info);
      ExecuteGives(s, info);
      ExecuteShape(s, info);
    }
  }

  lemma AcceptedStays(s: State, m: Message, u: Uuid)
    requires Inv(s) && Enabled(s, m) && Step(s, m).Next?
    requires u in s.live && s.live[u].state == Accepted
    requires m.ExecuteGoal? ==> m.info.uuid != u
    ensures Untouched(s, Step(s, m).state, u)
  {
    match m
    case NewGoals(takes) =>
      LateInsertion(s, takes);
      GoalsLeave(s, takes, u);
    case NewCancels(takes) => CancelsLeave(s, takes, u);
    case NewResults(takes) => ResultsLeave(s, takes, u);
    case ExecuteGoal(info) => ExecuteLeaves(s, info, u);
    case TaskDone(task, value, due) =>
      TaskFindsGoal(s, task);
      HandleTaskKeeps(s, task, Succeed, value, due);
    case TaskDown(task, due) =>
      TaskFindsGoal(s, task);
      HandleTaskKeeps(s, task, Abort, Falsy, due);
    case PublishFeedback(_, _) =>
  }

  // ---------- runs ----------

  lemma {:induction false} RunKeeps(states: seq<State>, msgs: seq<Message>, i: nat)
    requires Run(states, msgs) && i <= |msgs|
    ensures Inv(states[i])
  {
    if i > 0 {
      RunKeeps(states, msgs, i - 1);
      assert StepAt(states, msgs, i - 1);
      StepKeeps(states[i - 1], msgs[i - 1]);
    }
  }

  lemma StepOf(states: seq<State>, msgs: seq<Message>, i: nat)
    requires Run(states, msgs) && i < |msgs|
    ensures Inv(states[i]) && Enabled(states[i], msgs[i])
    ensures Step(states[i], msgs[i]) == Next(states[i + 1])
  {
    RunKeeps(states, msgs, i);
    assert StepAt(states, msgs, i);
  }

  /**
   Every request taken for a uuid in a run has been answered or sits in that goal's waiting list, with
   the same multiplicity: none is lost, and none is answered more often than it was taken.
   */
  lemma ResultRequestsConserved(states: seq<State>, msgs: seq<Message>, i: nat, u: Uuid)
    requires Run(states, msgs) && i <= |msgs|
    ensures Taken(states[i].log, u) == Answered(states[i].log, u) + Waiting(states[i].goals, u)
    ensures forall h | Taken(states[i].log, u)[h] == 1 ::
              Answered(states[i].log, u)[h] + Waiting(states[i].goals, u)[h] == 1
  {
    RunKeeps(states, msgs, i);
    Conserved(states[i].log, u);
    assert Open(Watch(states[i].log), u) == Waiting(states[i].goals, u);
  }

  /** The life cycle at every handler boundary, and the two registries. */
  lemma LifeCycle(states: seq<State>, msgs: seq<Message>, i: nat, u: Uuid)
    requires Run(states, msgs) && i <= |msgs|
    ensures u in states[i].goals <==> u in states[i].live
    ensures u in states[i].goals ==>
              var (goal, state) := (states[i].goals[u], states[i].live[u].state);
              && HandleIsLive(states[i].live, goal.handle) && goal.handle.uuid == u
              && (goal.task.Some? <==> state == Executing)
              && (goal.response.Some? <==> Terminal(state))
              && (Terminal(state) ==> goal.waiting == [] && goal.response.value.status == state)
              && goal.status.status == (if state == Accepted then Unknown else state)
              && state != Unknown && state != Status.Canceling
  {
    RunKeeps(states, msgs, i);
    if u in states[i].goals {
      assert Settled(states[i], u) && AgreeOn(states[i].goals, Watch(states[i].log), u);
    }
  }

  /** Every goal a run ever accepted went through the goal state machine, wherever it is now. */
  lemma HistoriesArePaths(states: seq<State>, msgs: seq<Message>, i: nat, h: Handle)
    requires Run(states, msgs) && i <= |msgs| && WasAccepted(states[i].log, h)
    ensures var end := Follow(Accepted, EventsOf(states[i].log, h));
            end.Some? &&
            if HandleIsLive(states[i].live, h) then end.value == states[i].live[h.uuid].state
            else Terminal(end.value)
  {
    RunKeeps(states, msgs, i);
    HistoryIsPath(states[i].log, h);
  }

  ghost predicate Within(prefix: Log, log: Log) {
    prefix == log || (log.After? && Within(prefix, log.log))
  }

  lemma {:induction false} LegalWithin(prefix: Log, log: Log)
    requires LegalLog(log) && Within(prefix, log)
    ensures LegalLog(prefix)
  {
    if prefix != log {
      LegalWithin(prefix, log.log);
    }
  }

  /** Every native call of a run was legal when it was made; so is what every status message said. */
  lemma EveryCallLegal(states: seq<State>, msgs: seq<Message>, i: nat, before: Log, e: Event)
    requires Run(states, msgs) && i <= |msgs| && Within(After(before, e), states[i].log)
    ensures Legal(Watch(before), e)
    ensures e.Published? ==> StatusesCurrent(Watch(before).live, e.statuses)
    ensures e.Transitioned? ==> HandleIsLive(Watch(before).live, e.handle)
  {
    RunKeeps(states, msgs, i);
    LegalWithin(After(before, e), states[i].log);
  }

  lemma ExecuteStarts(s: State, info: GoalInfo)
    requires Inv(s) && info.uuid in s.live && s.live[info.uuid].state == Accepted
    ensures info.uuid in s.goals && HandleExecute(s, info).Some?
    ensures var t := HandleExecute(s, info).value;
            info.uuid in t.live && t.live[info.uuid] == NativeGoal(s.live[info.uuid].gen, Executing)
  {
    UpdateKeeps(s, Execute, info);
    ExecuteGives(s, info);
  }

  /** An accepted goal stays as it is until a message asks to execute it. */
  lemma {:induction false} WaitsForExecute(states: seq<State>, msgs: seq<Message>, i: nat, j: nat, u: Uuid)
    requires Run(states, msgs) && i <= j <= |msgs|
    requires u in states[i].live && states[i].live[u].state == Accepted
    requires forall k | i <= k < j :: msgs[k].ExecuteGoal? ==> msgs[k].info.uuid != u
    ensures Untouched(states[i], states[j], u)
  {
    if i < j {
      WaitsForExecute(states, msgs, i, j - 1, u);
      StepOf(states, msgs, j - 1);
      var (s, m) := (states[j - 1], msgs[j - 1]);
      assert m.ExecuteGoal? ==> m.info.uuid != u;
      AcceptedStays(s, m, u);
    }
  }

  /** The first execute call after an acceptance finds the goal and starts it, whatever came between. */
  lemma FirstExecuteFinds(states: seq<State>, msgs: seq<Message>, i: nat, j: nat, u: Uuid)
    requires Run(states, msgs) && i <= j < |msgs|
    requires u in states[i].live && states[i].live[u].state == Accepted
    requires msgs[j].ExecuteGoal? && msgs[j].info.uuid == u
    requires forall k | i <= k < j :: msgs[k].ExecuteGoal? ==> msgs[k].info.uuid != u
    ensures u in states[j].goals
    ensures u in states[j + 1].live && states[j + 1].live[u] == NativeGoal(states[i].live[u].gen, Executing)
  {
    WaitsForExecute(states, msgs, i, j, u);
    StepOf(states, msgs, j);
    ExecuteStarts(states[j], msgs[j].info);
  }

  // ---------- what the waiting requests are told ----------

  /** Every result sent since base went to a request for u and was r. */
  ghost predicate OnlyAnswers(log: Log, base: Log, u: Uuid, r: Response) {
    log == base ||
    (log.After? && OnlyAnswers(log.log, base, u, r) &&
     (log.event.SentResult? ==> log.event.uuid == u && log.event.response == r))
  }

  lemma {:induction false} SendAllOnly(log: Log, base: Log, u: Uuid, headers: seq<Header>, r: Response)
    requires OnlyAnswers(log, base, u, r)
    ensures OnlyAnswers(SendAll(log, u, headers, r), base, u, r)
  {
    if headers != [] {
      SendAllOnly(log, base, u, headers[..|headers| - 1], r);
    }
  }

  lemma {:induction false} SendAllAnswers(log: Log, u: Uuid, headers: seq<Header>, r: Response)
    ensures Answered(SendAll(log, u, headers, r), u) == Answered(log, u) + multiset(headers)
  {
    if headers != [] {
      SendAllAnswers(log, u, headers[..|headers| - 1], r);
      assert headers == headers[..|headers| - 1] + [headers[|headers| - 1]];
    }
  }

  lemma ResultedAnswers(t: State, base: Log, value: TaskValue, u: Uuid, us: set<Uuid>, r: Response)
    requires u in t.goals && u in t.live && r == Response(t.live[u].state, ToMsg(value))
    requires OnlyAnswers(t.log, base, u, r)
    ensures var end := Resulted(t, value, u, us);
            && OnlyAnswers(end.log, base, u, r)
            && Answered(end.log, u) == Answered(t.log, u) + multiset(t.goals[u].waiting)
            && (u in end.goals ==> end.goals[u].response == Some(r))
  {
    var expired := After(t.log, Expired(us));
    assert OnlyAnswers(expired, base, u, r);
    SendAllOnly(expired, base, u, t.goals[u].waiting, r);
    SendAllAnswers(expired, u, t.goals[u].waiting, r);
  }

  lemma UpdatedAnswers(s: State, e: GoalEvent, info: GoalInfo, r: Response)
    requires info.uuid in s.goals && info.uuid in s.live && Transition(s.live[info.uuid].state, e).Some?
    ensures OnlyAnswers(Updated(s, e, info).log, s.log, info.uuid, r)
    ensures Answered(Updated(s, e, info).log, info.uuid) == Answered(s.log, info.uuid)
    ensures Updated(s, e, info).goals[info.uuid].waiting == s.goals[info.uuid].waiting
  {
  }

  lemma EndAnswers(s: State, e: GoalEvent, value: TaskValue, info: GoalInfo, us: set<Uuid>, r: Response)
    requires info.uuid in s.goals && info.uuid in s.live && ToMsg(value) == r.result
    requires Transition(s.live[info.uuid].state, e) == Some(r.status)
    ensures var (u, end) := (info.uuid, Resulted(Updated(s, e, info), value, info.uuid, us));
            && OnlyAnswers(end.log, s.log, u, r)
            && Answered(end.log, u) == Answered(s.log, u) + multiset(s.goals[u].waiting)
            && (u in end.goals ==> end.goals[u].response == Some(r))
  {
    UpdatedAnswers(s, e, info, r);
    ResultedAnswers(Updated(s, e, info), s.log, value, info.uuid, us, r);
  }

  lemma TaskGives(s: State, task: nat, e: GoalEvent, value: TaskValue, due: seq<Uuid>)
    requires FindGoal(s.goals, task).Some? && Usable(value)
    requires var u := FindGoal(s.goals, task).value;
             && u in s.goals && u in s.live && s.goals[u].info.uuid == u
             && s.goals[u].handle == Handle(u, s.live[u].gen) && Transition(s.live[u].state, e).Some?
    ensures var u := FindGoal(s.goals, task).value;
            var t := Updated(Consumed(s, task), e, s.goals[u].info);
            HandleTask(s, task, e, value, due) == Some(Resulted(t, value, u, ExpiredGoals(t.live, due)))
  {
    EndGives(Consumed(s, task), e, value, s.goals[FindGoal(s.goals, task).value].info, due);
  }

  /**
   When a task ends, exactly the requests waiting for its goal are answered, all with the final state
   and this task's result, whether or not the goal is dropped by the expiry in the same step.
   */
  lemma TaskAnswersWaiting(s: State, task: nat, e: GoalEvent, value: TaskValue, due: seq<Uuid>)
    requires Inv(s) && task in s.running && (e == Succeed || e == Abort) && Usable(value)
    ensures HandleTask(s, task, e, value, due).Some? && FindGoal(s.goals, task).Some?
    ensures var (u, t) := (FindGoal(s.goals, task).value, HandleTask(s, task, e, value, due).value);
            var result := if value.Struct? then ResultMsg(value.result) else DefaultResult;
            var r := Response(if e == Succeed then Succeeded else Aborted, result);
            && u in s.goals && s.goals[u].task == Some(task)
            && OnlyAnswers(t.log, s.log, u, r)
            && Answered(t.log, u) == Answered(s.log, u) + multiset(s.goals[u].waiting)
            && (u in t.goals ==> t.goals[u].response == Some(r))
  {
    TaskFindsGoal(s, task);
    var u := FindGoal(s.goals, task).value;
    assert AgreeOn(s.goals, Watch(s.log), u);
    TaskGives(s, task, e, value, due);
    var (consumed, info) := (Consumed(s, task), s.goals[u].info);
    EndAnswers(consumed, e, value, info, ExpiredGoals(Updated(consumed, e, info).live, due),
               Response(if e == Succeed then Succeeded else Aborted, ToMsg(value)));
  }

  lemma ShutDownAnswers(s: State, info: GoalInfo, r: Response)
    requires info.uuid in s.goals && Stoppable(s, info.uuid) && s.goals[info.uuid].task.Some?
    ensures var t := ShutDown(s, info);
            && OnlyAnswers(t.log, s.log, info.uuid, r)
            && Answered(t.log, info.uuid) == Answered(s.log, info.uuid)
            && t.goals[info.uuid].waiting == s.goals[info.uuid].waiting
  {
    UpdatedAnswers(s, CancelGoal, info, r);
  }

  lemma {:induction false} OnlyAnswersTwice(log: Log, mid: Log, base: Log, u: Uuid, r: Response)
    requires OnlyAnswers(log, mid, u, r) && OnlyAnswers(mid, base, u, r)
    ensures OnlyAnswers(log, base, u, r)
  {
    if log != mid {
      OnlyAnswersTwice(log.log, mid, base, u, r);
    }
  }

  lemma CanceledAnswers(s: State, info: GoalInfo, value: TaskValue, us: set<Uuid>)
    requires info.uuid in s.goals && Stoppable(s, info.uuid) && s.goals[info.uuid].task.Some?
    ensures var (u, t, r) := (info.uuid, CanceledState(s, info, value, us), Response(Canceled, ToMsg(value)));
            && OnlyAnswers(t.log, s.log, u, r)
            && Answered(t.log, u) == Answered(s.log, u) + multiset(s.goals[u].waiting)
            && (u in t.goals ==> t.goals[u].response == Some(r))
  {
    var r := Response(Canceled, ToMsg(value));
    var stopped := ShutDown(s, info);
    ShutDownAnswers(s, info, r);
    EndAnswers(stopped, CancelDone, value, info, us, r);
    OnlyAnswersTwice(CanceledState(s, info, value, us).log, stopped.log, s.log, info.uuid, r);
  }

  /**
   When a goal is canceled its task is stopped, and exactly the requests waiting for it are answered, all
   with "canceled" and the callback's value, whether or not the expiry of the same step drops the goal.
   */
  lemma CancelAnswersWaiting(s: State, info: GoalInfo, value: TaskValue, due: seq<Uuid>)
    requires Inv(s) && info.uuid in s.goals && Stoppable(s, info.uuid) && Usable(value)
    ensures s.goals[info.uuid].task.Some? && CancelLiveGoal(s, info, value, due).Some?
    ensures var (u, t) := (info.uuid, CancelLiveGoal(s, info, value, due).value);
            var r := Response(Canceled, if value.Struct? then ResultMsg(value.result) else DefaultResult);
            && t.running == s.running - {s.goals[u].task.value}
            && OnlyAnswers(t.log, s.log, u, r)
            && Answered(t.log, u) == Answered(s.log, u) + multiset(s.goals[u].waiting)
            && (u in t.goals ==> t.goals[u].response == Some(r) && t.goals[u].task.None?)
  {
    assert Settled(s, info.uuid);
    CancelShape(s, info, value, due);
    CanceledAnswers(s, info, value, CancelExpires(s, info, due));
  }

  // ---------- one notification of a + b events against two ----------

  lemma {:induction false} GoalsSplit(s: State, a: seq<GoalTake>, b: seq<GoalTake>)
    ensures GoalsAtOnce(s, a + b) == GoalsAtOnce(GoalsAtOnce(s, a), b)
  {
    if b == [] {
      assert a + b == a;
    } else {
      assert (a + b)[..|a + b| - 1] == a + b[..|b| - 1];
      GoalsSplit(s, a, b[..|b| - 1]);
    }
  }

  lemma {:induction false} CancelsSplit(s: State, a: seq<CancelTake>, b: seq<CancelTake>)
    ensures HandleCancels(s, a + b) ==
            if HandleCancels(s, a).None? then None else HandleCancels(HandleCancels(s, a).value, b)
  {
    if b == [] {
      assert a + b == a;
    } else {
      assert (a + b)[..|a + b| - 1] == a + b[..|b| - 1];
      CancelsSplit(s, a, b[..|b| - 1]);
    }
  }

  lemma {:induction false} ResultsSplit(s: State, a: seq<ResultTake>, b: seq<ResultTake>)
    ensures HandleResults(s, a + b) == HandleResults(HandleResults(s, a), b)
  {
    if b == [] {
      assert a + b == a;
    } else {
      assert (a + b)[..|a + b| - 1] == a + b[..|b| - 1];
      ResultsSplit(s, a, b[..|b| - 1]);
    }
  }

  /**
   Whether the middleware reports the events in one notification or two makes no difference, neither to
   the state nor to the log of responses.
   */
  lemma NotificationsSplit(s: State, m: Message, n: Message, both: Message)
    requires match (m, n)
             case (NewGoals(a), NewGoals(b)) => both == NewGoals(a + b)
             case (NewCancels(a), NewCancels(b)) => both == NewCancels(a + b)
             case (NewResults(a), NewResults(b)) => both == NewResults(a + b)
             case _ => false
    ensures Step(s, both) == if Step(s, m).Raised? then Raised else Step(Step(s, m).state, n)
  {
    match m
    case NewGoals(a) =>
      LateInsertion(s, a + n.goalTakes);
      LateInsertion(s, a);
      LateInsertion(GoalsAtOnce(s, a), n.goalTakes);
      GoalsSplit(s, a, n.goalTakes);
    case NewCancels(a) => CancelsSplit(s, a, n.cancelTakes);
    case NewResults(a) => ResultsSplit(s, a, n.resultTakes);
    case _ =>
  }
}

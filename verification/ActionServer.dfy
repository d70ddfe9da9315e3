/**
 The action server with its state in place: the native server object the calls act on, and the process
 that rebuilds its goals map handler by handler. Each handler is proved to take the step of the model.
 A handler that raises ends the process; what it leaves behind is then of no interest.
 */
module ActionServerProcess {
  import opened Wrappers
  import opened GoalStates
  import opened ActionServerModel
  import M = ActionServerModel
  import opened ActionMonitor
  import opened ActionServerProofs
  import opened ActionServerRuns
  import opened ActionServerTheorems

  /** The native action server: its goal registry and the calls made to it. */
  class NativeServer {
    var live: Live
    var nextGen: nat
    var log: Log

    constructor ()
      ensures live == map[] && nextGen == 0 && log == Start
    {
      live, nextGen, log := map[], 0, Start;
    }

    method Note(e: Event)
      modifies this`log
      ensures log == After(old(log), e)
    {
      log := After(log, e);
    }

    method Update(h: Handle, e: GoalEvent) returns (ok: bool)
      modifies this`live, this`log
      ensures ok <==> HandleIsLive(old(live), h) && Transition(old(live)[h.uuid].state, e).Some?
      ensures ok ==>
                && live == old(live)[h.uuid := NativeGoal(h.gen, Transition(old(live)[h.uuid].state, e).value)]
                && log == After(old(log), Transitioned(h, e))
      ensures !ok ==> live == old(live) && log == old(log)
    {
      if h.uuid !in live || live[h.uuid].gen != h.gen {
        return false;
      }
      var next := Transition(live[h.uuid].state, e);
      if next.None? {
        return false;
      }
      live := live[h.uuid := NativeGoal(h.gen, next.value)];
      log := After(log, Transitioned(h, e));
      ok := true;
    }

    method Accept(u: Uuid) returns (h: Handle)
      requires u !in live
      modifies this
      ensures h == Handle(u, old(nextGen)) && nextGen == old(nextGen) + 1
      ensures live == old(live)[u := NativeGoal(h.gen, Accepted)] && log == After(old(log), GoalAccepted(h))
    {
      h := Handle(u, nextGen);
      live := live[u := NativeGoal(nextGen, Accepted)];
      nextGen := nextGen + 1;
      log := After(log, GoalAccepted(h));
    }

    /** Frees what is due and terminal, at most EXPIRE_LIMIT goals. */
    method Expire(due: seq<Uuid>) returns (expired: set<Uuid>)
      modifies this`live, this`log
      ensures expired == ExpiredGoals(old(live), due)
      ensures live == old(live) - expired && log == After(old(log), Expired(expired))
    {
      expired := {};
      var i := 0;
      while i < |due| && i < EXPIRE_LIMIT
        invariant 0 <= i <= |due| && i <= EXPIRE_LIMIT
        invariant expired == set u | u in due[..i] && u in live && Terminal(live[u].state)
      {
        if due[i] in live && Terminal(live[due[i]].state) {
          expired := expired + {due[i]};
        }
        assert due[..i + 1] == due[..i] + [due[i]];
        i := i + 1;
      }
      assert due[..i] == if |due| <= EXPIRE_LIMIT then due else due[..EXPIRE_LIMIT];
      live := live - expired;
      log := After(log, Expired(expired));
    }
  }

  class ActionServer {
    const native: NativeServer
    var goals: Goals
    var running: set<nat>
    var nextTask: nat

    ghost function Abs(): State
      reads this, native
    {
      State(goals, native.live, native.nextGen, running, nextTask, native.log)
    }

    ghost predicate Valid()
      reads this, native
    {
      Inv(Abs())
    }

    constructor ()
      ensures fresh(native) && Valid() && Abs() == Init
    {
      native := new NativeServer();
      goals, running, nextTask := map[], {}, 0;
    }

    method UpdateGoalsState(e: GoalEvent, info: GoalInfo) returns (raised: bool)
      modifies this`goals, native`live, native`log
      ensures raised == M.UpdateGoalsState(old(Abs()), e, info).None?
      ensures !raised ==> Abs() == M.UpdateGoalsState(old(Abs()), e, info).value
    {
      if info.uuid !in goals {
        return true;
      }
      var goal := goals[info.uuid];
      var ok := native.Update(goal.handle, e);
      if !ok || info.uuid !in native.live {
        return true;
      }
      goals := goals[info.uuid := goal.(status := GoalStatus(info, native.live[info.uuid].state))];
      native.Note(Published(Statuses(goals)));
      raised := false;
    }

    method SendResults(u: Uuid, headers: seq<Header>, response: Response)
      modifies native`log
      ensures native.log == SendAll(old(native.log), u, headers, response)
    {
      var i := 0;
      while i < |headers|
        invariant 0 <= i <= |headers|
        invariant native.log == SendAll(old(native.log), u, headers[..i], response)
      {
        native.Note(SentResult(headers[i], u, response));
        assert headers[..i + 1][..i] == headers[..i];
        i := i + 1;
      }
      assert headers[..i] == headers;
    }

    method SetResult(value: TaskValue, info: GoalInfo, due: seq<Uuid>) returns (raised: bool)
      modifies this`goals, native`live, native`log
      ensures raised == M.SetResult(old(Abs()), value, info, due).None?
      ensures !raised ==> Abs() == M.SetResult(old(Abs()), value, info, due).value
    {
      var u := info.uuid;
      if u !in goals || !HandleIsLive(native.live, goals[u].handle) || value.NotAMap? {
        return true;
      }
      var goal := goals[u];
      var response := Response(native.live[goal.handle.uuid].state, ToMsg(value));
      goals := goals[u := goal.(response := Some(response), waiting := [], task := None)];
      var expired := native.Expire(due);
      goals := goals - expired;
      if value.OtherMap? {
        return true;
      }
      SendResults(u, goal.waiting, response);
      raised := false;
    }

    method NewGoalRequests(takes: seq<GoalTake>)
      requires Valid()
      modifies this`goals, native
      ensures Valid() && Abs() == HandleGoals(old(Abs()), takes)
    {
      var entries := [];
      var i := 0;
      while i < |takes|
        modifies native
        invariant 0 <= i <= |takes|
        invariant (Abs(), entries) == AnswerGoals(old(Abs()), takes[..i])
      {
        assert takes[..i + 1][..i] == takes[..i];
        var take := takes[i];
        if take.GoalRequest? {
          if take.uuid !in native.live && take.accept {
            var h := native.Accept(take.uuid);
            native.Note(GoalAnswered(take.header, true, take.time));
            native.Note(CallbackSpawned(GoalInfo(take.uuid, take.time)));
            entries := entries + [(take.uuid, NewGoal(take, h.gen))];
          } else {
            native.Note(GoalAnswered(take.header, false, take.time));
          }
        }
        i := i + 1;
      }
      assert takes[..i] == takes;
      var j := 0;
      while j < |entries|
        modifies this`goals
        invariant 0 <= j <= |entries|
        invariant goals == Insert(old(goals), entries[..j])
      {
        assert entries[..j + 1][..j] == entries[..j];
        goals := goals[entries[j].0 := entries[j].1];
        j := j + 1;
      }
      assert entries[..j] == entries;
      LateInsertion(old(Abs()), takes);
      GoalsKeep(old(Abs()), takes);
    }

    method CancelIfAccepted(e: CancelEntry) returns (raised: bool)
      modifies this, native`live, native`log
      ensures raised == M.CancelIfAccepted(old(Abs()), e).None?
      ensures !raised ==> Abs() == M.CancelIfAccepted(old(Abs()), e).value
    {
      if e.info.uuid !in goals || e.decision.Reject? {
        return false;
      }
      if e.decision.Unexpected? {
        return true;
      }
      var task := goals[e.info.uuid].task;
      raised := UpdateGoalsState(CancelGoal, e.info);
      if raised || task.None? {
        return true;
      }
      running := running - {task.value};
      native.Note(TaskShutDown(task.value));
      raised := UpdateGoalsState(CancelDone, e.info);
      if !raised {
        raised := SetResult(e.decision.value, e.info, e.due);
      }
    }

    method NewCancelRequests(takes: seq<CancelTake>) returns (raised: bool)
      requires Valid()
      modifies this, native`live, native`log
      ensures raised == HandleCancels(old(Abs()), takes).None?
      ensures !raised ==> Valid() && Abs() == HandleCancels(old(Abs()), takes).value
    {
      var i := 0;
      while i < |takes|
        invariant 0 <= i <= |takes|
        invariant HandleCancels(old(Abs()), takes[..i]) == Some(Abs())
      {
        assert takes[..i + 1][..i] == takes[..i];
        if takes[i].CancelRequest? {
          raised := CancelRequest(takes[i]);
          if raised {
            CancelsSplit(old(Abs()), takes[..i + 1], takes[i + 1..]);
            assert takes == takes[..i + 1] + takes[i + 1..];
            return;
          }
        }
        i := i + 1;
      }
      assert takes[..i] == takes;
      HandleCancelsKeep(old(Abs()), takes);
      raised := false;
    }

    method CancelRequest(take: CancelTake) returns (raised: bool)
      requires take.CancelRequest?
      modifies this, native`live, native`log
      ensures raised == HandleCancel(old(Abs()), take).None?
      ensures !raised ==> Abs() == HandleCancel(old(Abs()), take).value
    {
      var entries := SelectCanceling(native.live, take.wanted);
      var k := 0;
      while k < |entries|
        invariant 0 <= k <= |entries|
        invariant CancelEntries(old(Abs()), entries[..k]) == Some(Abs())
      {
        assert entries[..k + 1][..k] == entries[..k];
        raised := CancelIfAccepted(entries[k]);
        if raised {
          RaiseStays(old(Abs()), entries, k + 1);
          return;
        }
        k := k + 1;
      }
      assert entries[..k] == entries;
      native.Note(SentCancel(take.header, Infos(entries)));
      raised := false;
    }

    method NewResultRequests(takes: seq<ResultTake>)
      requires Valid()
      modifies this`goals, native`log
      ensures Valid() && Abs() == HandleResults(old(Abs()), takes)
    {
      var i := 0;
      while i < |takes|
        invariant 0 <= i <= |takes|
        invariant Abs() == HandleResults(old(Abs()), takes[..i])
      {
        assert takes[..i + 1][..i] == takes[..i];
        if takes[i].ResultRequest? {
          var (h, u) := (takes[i].header, takes[i].uuid);
          native.Note(TookResult(h, u));
          if u !in goals {
            native.Note(SentResult(h, u, Response(Unknown, DefaultResult)));
          } else if goals[u].response.Some? {
            native.Note(SentResult(h, u, goals[u].response.value));
          } else {
            goals := goals[u := goals[u].(waiting := [h] + goals[u].waiting)];
          }
        }
        i := i + 1;
      }
      assert takes[..i] == takes;
      HandleResultsKeep(old(Abs()), takes);
    }

    method ExecuteGoal(info: GoalInfo) returns (raised: bool, found: bool)
      requires Valid()
      modifies this, native`live, native`log
      ensures found == (info.uuid in old(goals))
      ensures raised == HandleExecute(old(Abs()), info).None?
      ensures !raised ==> Valid() && Abs() == HandleExecute(old(Abs()), info).value
    {
      found := info.uuid in goals;
      raised := false;
      if found {
        raised := StartExecution(info);
      }
      HandleExecuteKeeps(old(Abs()), info);
    }

    method StartExecution(info: GoalInfo) returns (raised: bool)
      requires info.uuid in goals
      modifies this, native`live, native`log
      ensures raised == HandleExecute(old(Abs()), info).None?
      ensures !raised ==> Abs() == HandleExecute(old(Abs()), info).value
    {
      raised := UpdateGoalsState(Execute, info);
      if !raised {
        var u := info.uuid;
        native.Note(TaskStarted(nextTask, goals[u].payload));
        goals := goals[u := goals[u].(task := Some(nextTask))];
        running := running + {nextTask};
        nextTask := nextTask + 1;
      }
    }

    /** Searches the goals map for the goal that holds the task. */
    method FindGoalForTask(task: nat) returns (u: Option<Uuid>)
      requires Valid() && task in running
      ensures u == FindGoal(goals, task) && u.Some?
    {
      TaskFindsGoal(Abs(), task);
      var left := goals.Keys;
      while left != {}
        invariant left <= goals.Keys
        invariant forall v | v in goals && goals[v].task == Some(task) :: v in left
        decreases |left|
      {
        var v :| v in left;
        if goals[v].task == Some(task) {
          return Some(v);
        }
        left := left - {v};
      }
      assert false;
      u := None;
    }

    /** The result message (Succeed) and the DOWN message (Abort) of a task. */
    method TaskEnded(task: nat, e: GoalEvent, value: TaskValue, due: seq<Uuid>) returns (raised: bool)
      requires Valid() && task in running && (e == Succeed || e == Abort)
      modifies this, native`live, native`log
      ensures raised == !Usable(value)
      ensures !raised ==> Valid() && Some(Abs()) == HandleTask(old(Abs()), task, e, value, due)
    {
      HandleTaskKeeps(Abs(), task, e, value, due);
      var u := FindGoalForTask(task);
      TaskFindsGoal(Abs(), task);
      var info := goals[u.value].info;
      running := running - {task};
      raised := UpdateGoalsState(e, info);
      if !raised {
        raised := SetResult(value, info, due);
      }
    }
  }

  /** Once an entry raised, so does the whole list. */
  lemma {:induction false} RaiseStays(s: State, entries: seq<CancelEntry>, k: nat)
    requires k <= |entries| && CancelEntries(s, entries[..k]).None?
    ensures CancelEntries(s, entries).None?
  {
    if k == |entries| {
      assert entries[..k] == entries;
    } else {
      assert entries[..|entries| - 1][..k] == entries[..k];
      RaiseStays(s, entries[..|entries| - 1], k);
    }
  }
}

/** Every handler keeps the invariant; hence what holds of every run of the action server. */
module ActionServerRuns {
  import opened Wrappers
  import opened GoalStates
  import opened ActionServerModel
  import opened ActionMonitor
  import opened ActionServerProofs

  /** The goals of s that have not ended, other than u, are untouched in t. */
  ghost predicate OthersKept(s: State, t: State, u: Uuid) {
    && (forall v | v in s.live && v != u && !Terminal(s.live[v].state) ::
      v in s.goals && v in t.goals && t.goals[v] == s.goals[v] && v in t.live && t.live[v] == s.live[v])
    && t.nextTask == s.nextTask
  }

  // ---------- ending a goal ----------

  lemma UpdatedSettled(s: State, e: GoalEvent, info: GoalInfo)
    requires s.goals.Keys == s.live.Keys && SettledBut(s, info.uuid) && info.uuid in s.goals
    requires Transition(s.live[info.uuid].state, e).Some?
    ensures var t := Updated(s, e, info);
            t.goals.Keys == t.live.Keys && SettledBut(t, info.uuid) && OthersKept(s, t, info.uuid)
  {
  }

  lemma ResultedOthers(s: State, t: State, value: TaskValue, u: Uuid, due: seq<Uuid>)
    requires u in t.goals && u in t.live && OthersKept(s, t, u)
    ensures OthersKept(s, Resulted(t, value, u, ExpiredGoals(t.live, due)), u)
  {
  }

  /** The tail shared by success, failure and cancelation: one event that ends the goal, then its result. */
  lemma EndGoal(s: State, e: GoalEvent, value: TaskValue, info: GoalInfo, due: seq<Uuid>)
    requires Core(s) && SettledBut(s, info.uuid) && info.uuid in s.goals
    requires s.goals[info.uuid].response.None?
    requires s.goals[info.uuid].task.Some? ==> s.goals[info.uuid].task.value !in s.running
    requires Transition(s.live[info.uuid].state, e).Some? && Terminal(Transition(s.live[info.uuid].state, e).value)
    ensures UpdateGoalsState(s, e, info).Some?
    ensures var next := SetResult(UpdateGoalsState(s, e, info).value, value, info, due);
            && (next.None? <==> !Usable(value))
            && (next.Some? ==> Inv(next.value) && OthersKept(s, next.value, info.uuid))
  {
    UpdateKeeps(s, e, info);
    if Usable(value) {
      var t := Updated(s, e, info);
      UpdatedSettled(s, e, info);
      SetResultKeeps(t, value, info, due);
      ResultedOthers(s, t, value, info.uuid, due);
    }
  }

  ghost predicate Stoppable(s: State, u: Uuid) {
    u in s.live && s.live[u].state == Executing
  }

  /** The state between Task.shutdown and the canceled event. */
  function ShutDown(s: State, info: GoalInfo): State
    requires info.uuid in s.goals && Stoppable(s, info.uuid) && s.goals[info.uuid].task.Some?
  {
    var t := Updated(s, CancelGoal, info);
    var task := s.goals[info.uuid].task.value;
    t.(running := t.running - {task}, log := After(t.log, TaskShutDown(task)))
  }

  /** t is s after work on u alone that ended u's task and left u canceling. */
  ghost predicate StoppedFrom(s: State, t: State, u: Uuid) {
    && t.goals.Keys == s.goals.Keys && t.live.Keys == s.live.Keys && t.nextTask == s.nextTask
    && (forall v | v in s.goals && v != u :: t.goals[v] == s.goals[v])
    && (forall v | v in s.live && v != u :: t.live[v] == s.live[v])
    && u in t.goals && u in t.live && t.live[u].state == Status.Canceling
    && t.goals[u].response.None?
    && t.goals[u].task.Some? && t.goals[u].task.value !in t.running
  }

  lemma ShutDownShape(s: State, info: GoalInfo)
    requires info.uuid in s.goals && Stoppable(s, info.uuid)
    requires s.goals[info.uuid].task.Some? && s.goals[info.uuid].response.None?
    ensures StoppedFrom(s, ShutDown(s, info), info.uuid)
  {
  }

  lemma ShutDownFrom(s: State, info: GoalInfo)
    requires Inv(s) && info.uuid in s.goals && Stoppable(s, info.uuid)
    ensures s.goals[info.uuid].task.Some?
    ensures StoppedFrom(s, ShutDown(s, info), info.uuid)
  {
    assert Settled(s, info.uuid);
    ShutDownShape(s, info);
  }

  lemma ShutDownSettled(s: State, t: State, u: Uuid, task: nat)
    requires Inv(s) && u in s.goals && s.goals[u].task == Some(task)
    requires StoppedFrom(s, t, u) && t.running == s.running - {task}
    ensures SettledBut(t, u)
  {
  }

  lemma ShutDownCore(s: State, info: GoalInfo)
    requires Core(s) && info.uuid in s.goals && Stoppable(s, info.uuid) && s.goals[info.uuid].task.Some?
    ensures UpdateGoalsState(s, CancelGoal, info) == Some(Updated(s, CancelGoal, info))
    ensures Core(ShutDown(s, info))
  {
    UpdateKeeps(s, CancelGoal, info);
    StoppedCore(Updated(s, CancelGoal, info), s.goals[info.uuid].task.value);
  }

  lemma ShutDownKeeps(s: State, info: GoalInfo)
    requires Inv(s) && info.uuid in s.goals && Stoppable(s, info.uuid)
    ensures UpdateGoalsState(s, CancelGoal, info) == Some(Updated(s, CancelGoal, info))
    ensures s.goals[info.uuid].task.Some?
    ensures Core(ShutDown(s, info)) && SettledBut(ShutDown(s, info), info.uuid)
    ensures StoppedFrom(s, ShutDown(s, info), info.uuid)
  {
    ShutDownFrom(s, info);
    ShutDownCore(s, info);
    ShutDownSettled(s, ShutDown(s, info), info.uuid, s.goals[info.uuid].task.value);
  }

  lemma CancelEnd(s: State, t: State, value: TaskValue, info: GoalInfo, due: seq<Uuid>)
    requires Core(t) && info.uuid in t.goals && SettledBut(t, info.uuid)
    requires s.goals.Keys == s.live.Keys && StoppedFrom(s, t, info.uuid)
    ensures UpdateGoalsState(t, CancelDone, info).Some?
    ensures var next := SetResult(UpdateGoalsState(t, CancelDone, info).value, value, info, due);
            && (next.None? <==> !Usable(value))
            && (next.Some? ==> Inv(next.value) && OthersKept(s, next.value, info.uuid))
  {
    EndGoal(t, CancelDone, value, info, due);
    if Usable(value) {
      OthersFrom(s, t, SetResult(UpdateGoalsState(t, CancelDone, info).value, value, info, due).value, info.uuid);
    }
  }

  lemma OthersFrom(s: State, t: State, end: State, u: Uuid)
    requires s.goals.Keys == s.live.Keys && StoppedFrom(s, t, u) && OthersKept(t, end, u)
    ensures OthersKept(s, end, u)
  {
  }

  lemma CancelRefused(s: State, info: GoalInfo, value: TaskValue, due: seq<Uuid>)
    requires Inv(s) && info.uuid in s.goals && !Stoppable(s, info.uuid)
    ensures CancelLiveGoal(s, info, value, due).None?
  {
  }

  lemma CancelGives(s: State, info: GoalInfo, value: TaskValue, due: seq<Uuid>)
    requires info.uuid in s.goals && Stoppable(s, info.uuid) && s.goals[info.uuid].task.Some?
    requires UpdateGoalsState(s, CancelGoal, info) == Some(Updated(s, CancelGoal, info))
    ensures var canceled := UpdateGoalsState(ShutDown(s, info), CancelDone, info);
            CancelLiveGoal(s, info, value, due) ==
            if canceled.None? then None else SetResult(canceled.value, value, info, due)
  {
  }

  lemma EndGives(s: State, e: GoalEvent, value: TaskValue, info: GoalInfo, due: seq<Uuid>)
    requires info.uuid in s.goals && info.uuid in s.live && Transition(s.live[info.uuid].state, e).Some?
    requires s.goals[info.uuid].handle == Handle(info.uuid, s.live[info.uuid].gen) && Usable(value)
    ensures var t := Updated(s, e, info);
            && UpdateGoalsState(s, e, info) == Some(t)
            && SetResult(t, value, info, due) == Some(Resulted(t, value, info.uuid, ExpiredGoals(t.live, due)))
  {
  }

  /** u has ended canceled, and of the other goals some may have been freed but none has changed. */
  ghost predicate EndedIn(s: State, t: State, u: Uuid) {
    && (forall v | v in t.live && v != u :: v in s.live && t.live[v] == s.live[v])
    && (u in t.live ==> u in s.live && t.live[u].state == Status.Canceled)
  }

  /** The state a canceled goal leaves behind, when the expiry takes us. */
  function CanceledState(s: State, info: GoalInfo, value: TaskValue, us: set<Uuid>): State
    requires info.uuid in s.goals && Stoppable(s, info.uuid) && s.goals[info.uuid].task.Some?
  {
    Resulted(Updated(ShutDown(s, info), CancelDone, info), value, info.uuid, us)
  }

  /** The goals freed by the expiry of the step that cancels a goal. */
  function CancelExpires(s: State, info: GoalInfo, due: seq<Uuid>): set<Uuid>
    requires info.uuid in s.goals && Stoppable(s, info.uuid) && s.goals[info.uuid].task.Some?
  {
    ExpiredGoals(Updated(ShutDown(s, info), CancelDone, info).live, due)
  }

  lemma CanceledGives(t: State, info: GoalInfo, value: TaskValue, due: seq<Uuid>)
    requires Core(t) && info.uuid in t.goals && t.live[info.uuid].state == Status.Canceling && Usable(value)
    ensures var canceled := Updated(t, CancelDone, info);
            && UpdateGoalsState(t, CancelDone, info) == Some(canceled)
            && SetResult(canceled, value, info, due) ==
               Some(Resulted(canceled, value, info.uuid, ExpiredGoals(canceled.live, due)))
  {
    assert AgreeOn(t.goals, Watch(t.log), info.uuid);
    EndGives(t, CancelDone, value, info, due);
  }

  lemma CancelShape(s: State, info: GoalInfo, value: TaskValue, due: seq<Uuid>)
    requires Inv(s) && info.uuid in s.goals && Stoppable(s, info.uuid) && Usable(value)
    ensures s.goals[info.uuid].task.Some?
    ensures CancelLiveGoal(s, info, value, due) ==
            Some(CanceledState(s, info, value, CancelExpires(s, info, due)))
  {
    ShutDownKeeps(s, info);
    CancelGives(s, info, value, due);
    CanceledGives(ShutDown(s, info), info, value, due);
  }

  lemma CancelEnds(s: State, info: GoalInfo, value: TaskValue, us: set<Uuid>)
    requires info.uuid in s.goals && Stoppable(s, info.uuid) && s.goals[info.uuid].task.Some?
    ensures EndedIn(s, CanceledState(s, info, value, us), info.uuid)
  {
  }

  /** Canceling a goal works iff it is executing and the value is usable; then exactly this goal ends canceled. */
  lemma CancelGoalKeeps(s: State, info: GoalInfo, value: TaskValue, due: seq<Uuid>)
    requires Inv(s) && info.uuid in s.goals
    ensures var next := CancelLiveGoal(s, info, value, due);
            && (next.None? <==> !Stoppable(s, info.uuid) || !Usable(value))
            && (next.Some? ==>
              Inv(next.value) && OthersKept(s, next.value, info.uuid) && EndedIn(s, next.value, info.uuid))
  {
    if Stoppable(s, info.uuid) {
      ShutDownKeeps(s, info);
      CancelGives(s, info, value, due);
      CancelEnd(s, ShutDown(s, info), value, info, due);
      if Usable(value) {
        CancelShape(s, info, value, due);
        CancelEnds(s, info, value, CancelExpires(s, info, due));
      }
    } else {
      CancelRefused(s, info, value, due);
    }
  }

  lemma StoppedCore(t: State, task: nat)
    requires Core(t)
    ensures Core(t.(running := t.running - {task}, log := After(t.log, TaskShutDown(task))))
  {
    LogKeeps(t.log, TaskShutDown(task));
  }

  // ---------- cancel requests ----------

  /** The entries name different goals, all of them live and cancelable. */
  ghost predicate Selected(live: Live, entries: seq<CancelEntry>) {
    && (forall i | 0 <= i < |entries| ::
      entries[i].info.uuid in live && Cancelable(live[entries[i].info.uuid].state))
    && forall i, j | 0 <= i < j < |entries| :: entries[i].info.uuid != entries[j].info.uuid
  }

  lemma {:induction false} CancelingSelected(live: Live, wanted: seq<CancelEntry>)
    ensures Selected(live, SelectCanceling(live, wanted))
  {
    if wanted != [] {
      CancelingSelected(live, wanted[..|wanted| - 1]);
    }
  }

  /** Whether handling an entry raises: an answer the handler has no clause for, or a goal with no task. */
  ghost predicate EntryRaises(s: State, e: CancelEntry) {
    match e.decision
    case Accept(value) => !Stoppable(s, e.info.uuid) || value.OtherMap? || value.NotAMap?
    case Reject => false
    case Unexpected => true
  }

  lemma CancelEntryKeeps(s: State, e: CancelEntry)
    requires Inv(s) && e.info.uuid in s.live
    ensures var next := CancelIfAccepted(s, e);
            && (next.None? <==> EntryRaises(s, e))
            && (next.Some? ==> Inv(next.value) && OthersKept(s, next.value, e.info.uuid))
            && (next.Some? ==> if e.decision.Accept? then EndedIn(s, next.value, e.info.uuid) else next.value == s)
  {
    if e.decision.Accept? {
      CancelGoalKeeps(s, e.info, e.decision.value, e.due);
    }
  }

  ghost predicate Named(entries: seq<CancelEntry>, u: Uuid) {
    exists i | 0 <= i < |entries| :: entries[i].info.uuid == u && entries[i].decision.Accept?
  }

  /** A goal that has not ended and that no accepted entry names is untouched. */
  ghost predicate UnnamedKept(s: State, t: State, entries: seq<CancelEntry>) {
    forall v | v in s.live && !Terminal(s.live[v].state) && !Named(entries, v) ::
      v in s.goals && v in t.goals && t.goals[v] == s.goals[v] && v in t.live && t.live[v] == s.live[v]
  }

  /** Exactly the goals that accepted entries name have ended canceled; others may have been freed, not changed. */
  ghost predicate NamedEnded(s: State, t: State, entries: seq<CancelEntry>) {
    forall v | v in t.live ::
      v in s.live && if Named(entries, v) then t.live[v].state == Status.Canceled else t.live[v] == s.live[v]
  }

  lemma NamedStep(s: State, mid: State, t: State, entries: seq<CancelEntry>)
    requires entries != [] && NamedEnded(s, mid, entries[..|entries| - 1])
    requires var e := entries[|entries| - 1];
             if e.decision.Accept? then EndedIn(mid, t, e.info.uuid) else t == mid
    ensures NamedEnded(s, t, entries)
  {
    var (before, e) := (entries[..|entries| - 1], entries[|entries| - 1]);
    forall v | v in t.live
      ensures v in s.live && if Named(entries, v) then t.live[v].state == Status.Canceled else t.live[v] == s.live[v]
    {
      NamedSnoc(entries, v);
    }
  }

  lemma NamedSnoc(entries: seq<CancelEntry>, u: Uuid)
    requires entries != []
    ensures var e := entries[|entries| - 1];
            Named(entries, u) <==> Named(entries[..|entries| - 1], u) || (e.info.uuid == u && e.decision.Accept?)
  {
    var before := entries[..|entries| - 1];
    if Named(before, u) {
      var i :| 0 <= i < |before| && before[i].info.uuid == u && before[i].decision.Accept?;
      assert entries[i] == before[i];
    }
    if Named(entries, u) {
      var i :| 0 <= i < |entries| && entries[i].info.uuid == u && entries[i].decision.Accept?;
      assert i < |before| ==> before[i] == entries[i];
    }
  }

  lemma LastEntry(s: State, mid: State, entries: seq<CancelEntry>)
    requires entries != [] && Selected(s.live, entries)
    requires s.goals.Keys == s.live.Keys && UnnamedKept(s, mid, entries[..|entries| - 1])
    ensures var e := entries[|entries| - 1];
            e.info.uuid in mid.live && (EntryRaises(mid, e) <==> EntryRaises(s, e))
  {
  }

  lemma UnnamedStep(s: State, mid: State, t: State, entries: seq<CancelEntry>)
    requires entries != []
    requires UnnamedKept(s, mid, entries[..|entries| - 1])
    requires OthersKept(mid, t, entries[|entries| - 1].info.uuid)
    requires !entries[|entries| - 1].decision.Accept? ==> t == mid
    ensures UnnamedKept(s, t, entries)
  {
  }

  lemma ElementsOf<T>(xs: seq<T>)
    requires xs != []
    ensures forall x :: x in xs <==> x in xs[..|xs| - 1] || x == xs[|xs| - 1]
  {
  }

  /** The goal entry k names is still in the map when its turn comes. */
  ghost predicate FoundAtItsTurn(s: State, entries: seq<CancelEntry>, k: nat)
    requires k < |entries|
  {
    CancelEntries(s, entries[..k]).Some? ==> entries[k].info.uuid in CancelEntries(s, entries[..k]).value.goals
  }

  ghost predicate AllFound(s: State, entries: seq<CancelEntry>) {
    forall k: nat | k < |entries| :: FoundAtItsTurn(s, entries, k)
  }

  lemma FoundSnoc(s: State, entries: seq<CancelEntry>)
    requires entries != []
    requires AllFound(s, entries[..|entries| - 1]) && FoundAtItsTurn(s, entries, |entries| - 1)
    ensures AllFound(s, entries)
  {
    forall k: nat | k < |entries| ensures FoundAtItsTurn(s, entries, k) {
      if k < |entries| - 1 {
        assert entries[..|entries| - 1][..k] == entries[..k];
        assert FoundAtItsTurn(s, entries[..|entries| - 1], k);
      }
    }
  }

  /**
   Handling the entries raises exactly when one of them does in the state the request found. No goal in
   the list is lost to an expiry on the way, so the "not found" branches are never taken.
   */
  lemma {:induction false} CancelEntriesKeep(s: State, entries: seq<CancelEntry>)
    requires Inv(s) && Selected(s.live, entries)
    ensures CancelEntries(s, entries).None? <==> exists e | e in entries :: EntryRaises(s, e)
    ensures var next := CancelEntries(s, entries);
            next.Some? ==>
              Inv(next.value) && UnnamedKept(s, next.value, entries) && NamedEnded(s, next.value, entries)
    ensures AllFound(s, entries)
  {
    if entries != [] {
      var before, e := entries[..|entries| - 1], entries[|entries| - 1];
      CancelEntriesKeep(s, before);
      ElementsOf(entries);
      var mid := CancelEntries(s, before);
      if mid.Some? {
        LastEntry(s, mid.value, entries);
        CancelEntryKeeps(mid.value, e);
        var t := CancelIfAccepted(mid.value, e);
        if t.Some? {
          UnnamedStep(s, mid.value, t.value, entries);
          NamedStep(s, mid.value, t.value, entries);
        }
      }
      FoundSnoc(s, entries);
    }
  }

  ghost predicate CancelRaises(s: State, take: CancelTake) {
    take.CancelRequest? && exists e | e in SelectCanceling(s.live, take.wanted) :: EntryRaises(s, e)
  }

  lemma HandleCancelKeeps(s: State, take: CancelTake)
    requires Inv(s)
    ensures var next := HandleCancel(s, take);
            && (next.None? <==> CancelRaises(s, take))
            && (next.Some? ==> Inv(next.value))
  {
    if take.CancelRequest? {
      var entries := SelectCanceling(s.live, take.wanted);
      CancelingSelected(s.live, take.wanted);
      CancelEntriesKeep(s, entries);
      var mid := CancelEntries(s, entries);
      if mid.Some? {
        NoteKeeps(mid.value, SentCancel(take.header, Infos(entries)));
      }
    }
  }

  /** Log entries the observer ignores change nothing. */
  lemma NoteKeeps(s: State, e: Event)
    requires Inv(s) && (e.SentCancel? || e.Feedback?)
    ensures Inv(s.(log := After(s.log, e)))
  {
    var t := s.(log := After(s.log, e));
    LogKeeps(s.log, e);
    forall u | u in t.goals ensures Settled(t, u) {
      assert Settled(s, u);
    }
  }

  /** What a cancel request that does not raise has done: to the goals it selects, and to no others. */
  lemma CancelEffect(s: State, take: CancelTake)
    requires Inv(s) && take.CancelRequest? && HandleCancel(s, take).Some?
    ensures var (t, entries) := (HandleCancel(s, take).value, SelectCanceling(s.live, take.wanted));
            && Selected(s.live, entries) && UnnamedKept(s, t, entries) && NamedEnded(s, t, entries)
  {
    CancelingSelected(s.live, take.wanted);
    CancelEntriesKeep(s, SelectCanceling(s.live, take.wanted));
  }

  /** The goal was canceled, and may have been freed since. */
  ghost predicate IsCanceled(t: State, u: Uuid) {
    u in t.live ==> t.live[u].state == Status.Canceled
  }

  ghost predicate KeptIn(s: State, t: State, u: Uuid) {
    && u in s.live && u in t.live && t.live[u] == s.live[u]
    && u in s.goals && u in t.goals && t.goals[u] == s.goals[u]
  }

  lemma AnnouncedEntry(s: State, t: State, entries: seq<CancelEntry>, k: nat)
    requires s.goals.Keys == s.live.Keys && Selected(s.live, entries) && k < |entries|
    requires UnnamedKept(s, t, entries) && NamedEnded(s, t, entries)
    ensures if entries[k].decision.Accept? then IsCanceled(t, entries[k].info.uuid)
            else KeptIn(s, t, entries[k].info.uuid) && !IsCanceled(t, entries[k].info.uuid)
  {
    if entries[k].decision.Accept? {
      assert Named(entries, entries[k].info.uuid);
    } else {
      assert !Named(entries, entries[k].info.uuid);
    }
  }

  /**
   The response to a cancel request announces every goal the request selected. The callback may reject
   some of them, and a rejected goal stays as it was; so the goals announced are those canceled exactly
   when none was rejected.
   */
  lemma AnnouncedAreCanceled(s: State, take: CancelTake)
    requires Inv(s) && take.CancelRequest? && HandleCancel(s, take).Some?
    ensures var (t, entries) := (HandleCancel(s, take).value, SelectCanceling(s.live, take.wanted));
            && t.log.After? && t.log.event.SentCancel? && t.log.event.header == take.header
            && |t.log.event.canceling| == |entries|
            && (forall k | 0 <= k < |entries| :: t.log.event.canceling[k] == entries[k].info)
            && (forall k | 0 <= k < |entries| ::
                  entries[k].decision.Accept? <==> IsCanceled(t, entries[k].info.uuid))
            && (forall k | 0 <= k < |entries| ::
                  !entries[k].decision.Accept? ==> KeptIn(s, t, entries[k].info.uuid))
  {
    var (t, entries) := (HandleCancel(s, take).value, SelectCanceling(s.live, take.wanted));
    CancelEffect(s, take);
    forall k | 0 <= k < |entries|
      ensures if entries[k].decision.Accept? then IsCanceled(t, entries[k].info.uuid)
              else KeptIn(s, t, entries[k].info.uuid) && !IsCanceled(t, entries[k].info.uuid)
    {
      AnnouncedEntry(s, t, entries, k);
    }
  }

  // ---------- cancel notifications ----------

  /** The goals that accepted entries name. */
  function Accepting(entries: seq<CancelEntry>): set<Uuid> {
    set e | e in entries && e.decision.Accept? :: e.info.uuid
  }

  function EndedByOne(live: Live, take: CancelTake): set<Uuid> {
    if take.NoCancel? then {} else Accepting(SelectCanceling(live, take.wanted))
  }

  /** The goals the requests of a batch end, as the registry before the batch tells; they are not selected again. */
  function EndedBy(live: Live, takes: seq<CancelTake>): set<Uuid> {
    if takes == [] then {}
    else
      var (before, last) := (EndedBy(live, takes[..|takes| - 1]), takes[|takes| - 1]);
      before + EndedByOne(live - before, last)
  }

  ghost predicate RequestRaises(s: State, take: CancelTake, ended: set<Uuid>) {
    take.CancelRequest? && exists e | e in SelectCanceling(s.live - ended, take.wanted) :: EntryRaises(s, e)
  }

  ghost predicate RaisesAt(s: State, takes: seq<CancelTake>, i: nat)
    requires i < |takes|
  {
    RequestRaises(s, takes[i], EndedBy(s.live, takes[..i]))
  }

  /**
   When a cancel notification raises, told in the state it finds: some request selects, among the goals no
   earlier request has ended, one that cannot be canceled as its callback decides.
   */
  ghost predicate CancelsRaise(s: State, takes: seq<CancelTake>) {
    exists i: nat :: i < |takes| && RaisesAt(s, takes, i)
  }

  /** t is s after requests that ended exactly these goals. */
  ghost predicate SinceCancels(s: State, t: State, ended: set<Uuid>) {
    && (forall v | v in t.live ::
         v in s.live && if v in ended then t.live[v].state == Status.Canceled else t.live[v] == s.live[v])
    && (forall v | v in s.live && !Terminal(s.live[v].state) && v !in ended :: v in t.live)
  }

  predicate Selectable(live: Live, u: Uuid) {
    u in live && Cancelable(live[u].state)
  }

  lemma {:induction false} SameSelection(live: Live, other: Live, wanted: seq<CancelEntry>)
    requires forall u :: Selectable(live, u) <==> Selectable(other, u)
    ensures SelectCanceling(live, wanted) == SelectCanceling(other, wanted)
  {
    if wanted != [] {
      SameSelection(live, other, wanted[..|wanted| - 1]);
      assert Selectable(live, wanted[|wanted| - 1].info.uuid) <==> Selectable(other, wanted[|wanted| - 1].info.uuid);
    }
  }

  lemma SelectionSince(s: State, mid: State, ended: set<Uuid>, wanted: seq<CancelEntry>)
    requires SinceCancels(s, mid, ended)
    ensures SelectCanceling(mid.live, wanted) == SelectCanceling(s.live - ended, wanted)
  {
    forall u ensures Selectable(mid.live, u) <==> Selectable(s.live - ended, u) {}
    SameSelection(mid.live, s.live - ended, wanted);
  }

  lemma {:induction false} SelectedAre(live: Live, wanted: seq<CancelEntry>)
    ensures forall e | e in SelectCanceling(live, wanted) :: Selectable(live, e.info.uuid)
  {
    if wanted != [] {
      SelectedAre(live, wanted[..|wanted| - 1]);
    }
  }

  lemma RaisesSince(s: State, mid: State, ended: set<Uuid>, take: CancelTake)
    requires SinceCancels(s, mid, ended)
    ensures CancelRaises(mid, take) <==> RequestRaises(s, take, ended)
  {
    if take.CancelRequest? {
      SelectionSince(s, mid, ended, take.wanted);
      SelectedAre(mid.live, take.wanted);
      forall e | e in SelectCanceling(mid.live, take.wanted) ensures EntryRaises(mid, e) <==> EntryRaises(s, e) {
        assert Selectable(mid.live, e.info.uuid);
      }
    }
  }

  lemma NamedAccepting(entries: seq<CancelEntry>, u: Uuid)
    ensures Named(entries, u) <==> u in Accepting(entries)
  {
    if u in Accepting(entries) {
      var e :| e in entries && e.decision.Accept? && e.info.uuid == u;
      var i :| 0 <= i < |entries| && entries[i] == e;
    }
  }

  lemma SinceStep(s: State, mid: State, t: State, ended: set<Uuid>, entries: seq<CancelEntry>)
    requires SinceCancels(s, mid, ended) && UnnamedKept(mid, t, entries) && NamedEnded(mid, t, entries)
    requires mid.goals.Keys == mid.live.Keys
    ensures SinceCancels(s, t, ended + Accepting(entries))
  {
    forall v | v in t.live
      ensures v in s.live
      ensures if v in ended + Accepting(entries) then t.live[v].state == Status.Canceled else t.live[v] == s.live[v]
    {
      NamedAccepting(entries, v);
    }
    forall v | v in s.live && !Terminal(s.live[v].state) && v !in ended + Accepting(entries) ensures v in t.live {
      NamedAccepting(entries, v);
      assert v in mid.live && mid.live[v] == s.live[v];
    }
  }

  lemma RaisesAtPrefix(s: State, takes: seq<CancelTake>, i: nat)
    requires i < |takes| - 1
    ensures RaisesAt(s, takes, i) <==> RaisesAt(s, takes[..|takes| - 1], i)
  {
    assert takes[..|takes| - 1][..i] == takes[..i];
  }

  lemma CancelsRaiseSnoc(s: State, takes: seq<CancelTake>)
    requires takes != []
    ensures CancelsRaise(s, takes) <==> CancelsRaise(s, takes[..|takes| - 1]) || RaisesAt(s, takes, |takes| - 1)
  {
    var before := takes[..|takes| - 1];
    if CancelsRaise(s, before) {
      var i: nat :| i < |before| && RaisesAt(s, before, i);
      RaisesAtPrefix(s, takes, i);
    }
    if CancelsRaise(s, takes) {
      var i: nat :| i < |takes| && RaisesAt(s, takes, i);
      if i < |before| {
        RaisesAtPrefix(s, takes, i);
      }
    }
  }

  lemma OneMoreCancel(s: State, mid: State, ended: set<Uuid>, take: CancelTake)
    requires Inv(mid) && SinceCancels(s, mid, ended)
    ensures HandleCancel(mid, take).None? <==> RequestRaises(s, take, ended)
    ensures var next := HandleCancel(mid, take);
            next.Some? ==> Inv(next.value) && SinceCancels(s, next.value, ended + EndedByOne(s.live - ended, take))
  {
    RaisesSince(s, mid, ended, take);
    HandleCancelKeeps(mid, take);
    if take.CancelRequest? && HandleCancel(mid, take).Some? {
      CancelEffect(mid, take);
      SelectionSince(s, mid, ended, take.wanted);
      SinceStep(s, mid, HandleCancel(mid, take).value, ended, SelectCanceling(mid.live, take.wanted));
    }
  }

  /** A notification of any number of cancel requests raises exactly as told, and else keeps the invariant. */
  lemma {:induction false} CancelsKeepExactly(s: State, takes: seq<CancelTake>)
    requires Inv(s)
    ensures HandleCancels(s, takes).None? <==> CancelsRaise(s, takes)
    ensures var next := HandleCancels(s, takes);
            next.Some? ==> Inv(next.value) && SinceCancels(s, next.value, EndedBy(s.live, takes))
  {
    if takes != [] {
      var (before, last) := (takes[..|takes| - 1], takes[|takes| - 1]);
      CancelsKeepExactly(s, before);
      CancelsRaiseSnoc(s, takes);
      var mid := HandleCancels(s, before);
      if mid.Some? {
        OneMoreCancel(s, mid.value, EndedBy(s.live, before), last);
      }
    }
  }

  lemma {:induction false} HandleCancelsKeep(s: State, takes: seq<CancelTake>)
    requires Inv(s)
    ensures HandleCancels(s, takes).Some? ==> Inv(HandleCancels(s, takes).value)
  {
    if takes != [] {
      HandleCancelsKeep(s, takes[..|takes| - 1]);
      var t := HandleCancels(s, takes[..|takes| - 1]);
      if t.Some? {
        HandleCancelKeeps(t.value, takes[|takes| - 1]);
      }
    }
  }
}

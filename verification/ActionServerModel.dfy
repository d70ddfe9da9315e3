/**
 The action server process as a step function. One message is one handler call; everything the
 handler learns from outside (what a take returned, what a user callback decided, which goals are due
 to expire) is part of the message. The handlers talk to the outside through native calls, which the
 step records in a log, newest entry last.
 */
module ActionServerModel {
  import opened Wrappers
  import opened GoalStates

  const EXPIRE_LIMIT: nat := 100

  // Identities: only equality matters.
  datatype Uuid = Uuid(id: nat)
  datatype Header = Header(id: nat)
  datatype Payload = Payload(id: nat)

  /** A native goal handle. The generation tells two acceptances of one uuid apart, as two pointers would. */
  datatype Handle = Handle(uuid: Uuid, gen: nat)
  datatype NativeGoal = NativeGoal(gen: nat, state: Status)

  datatype GoalInfo = GoalInfo(uuid: Uuid, stamp: int)
  datatype GoalStatus = GoalStatus(info: GoalInfo, status: Status)

  /**
   What an execute or cancel callback handed back: nil or false, a result struct the response message
   takes, another map or struct, which only setting the message refuses, or no map at all.
   */
  datatype TaskValue = Falsy | Struct(result: Payload) | OtherMap | NotAMap

  predicate Usable(value: TaskValue) {
    value.Falsy? || value.Struct?
  }

  datatype ResultMsg = DefaultResult | ResultMsg(result: Payload)
  datatype Response = Response(status: Status, result: ResultMsg)

  datatype Goal = Goal(
    payload: Payload,
    info: GoalInfo,
    handle: Handle,
    response: Option<Response>,
    status: GoalStatus,
    waiting: seq<Header>,
    task: Option<nat>)

  type Goals = map<Uuid, Goal>
  type Live = map<Uuid, NativeGoal>

  datatype Event =
    | GoalAccepted(handle: Handle)
    | GoalAnswered(header: Header, accepted: bool, stamp: int)
    | CallbackSpawned(info: GoalInfo)
    | Transitioned(handle: Handle, event: GoalEvent)
    | Published(statuses: map<Uuid, GoalStatus>)
    | Expired(uuids: set<Uuid>)
    | TookResult(header: Header, uuid: Uuid)
    | SentResult(header: Header, uuid: Uuid, response: Response)
    | SentCancel(header: Header, canceling: seq<GoalInfo>)
    | TaskStarted(task: nat, payload: Payload)
    | TaskShutDown(task: nat)
    | Feedback(uuid: Uuid, feedback: Payload)

  datatype Log = Start | After(log: Log, event: Event)

  /**
   goals is the Elixir map; live and nextGen are the native server's registry; running holds the tasks
   whose result or DOWN message has not been consumed yet, and nextTask the next fresh task reference.
   */
  datatype State = State(
    goals: Goals,
    live: Live,
    nextGen: nat,
    running: set<nat>,
    nextTask: nat,
    log: Log)

  const Init: State := State(map[], map[], 0, {}, 0, Start)

  datatype GoalTake =
    | NoGoal
    | GoalRequest(header: Header, uuid: Uuid, payload: Payload, accept: bool, time: int)

  datatype Decision = Accept(value: TaskValue) | Reject | Unexpected

  /** One goal the cancel request names, the cancel callback's answer for it, and what is due when it ends. */
  datatype CancelEntry = CancelEntry(info: GoalInfo, decision: Decision, due: seq<Uuid>)
  datatype CancelTake = NoCancel | CancelRequest(header: Header, wanted: seq<CancelEntry>)
  datatype ResultTake = NoResult | ResultRequest(header: Header, uuid: Uuid)

  datatype Message =
    | NewGoals(goalTakes: seq<GoalTake>)
    | NewCancels(cancelTakes: seq<CancelTake>)
    | NewResults(resultTakes: seq<ResultTake>)
    | ExecuteGoal(info: GoalInfo)
    | TaskDone(task: nat, value: TaskValue, due: seq<Uuid>)
    | TaskDown(task: nat, due: seq<Uuid>)
    | PublishFeedback(uuid: Uuid, feedback: Payload)

  datatype Outcome = Next(state: State) | Raised

  // ---------- native calls ----------

  predicate HandleIsLive(live: Live, h: Handle) {
    h.uuid in live && live[h.uuid].gen == h.gen
  }

  function UpdateGoalState(s: State, h: Handle, e: GoalEvent): Option<State> {
    if !HandleIsLive(s.live, h) then None
    else
      match Transition(s.live[h.uuid].state, e)
      case None => None
      case Some(t) =>
        Some(s.(live := s.live[h.uuid := NativeGoal(h.gen, t)], log := After(s.log, Transitioned(h, e))))
  }

  /** The goals one expiry call frees: at most EXPIRE_LIMIT of those due, and only terminal ones. */
  function ExpiredGoals(live: Live, due: seq<Uuid>): set<Uuid> {
    var capped := if |due| <= EXPIRE_LIMIT then due else due[..EXPIRE_LIMIT];
    set u | u in capped && u in live && Terminal(live[u].state)
  }

  /** The goals a cancel request selects: named once, live, and in a cancelable state. */
  function SelectCanceling(live: Live, wanted: seq<CancelEntry>): seq<CancelEntry> {
    if wanted == [] then []
    else
      var last := wanted[|wanted| - 1];
      var before := SelectCanceling(live, wanted[..|wanted| - 1]);
      if last.info.uuid in live && Cancelable(live[last.info.uuid].state)
         && forall e | e in before :: e.info.uuid != last.info.uuid
      then before + [last] else before
  }

  // ---------- helpers of the handlers ----------

  function Statuses(goals: Goals): map<Uuid, GoalStatus> {
    map u | u in goals :: goals[u].status
  }

  function UpdateGoalsState(s: State, e: GoalEvent, info: GoalInfo): Option<State> {
    if info.uuid !in s.goals then None
    else
      var goal := s.goals[info.uuid];
      match UpdateGoalState(s, goal.handle, e)
      case None => None
      case Some(t) =>
        if info.uuid !in t.live then None
        else
          var status := GoalStatus(info, t.live[info.uuid].state);
          var goals := t.goals[info.uuid := goal.(status := status)];
          Some(t.(goals := goals, log := After(t.log, Published(Statuses(goals)))))
  }

  function SendAll(log: Log, u: Uuid, headers: seq<Header>, response: Response): Log {
    if headers == [] then log
    else After(SendAll(log, u, headers[..|headers| - 1], response), SentResult(headers[|headers| - 1], u, response))
  }

  function ToMsg(value: TaskValue): ResultMsg {
    if value.Struct? then ResultMsg(value.result) else DefaultResult
  }

  function SetResult(s: State, value: TaskValue, info: GoalInfo, due: seq<Uuid>): Option<State> {
    var u := info.uuid;
    if u !in s.goals || !HandleIsLive(s.live, s.goals[u].handle) || !Usable(value) then None
    else
      var goal := s.goals[u];
      var response := Response(s.live[goal.handle.uuid].state, ToMsg(value));
      var goals := s.goals[u := goal.(response := Some(response), waiting := [], task := None)];
      var expired := ExpiredGoals(s.live, due);
      Some(s.(goals := goals - expired,
              live := s.live - expired,
              log := SendAll(After(s.log, Expired(expired)), u, goal.waiting, response)))
  }

  // ---------- goal requests ----------

  function NewGoal(r: GoalTake, gen: nat): Goal
    requires r.GoalRequest?
  {
    var info := GoalInfo(r.uuid, r.time);
    Goal(r.payload, info, Handle(r.uuid, gen), None, GoalStatus(info, Unknown), [], None)
  }

  predicate IsAccepted(s: State, take: GoalTake) {
    take.GoalRequest? && take.uuid !in s.live && take.accept
  }

  /** The native side of one goal request; the goals map is not touched. */
  function AnswerGoal(s: State, take: GoalTake): State {
    if take.NoGoal? then s
    else if IsAccepted(s, take) then
      s.(live := s.live[take.uuid := NativeGoal(s.nextGen, Accepted)],
         nextGen := s.nextGen + 1,
         log := After(After(After(s.log, GoalAccepted(Handle(take.uuid, s.nextGen))),
                            GoalAnswered(take.header, true, take.time)),
                      CallbackSpawned(GoalInfo(take.uuid, take.time))))
    else s.(log := After(s.log, GoalAnswered(take.header, false, take.time)))
  }

  /** The whole batch against the native server, collecting the entries still to be inserted. */
  function AnswerGoals(s: State, takes: seq<GoalTake>): (State, seq<(Uuid, Goal)>) {
    if takes == [] then (s, [])
    else
      var (t, entries) := AnswerGoals(s, takes[..|takes| - 1]);
      var take := takes[|takes| - 1];
      (AnswerGoal(t, take), if IsAccepted(t, take) then entries + [(take.uuid, NewGoal(take, t.nextGen))] else entries)
  }

  function Insert(goals: Goals, entries: seq<(Uuid, Goal)>): Goals {
    if entries == [] then goals
    else Insert(goals, entries[..|entries| - 1])[entries[|entries| - 1].0 := entries[|entries| - 1].1]
  }

  function HandleGoals(s: State, takes: seq<GoalTake>): State {
    var (t, entries) := AnswerGoals(s, takes);
    t.(goals := Insert(s.goals, entries))
  }

  // ---------- cancel requests ----------

  function CancelLiveGoal(s: State, info: GoalInfo, value: TaskValue, due: seq<Uuid>): Option<State> {
    if info.uuid !in s.goals then Some(s)
    else
      var task := s.goals[info.uuid].task;
      var canceling := UpdateGoalsState(s, CancelGoal, info);
      if canceling.None? || task.None? then None
      else
        var t := canceling.value;
        var stopped := t.(running := t.running - {task.value}, log := After(t.log, TaskShutDown(task.value)));
        var canceled := UpdateGoalsState(stopped, CancelDone, info);
        if canceled.None? then None else SetResult(canceled.value, value, info, due)
  }

  function CancelIfAccepted(s: State, e: CancelEntry): Option<State> {
    if e.info.uuid !in s.goals then Some(s)
    else
      match e.decision
      case Accept(value) => CancelLiveGoal(s, e.info, value, e.due)
      case Reject => Some(s)
      case Unexpected => None
  }

  function CancelEntries(s: State, entries: seq<CancelEntry>): Option<State> {
    if entries == [] then Some(s)
    else
      var t := CancelEntries(s, entries[..|entries| - 1]);
      if t.None? then None else CancelIfAccepted(t.value, entries[|entries| - 1])
  }

  function Infos(entries: seq<CancelEntry>): seq<GoalInfo> {
    seq(|entries|, i requires 0 <= i < |entries| => entries[i].info)
  }

  function HandleCancel(s: State, take: CancelTake): Option<State> {
    if take.NoCancel? then Some(s)
    else
      var entries := SelectCanceling(s.live, take.wanted);
      var t := CancelEntries(s, entries);
      if t.None? then None
      else Some(t.value.(log := After(t.value.log, SentCancel(take.header, Infos(entries)))))
  }

  function HandleCancels(s: State, takes: seq<CancelTake>): Option<State> {
    if takes == [] then Some(s)
    else
      var t := HandleCancels(s, takes[..|takes| - 1]);
      if t.None? then None else HandleCancel(t.value, takes[|takes| - 1])
  }

  // ---------- result requests ----------

  function HandleResult(s: State, take: ResultTake): State {
    if take.NoResult? then s
    else
      var (h, u) := (take.header, take.uuid);
      var took := After(s.log, TookResult(h, u));
      if u !in s.goals then
        s.(log := After(took, SentResult(h, u, Response(Unknown, DefaultResult))))
      else if s.goals[u].response.Some? then
        s.(log := After(took, SentResult(h, u, s.goals[u].response.value)))
      else
        s.(log := took, goals := s.goals[u := s.goals[u].(waiting := [h] + s.goals[u].waiting)])
  }

  function HandleResults(s: State, takes: seq<ResultTake>): State {
    if takes == [] then s
    else HandleResult(HandleResults(s, takes[..|takes| - 1]), takes[|takes| - 1])
  }

  // ---------- execution ----------

  function HandleExecute(s: State, info: GoalInfo): Option<State> {
    if info.uuid !in s.goals then Some(s)
    else
      match UpdateGoalsState(s, Execute, info)
      case None => None
      case Some(t) =>
        Some(t.(goals := t.goals[info.uuid := t.goals[info.uuid].(task := Some(t.nextTask))],
                running := t.running + {t.nextTask},
                nextTask := t.nextTask + 1,
                log := After(t.log, TaskStarted(t.nextTask, t.goals[info.uuid].payload))))
  }

  /** The goal a task belongs to: any one of those that hold the reference. */
  ghost function FindGoal(goals: Goals, task: nat): Option<Uuid> {
    if u :| u in goals && goals[u].task == Some(task) then Some(u) else None
  }

  ghost function HandleTask(s: State, task: nat, e: GoalEvent, value: TaskValue, due: seq<Uuid>): Option<State> {
    var found := FindGoal(s.goals, task);
    if found.None? then None
    else
      var info := s.goals[found.value].info;
      match UpdateGoalsState(s.(running := s.running - {task}), e, info)
      case None => None
      case Some(t) => SetResult(t, value, info, due)
  }

  ghost function Step(s: State, m: Message): Outcome {
    var next := match m
      case NewGoals(takes) => Some(HandleGoals(s, takes))
      case NewCancels(takes) => HandleCancels(s, takes)
      case NewResults(takes) => Some(HandleResults(s, takes))
      case ExecuteGoal(info) => HandleExecute(s, info)
      case TaskDone(task, value, due) => HandleTask(s, task, Succeed, value, due)
      case TaskDown(task, due) => HandleTask(s, task, Abort, Falsy, due)
      case PublishFeedback(u, f) => Some(s.(log := After(s.log, Feedback(u, f))));
    if next.None? then Raised else Next(next.value)
  }

  /** A task message can only come from a task that is still being watched, and notifications are nonempty. */
  predicate Enabled(s: State, m: Message) {
    match m
    case NewGoals(takes) => takes != []
    case NewCancels(takes) => takes != []
    case NewResults(takes) => takes != []
    case TaskDone(task, _, _) => task in s.running
    case TaskDown(task, _) => task in s.running
    case _ => true
  }

  ghost predicate StepAt(states: seq<State>, msgs: seq<Message>, i: nat)
    requires i < |msgs| && |states| == |msgs| + 1
  {
    Enabled(states[i], msgs[i]) && Step(states[i], msgs[i]) == Next(states[i + 1])
  }

  /** states are the states at the handler boundaries of a run over msgs. */
  ghost predicate Run(states: seq<State>, msgs: seq<Message>) {
    && |states| == |msgs| + 1
    && states[0] == Init
    && forall i | 0 <= i < |msgs| :: StepAt(states, msgs, i)
  }
}

/**
 The clock process: a native clock whose time may be overridden, and the tf2 buffers registered with it,
 which have to be emptied whenever time jumps. clears counts how often each buffer was emptied.
 */
module Clock {
  datatype ClockType = SystemTime | SteadyTime | RosTime

  type Resource = nat
  type Monitor = nat

  datatype Reply = Ok | NotRosTime

  /** active and value belong to the native clock, monitors are those the runtime holds for the process. */
  datatype State = State(
    kind: ClockType,
    active: bool,
    value: int,
    enabled: bool,
    buffers: map<Resource, Monitor>,
    monitors: set<Monitor>,
    nextMonitor: Monitor,
    clears: multiset<Resource>)

  function Init(kind: ClockType): State {
    State(kind, false, 0, false, map[], {}, 0, multiset{})
  }

  /** system is what the native clock reads when its time is not overridden. */
  datatype Message =
    | Enable
    | Disable
    | Set(ns: int, system: int)
    | Register(resource: Resource)
    | Unregister(resource: Resource)
    | Down(monitor: Monitor)

  function Now(active: bool, value: int, system: int): int {
    if active then value else system
  }

  // ---------- the handlers ----------

  function ClearIf(s: State, jump: bool): State {
    if jump then s.(clears := s.clears + multiset(s.buffers.Keys)) else s
  }

  function Without(buffers: map<Resource, Monitor>, m: Monitor): map<Resource, Monitor> {
    map r | r in buffers && buffers[r] != m :: buffers[r]
  }

  function Step(s: State, m: Message): State {
    match m
    case Enable =>
      if s.kind != RosTime then s else ClearIf(s.(active := true), !s.enabled).(enabled := true)
    case Disable =>
      if s.kind != RosTime then s else ClearIf(s.(active := false), s.enabled).(enabled := false)
    case Set(ns, system) =>
      if s.kind != RosTime then s
      else ClearIf(s.(value := ns), s.enabled && ns < Now(s.active, s.value, system))
    case Register(r) =>
      if r in s.buffers then s
      else
        s.(buffers := s.buffers[r := s.nextMonitor], monitors := s.monitors + {s.nextMonitor},
           nextMonitor := s.nextMonitor + 1)
    case Unregister(r) =>
      if r !in s.buffers then s
      else s.(buffers := s.buffers - {r}, monitors := s.monitors - {s.buffers[r]})
    case Down(monitor) => s.(buffers := Without(s.buffers, monitor), monitors := s.monitors - {monitor})
  }

  function ReplyTo(s: State, m: Message): Reply {
    if (m.Enable? || m.Disable? || m.Set?) && s.kind != RosTime then NotRosTime else Ok
  }

  // ---------- the invariant ----------

  predicate Holds(buffers: map<Resource, Monitor>, r: Resource, m: Monitor) {
    r in buffers && buffers[r] == m
  }

  ghost predicate Used(buffers: map<Resource, Monitor>, m: Monitor) {
    exists r :: Holds(buffers, r, m)
  }

  ghost predicate Inv(s: State) {
    && s.enabled == s.active && (s.enabled ==> s.kind == RosTime)
    && (forall r | r in s.buffers :: s.buffers[r] < s.nextMonitor)
    && (forall r, q, m :: Holds(s.buffers, r, m) && Holds(s.buffers, q, m) ==> r == q)
    && (forall m :: m in s.monitors <==> Used(s.buffers, m))
  }

  /** Time jumps when the override is switched, or when it stays on and its time goes back. */
  predicate Jump(s: State, t: State) {
    s.enabled != t.enabled || (s.enabled && t.value < s.value)
  }

  lemma MonitorsKept(s: State, m: Message)
    requires Inv(s)
    ensures var t := Step(s, m);
            && (forall r | r in t.buffers :: t.buffers[r] < t.nextMonitor)
            && (forall r, q, n :: Holds(t.buffers, r, n) && Holds(t.buffers, q, n) ==> r == q)
  {
    var t := Step(s, m);
    forall r, q, n | Holds(t.buffers, r, n) && Holds(t.buffers, q, n) ensures r == q {
      assert Holds(s.buffers, r, n) || n == s.nextMonitor;
      assert Holds(s.buffers, q, n) || n == s.nextMonitor;
    }
  }

  /** The runtime holds a monitor for each registered buffer and no other. */
  lemma NoMonitorLeaks(s: State, m: Message)
    requires Inv(s)
    ensures forall n :: n in Step(s, m).monitors <==> Used(Step(s, m).buffers, n)
  {
    forall n ensures n in Step(s, m).monitors <==> Used(Step(s, m).buffers, n) {
      MonitorKept(s, m, n);
    }
  }

  lemma MonitorKept(s: State, m: Message, n: Monitor)
    requires Inv(s)
    ensures n in Step(s, m).monitors <==> Used(Step(s, m).buffers, n)
  {
    var t := Step(s, m);
    if Used(s.buffers, n) {
      var r :| Holds(s.buffers, r, n);
      assert Holds(t.buffers, r, n) || m == Unregister(r) || m == Down(n);
    }
    if Used(t.buffers, n) {
      var r :| Holds(t.buffers, r, n);
      assert Holds(s.buffers, r, n) || (m == Register(r) && n == s.nextMonitor);
      assert m.Unregister? && m.resource in s.buffers ==> Holds(s.buffers, m.resource, s.buffers[m.resource]);
    }
    assert m.Register? && m.resource !in s.buffers ==> Holds(t.buffers, m.resource, s.nextMonitor);
  }

  /** A step keeps the invariant, and empties every registered buffer once if time jumps and none if not. */
  lemma StepKeeps(s: State, m: Message)
    requires Inv(s)
    ensures var t := Step(s, m);
            && Inv(t) && t.kind == s.kind
            && t.clears == if Jump(s, t) then s.clears + multiset(s.buffers.Keys) else s.clears
    ensures ReplyTo(s, m) == NotRosTime ==> Step(s, m) == s
  {
    MonitorsKept(s, m);
    NoMonitorLeaks(s, m);
  }

  /**
   On a ROS clock the override is on after it is enabled, off after it is disabled, and has the time that was
   set last; any other clock refuses all three and stays as it is.
   */
  lemma OverrideEffect(s: State, m: Message)
    requires Inv(s) && (m.Enable? || m.Disable? || m.Set?)
    ensures s.kind != RosTime <==> ReplyTo(s, m) == NotRosTime
    ensures s.kind != RosTime ==> Step(s, m) == s
    ensures s.kind == RosTime ==>
              var t := Step(s, m);
              && t.active == t.enabled == (if m.Enable? then true else if m.Disable? then false else s.enabled)
              && t.value == (if m.Set? then m.ns else s.value)
              && t == s.(active := t.active, enabled := t.enabled, value := t.value, clears := t.clears)
  {
  }

  // ---------- every run ----------

  predicate StepAt(states: seq<State>, msgs: seq<Message>, i: nat)
    requires i < |msgs| && |states| == |msgs| + 1
  {
    states[i + 1] == Step(states[i], msgs[i])
  }

  ghost predicate Run(kind: ClockType, states: seq<State>, msgs: seq<Message>) {
    && |states| == |msgs| + 1 && states[0] == Init(kind)
    && forall i | 0 <= i < |msgs| :: StepAt(states, msgs, i)
  }

  lemma {:induction false} RunKeeps(kind: ClockType, states: seq<State>, msgs: seq<Message>, i: nat)
    requires Run(kind, states, msgs) && i <= |msgs|
    ensures Inv(states[i]) && states[i].kind == kind
  {
    if i > 0 {
      RunKeeps(kind, states, msgs, i - 1);
      assert StepAt(states, msgs, i - 1);
      StepKeeps(states[i - 1], msgs[i - 1]);
    }
  }

  ghost predicate Registered(states: seq<State>, r: Resource, i: nat, j: nat) {
    i <= j < |states| && forall k | i <= k <= j :: r in states[k].buffers
  }

  lemma {:induction false} ClearsGrow(
    kind: ClockType, states: seq<State>, msgs: seq<Message>, r: Resource, i: nat, j: nat)
    requires Run(kind, states, msgs) && i <= j <= |msgs|
    ensures states[i].clears[r] <= states[j].clears[r]
  {
    if i < j {
      ClearsGrow(kind, states, msgs, r, i, j - 1);
      RunKeeps(kind, states, msgs, j - 1);
      assert StepAt(states, msgs, j - 1);
      StepKeeps(states[j - 1], msgs[j - 1]);
    }
  }

  /**
   A buffer that stays registered and is not emptied between two states of a run has seen no switch of the
   override in between, and while the override is on, no time that goes back.
   */
  lemma {:induction false} TimeNeverGoesBack(
    kind: ClockType, states: seq<State>, msgs: seq<Message>, r: Resource, i: nat, j: nat)
    requires Run(kind, states, msgs) && Registered(states, r, i, j)
    requires states[i].clears[r] == states[j].clears[r]
    ensures states[i].enabled == states[j].enabled
    ensures states[i].enabled ==> states[i].value <= states[j].value
  {
    if i < j {
      ClearsGrow(kind, states, msgs, r, i, j - 1);
      ClearsGrow(kind, states, msgs, r, j - 1, j);
      TimeNeverGoesBack(kind, states, msgs, r, i, j - 1);
      RunKeeps(kind, states, msgs, j - 1);
      assert StepAt(states, msgs, j - 1);
      StepKeeps(states[j - 1], msgs[j - 1]);
    }
  }

  /** The time of the last set request of the first i, kept even if the override was off when it came. */
  function LastSet(msgs: seq<Message>, i: nat): int
    requires i <= |msgs|
  {
    if i == 0 then 0 else if msgs[i - 1].Set? then msgs[i - 1].ns else LastSet(msgs, i - 1)
  }

  /** With the override on, the clock reads the time set last. */
  lemma {:induction false} ReadsLastOverride(kind: ClockType, states: seq<State>, msgs: seq<Message>, i: nat)
    requires Run(kind, states, msgs) && i <= |msgs| && kind == RosTime
    ensures states[i].value == LastSet(msgs, i)
    ensures states[i].enabled ==> forall system :: Now(states[i].active, states[i].value, system) == LastSet(msgs, i)
  {
    RunKeeps(kind, states, msgs, i);
    if i > 0 {
      ReadsLastOverride(kind, states, msgs, i - 1);
      RunKeeps(kind, states, msgs, i - 1);
      assert StepAt(states, msgs, i - 1);
    }
  }

  /** The death of an owner takes away exactly the one buffer registered under that monitor. */
  lemma DownRemovesOne(kind: ClockType, states: seq<State>, msgs: seq<Message>, i: nat, r: Resource)
    requires Run(kind, states, msgs) && i <= |msgs| && r in states[i].buffers
    ensures Step(states[i], Down(states[i].buffers[r])) == Step(states[i], Unregister(r))
    ensures Step(states[i], Down(states[i].buffers[r])).buffers == states[i].buffers - {r}
  {
    RunKeeps(kind, states, msgs, i);
    UsedDown(states[i], r);
  }

  lemma UsedDown(s: State, r: Resource)
    requires Inv(s) && r in s.buffers
    ensures Step(s, Down(s.buffers[r])) == Step(s, Unregister(r))
  {
    var (buffers, m) := (s.buffers, s.buffers[r]);
    forall q | q in buffers ensures buffers[q] == m <==> q == r {
      assert Holds(buffers, r, m);
      assert Holds(buffers, q, buffers[q]);
    }
    assert Without(buffers, m) == buffers - {r};
  }

  /**
   A monitor given up, because its buffer was unregistered or its owner died, is never used again: a down
   message for it changes nothing, even if the buffer was registered anew.
   */
  lemma {:induction false} StaleMonitor(
    kind: ClockType, states: seq<State>, msgs: seq<Message>, i: nat, j: nat, m: Monitor)
    requires Run(kind, states, msgs) && i <= j <= |msgs|
    requires m < states[i].nextMonitor && !Used(states[i].buffers, m)
    ensures m < states[j].nextMonitor && !Used(states[j].buffers, m)
    ensures Step(states[j], Down(m)) == states[j]
  {
    if i < j {
      StaleMonitor(kind, states, msgs, i, j - 1, m);
      assert StepAt(states, msgs, j - 1);
    }
    RunKeeps(kind, states, msgs, j);
    UnusedDown(states[j], m);
  }

  lemma UnusedDown(s: State, m: Monitor)
    requires Inv(s) && !Used(s.buffers, m)
    ensures Step(s, Down(m)) == s
  {
    forall r | r in s.buffers ensures s.buffers[r] != m {
      assert !Holds(s.buffers, r, m);
    }
    assert Without(s.buffers, m) == s.buffers;
  }
}

/** The clock process as its handlers run it, over a native clock it holds. */
module ClockProcess {
  import opened Clock

  class NativeClock {
    var active: bool
    var value: int

    constructor ()
      ensures !active && value == 0
    {
      active, value := false, 0;
    }

    method GetNow(system: int) returns (ns: int)
      ensures ns == Now(active, value, system)
    {
      ns := if active then value else system;
    }

    method EnableOverride()
      modifies this
      ensures active && value == old(value)
    {
      active := true;
    }

    method DisableOverride()
      modifies this
      ensures !active && value == old(value)
    {
      active := false;
    }

    method SetOverride(ns: int)
      modifies this
      ensures active == old(active) && value == ns
    {
      value := ns;
    }
  }

  class ClockServer {
    const kind: ClockType
    const native: NativeClock
    var enabled: bool
    var buffers: map<Resource, Monitor>
    /** The monitors the runtime holds for this process. */
    var monitors: set<Monitor>
    var nextMonitor: Monitor
    /** How often each tf2 buffer was cleared. */
    var clears: multiset<Resource>

    constructor (kind: ClockType)
      ensures fresh(native) && Valid() && Model() == Init(kind)
    {
      this.kind := kind;
      native := new NativeClock();
      enabled, buffers, monitors, nextMonitor, clears := false, map[], {}, 0, multiset{};
    }

    ghost function Model(): State
      reads this, native
    {
      State(kind, native.active, native.value, enabled, buffers, monitors, nextMonitor, clears)
    }

    ghost predicate Valid()
      reads this, native
    {
      Inv(Model())
    }

    method ClearTf2Buffers()
      modifies this`clears
      ensures clears == old(clears) + multiset(buffers.Keys)
    {
      var left := buffers.Keys;
      while left != {}
        invariant left <= buffers.Keys
        invariant clears + multiset(left) == old(clears) + multiset(buffers.Keys)
      {
        var resource :| resource in left;
        assert multiset(left) == multiset(left - {resource}) + multiset{resource};
        clears := clears + multiset{resource};
        left := left - {resource};
      }
    }

    method EnableRosTimeOverride() returns (reply: Reply)
      requires Valid()
      modifies this, native
      ensures Valid() && Model() == Step(old(Model()), Enable)
      ensures reply == if kind == RosTime then Ok else NotRosTime
      ensures kind == RosTime ==> enabled && native.active && native.value == old(native.value)
      ensures kind != RosTime ==> Model() == old(Model())
    {
      StepKeeps(Model(), Enable);
      if kind != RosTime {
        return NotRosTime;
      }
      native.EnableOverride();
      if !enabled {
        ClearTf2Buffers();
      }
      enabled := true;
      return Ok;
    }

    method DisableRosTimeOverride() returns (reply: Reply)
      requires Valid()
      modifies this, native
      ensures Valid() && Model() == Step(old(Model()), Disable)
      ensures reply == if kind == RosTime then Ok else NotRosTime
      ensures kind == RosTime ==> !enabled && !native.active && native.value == old(native.value)
      ensures kind != RosTime ==> Model() == old(Model())
    {
      StepKeeps(Model(), Disable);
      if kind != RosTime {
        return NotRosTime;
      }
      native.DisableOverride();
      if enabled {
        ClearTf2Buffers();
      }
      enabled := false;
      return Ok;
    }

    method SetRosTimeOverride(ns: int, system: int) returns (reply: Reply)
      requires Valid()
      modifies this, native
      ensures Valid() && Model() == Step(old(Model()), Set(ns, system))
      ensures reply == if kind == RosTime then Ok else NotRosTime
      ensures kind == RosTime ==> native.value == ns && enabled == old(enabled)
      ensures kind != RosTime ==> Model() == old(Model())
    {
      StepKeeps(Model(), Set(ns, system));
      if kind != RosTime {
        return NotRosTime;
      }
      var previous := native.GetNow(system);
      native.SetOverride(ns);
      if enabled && ns < previous {
        ClearTf2Buffers();
      }
      return Ok;
    }

    /** A new buffer gets a monitor no other has or had; a buffer already there keeps its own. */
    method RegisterTf2Buffer(resource: Resource) returns (reply: Reply)
      requires Valid()
      modifies this`buffers, this`monitors, this`nextMonitor
      ensures Valid() && Model() == Step(old(Model()), Register(resource)) && reply == Ok
      ensures buffers.Keys == old(buffers.Keys) + {resource}
      ensures forall r | r in old(buffers) :: buffers[r] == old(buffers)[r]
      ensures resource !in old(buffers) ==> buffers[resource] !in old(monitors) && buffers[resource] >= old(nextMonitor)
    {
      StepKeeps(Model(), Register(resource));
      if resource !in buffers {
        buffers, monitors := buffers[resource := nextMonitor], monitors + {nextMonitor};
        nextMonitor := nextMonitor + 1;
      }
      return Ok;
    }

    /** Takes the buffer and its monitor away, so that a down message already sent for it finds nothing. */
    method UnregisterTf2Buffer(resource: Resource) returns (reply: Reply)
      requires Valid()
      modifies this`buffers, this`monitors
      ensures Valid() && Model() == Step(old(Model()), Unregister(resource)) && reply == Ok
      ensures buffers.Keys == old(buffers.Keys) - {resource}
      ensures forall r | r in buffers :: buffers[r] == old(buffers)[r]
      ensures resource in old(buffers) ==>
                var m := old(buffers)[resource];
                m !in monitors && !Used(buffers, m) && Step(Model(), Down(m)) == Model()
    {
      ghost var was := Model();
      StepKeeps(was, Unregister(resource));
      if resource in buffers {
        var monitor := buffers[resource];
        buffers, monitors := buffers - {resource}, monitors - {monitor};
        assert Model() == Step(was, Unregister(resource));
        UnusedDown(Model(), monitor);
      }
      return Ok;
    }

    /** The death of an owner takes away the one buffer registered under its monitor, or nothing if there is none. */
    method OwnerDown(monitor: Monitor)
      requires Valid()
      modifies this`buffers, this`monitors
      ensures Valid() && Model() == Step(old(Model()), Down(monitor))
      ensures forall r | r in old(buffers) && old(buffers)[r] == monitor :: buffers == old(buffers) - {r}
      ensures monitor !in old(monitors) ==> buffers == old(buffers) && monitors == old(monitors)
      ensures monitor !in monitors
    {
      ghost var was := Model();
      StepKeeps(was, Down(monitor));
      forall r | r in buffers && buffers[r] == monitor ensures Step(was, Down(monitor)).buffers == buffers - {r} {
        UsedDown(was, r);
      }
      if monitor !in monitors {
        UnusedDown(was, monitor);
      }
      buffers := map r | r in buffers && buffers[r] != monitor :: buffers[r];
      monitors := monitors - {monitor};
    }
  }
}

/**
 The introspection clock of a service client. Introspection needs a native clock for as long as rcl
 publishes the service events; the client creates it when introspection is turned on, keeps it while the
 detail is switched, and finalizes it when introspection is turned off, when turning it on fails, and
 when the process terminates. A raised error crashes the process, whose termination then runs on the
 state before the failing call. Which native call fails is a parameter of every step.
 */
module Introspection {
  import opened Wrappers

  datatype Mode = Off | Metadata | Contents

  datatype Fault = NoFault | TypeSupport | ClockInit | Configure | ClearCallback | ClientFini

  /**
   The native side: clocks 0 to created - 1 were made; finalized says how often each was finalized;
   publisher is the clock rcl stamps service events with; torn records that a clock was finalized while
   rcl still used it.
   */
  datatype Native = Native(created: nat, finalized: multiset<nat>, publisher: Option<nat>, torn: bool)

  /** Starting is before init; Crashed is between a raised error and the termination it causes. */
  datatype Phase = Starting | Running | Crashed | Ended

  datatype State = State(phase: Phase, clock: Option<nat>, native: Native)

  const Init: State := State(Starting, None, Native(0, multiset{}, None, false))

  datatype Message =
    | Start(mode: Mode, fault: Fault)
    | Reconfigure(mode: Mode, fault: Fault)
    | Terminate(fault: Fault)

  /** What a call returns or raises, and the native side it leaves either way. */
  datatype Outcome = Returned(clock: Option<nat>, native: Native) | Raised(native: Native)

  // ---------- the native calls ----------

  function InitClock(n: Native): Native {
    n.(created := n.created + 1)
  }

  function FiniClock(n: Native, c: nat): Native {
    n.(finalized := n.finalized + multiset{c}, torn := n.torn || n.publisher == Some(c))
  }

  function ConfigureNative(n: Native, c: nat, mode: Mode): Native {
    n.(publisher := if mode == Off then None else Some(c))
  }

  // ---------- the client ----------

  function StartIntrospection(n: Native, mode: Mode, fault: Fault): Outcome {
    if mode == Off then Returned(None, n)
    else if fault == ClockInit then Raised(n)
    else
      var (c, made) := (n.created, InitClock(n));
      if fault == TypeSupport || fault == Configure then Raised(FiniClock(made, c))
      else Returned(Some(c), ConfigureNative(made, c, mode))
  }

  function ReconfigureIntrospection(n: Native, clock: Option<nat>, mode: Mode, fault: Fault): Outcome {
    match clock
    case None => StartIntrospection(n, mode, fault)
    case Some(c) =>
      if fault == TypeSupport || fault == Configure then Raised(n)
      else if mode == Off then Returned(None, FiniClock(ConfigureNative(n, c, Off), c))
      else Returned(Some(c), ConfigureNative(n, c, mode))
  }

  /** Clears the callback, finalizes the native client with its publisher, then the clock if there is one. */
  function TerminateClient(n: Native, clock: Option<nat>, fault: Fault): Native {
    if fault == ClearCallback || fault == ClientFini then n
    else
      var closed := n.(publisher := None);
      match clock
      case None => closed
      case Some(c) => FiniClock(closed, c)
  }

  /** A process whose init raises is never terminated; one that crashes in a call is, on the state it had. */
  function Step(s: State, m: Message): State {
    match m
    case Start(mode, fault) =>
      (match StartIntrospection(s.native, mode, fault)
       case Returned(clock, native) => State(Running, clock, native)
       case Raised(native) => State(Ended, None, native))
    case Reconfigure(mode, fault) =>
      (match ReconfigureIntrospection(s.native, s.clock, mode, fault)
       case Returned(clock, native) => State(Running, clock, native)
       case Raised(native) => State(Crashed, s.clock, native))
    case Terminate(fault) => State(Ended, s.clock, TerminateClient(s.native, s.clock, fault))
  }

  predicate Enabled(s: State, m: Message) {
    match m
    case Start(_, _) => s.phase == Starting
    case Reconfigure(_, _) => s.phase == Running
    case Terminate(_) => s.phase == Running || s.phase == Crashed
  }

  // ---------- conservation ----------

  function Bit(b: bool): nat {
    if b then 1 else 0
  }

  /** The one clock a state still owes a finalization. */
  predicate Owns(s: State, c: nat) {
    s.phase != Ended && s.clock == Some(c)
  }

  /** Every clock made was finalized once or is the one the process holds; rcl publishes with no other. */
  ghost predicate Conserved(s: State) {
    && (forall c: nat :: s.native.finalized[c] + Bit(Owns(s, c)) == Bit(c < s.native.created))
    && s.native.publisher == (if s.phase == Ended then None else s.clock)
    && !s.native.torn
  }

  /** The terminations that get as far as the clock. */
  predicate ReachesClock(s: State, m: Message) {
    m.Terminate? ==> s.clock.None? || (m.fault != ClearCallback && m.fault != ClientFini)
  }

  lemma StartConserves(s: State, mode: Mode, fault: Fault)
    requires Conserved(s) && s.phase == Starting && s.clock.None?
    ensures Conserved(Step(s, Start(mode, fault)))
  {
  }

  lemma ReconfigureConserves(s: State, mode: Mode, fault: Fault)
    requires Conserved(s) && s.phase == Running
    ensures var t := Step(s, Reconfigure(mode, fault));
            && Conserved(t)
            && (t.phase == Running ==> (t.clock.Some? <==> mode != Off))
            && (t.phase == Crashed ==> t.clock == s.clock)
            && (s.clock.Some? && t.clock.Some? ==> t.clock == s.clock && t.native.created == s.native.created)
  {
  }

  /** A termination conserves the clocks exactly when it gets as far as the clock, or there is none. */
  lemma TerminateConserves(s: State, fault: Fault)
    requires Conserved(s) && (s.phase == Running || s.phase == Crashed)
    ensures Conserved(Step(s, Terminate(fault))) <==> ReachesClock(s, Terminate(fault))
  {
  }

  /** The native calls of a switch that can fail: to turn it on the clock too, with a clock held only the rest. */
  predicate Fails(clock: Option<nat>, mode: Mode, fault: Fault) {
    || (fault == ClockInit && clock.None? && mode != Off)
    || ((fault == TypeSupport || fault == Configure) && (clock.Some? || mode != Off))
  }

  /**
   A switch, or a start, goes through unless one of its own native calls fails. Then rcl publishes with the
   clock the process holds: the one it held, or a new one, if introspection is on, and none if it is off. A
   clock no longer held is finalized. If a call fails the switch crashes and the process keeps what it had.
   */
  lemma SwitchEffect(s: State, m: Message)
    requires Conserved(s) && Enabled(s, m) && !m.Terminate? && (m.Start? ==> s.clock.None?)
    ensures var t := Step(s, m);
            if Fails(s.clock, m.mode, m.fault) then
              && t.native.publisher == s.native.publisher
              && if m.Start? then t.phase == Ended && t.clock.None? else t.phase == Crashed && t.clock == s.clock
            else
              && t.phase == Running && t.native.publisher == t.clock
              && (m.mode == Off ==> t.clock.None? && t.native.created == s.native.created)
              && (m.mode != Off && s.clock.Some? ==> t.clock == s.clock && t.native.created == s.native.created)
              && (m.mode != Off && s.clock.None? ==>
                t.clock == Some(s.native.created) && t.native.created == s.native.created + 1)
              && (s.clock.Some? && t.clock.None? ==>
                t.native.finalized[s.clock.value] == s.native.finalized[s.clock.value] + 1)
  {
  }

  // ---------- every run ----------

  predicate StepAt(states: seq<State>, msgs: seq<Message>, i: nat)
    requires i < |msgs| && |states| == |msgs| + 1
  {
    Enabled(states[i], msgs[i]) && states[i + 1] == Step(states[i], msgs[i])
  }

  ghost predicate Run(states: seq<State>, msgs: seq<Message>) {
    && |states| == |msgs| + 1 && states[0] == Init
    && forall i | 0 <= i < |msgs| :: StepAt(states, msgs, i)
  }

  /** The termination of the run, if it has one by step i, got as far as the clock. */
  ghost predicate Clean(states: seq<State>, msgs: seq<Message>, i: nat)
    requires i <= |msgs| && |states| == |msgs| + 1
  {
    forall j | 0 <= j < i :: ReachesClock(states[j], msgs[j])
  }

  /** Up to its end a run is conserved; ended, it is exactly when its termination was clean. */
  lemma {:induction false} RunConserves(states: seq<State>, msgs: seq<Message>, i: nat)
    requires Run(states, msgs) && i <= |msgs|
    ensures Conserved(states[i]) <==> Clean(states, msgs, i)
    ensures states[i].phase != Ended ==> Conserved(states[i])
    ensures states[i].phase == Starting ==> states[i].clock.None?
  {
    if i > 0 {
      RunConserves(states, msgs, i - 1);
      assert StepAt(states, msgs, i - 1);
      assert Clean(states, msgs, i) <==> Clean(states, msgs, i - 1) && ReachesClock(states[i - 1], msgs[i - 1]);
      match msgs[i - 1]
      case Start(mode, fault) => StartConserves(states[i - 1], mode, fault);
      case Reconfigure(mode, fault) => ReconfigureConserves(states[i - 1], mode, fault);
      case Terminate(fault) => TerminateConserves(states[i - 1], fault);
    }
  }

  lemma {:induction false} CountUpTo(m: multiset<nat>, n: nat)
    requires forall c: nat :: m[c] == Bit(c < n)
    ensures |m| == n
  {
    if n == 0 {
      assert m == multiset{};
    } else {
      var rest := m - multiset{n - 1};
      assert m == rest + multiset{n - 1};
      CountUpTo(rest, n - 1);
    }
  }

  lemma FinalizedCount(s: State)
    requires Conserved(s)
    ensures s.native.created - |s.native.finalized| == Bit(s.phase != Ended && s.clock.Some?)
  {
    var held := if s.phase != Ended && s.clock.Some? then multiset{s.clock.value} else multiset{};
    CountUpTo(s.native.finalized + held, s.native.created);
  }

  /**
   In every state a run reaches before it ends, also between a raised switch and the termination it causes,
   clocks created minus clocks finalized is one when the process holds a clock and zero when it does not, rcl
   publishes with that clock and no other, none was finalized twice, and none while rcl still published with
   it. The process holds a clock exactly when the last switch that went through turned introspection on: the
   switch just made if it runs, and if that one raised, the one before.
   */
  lemma ClocksConserved(states: seq<State>, msgs: seq<Message>, i: nat)
    requires Run(states, msgs) && i <= |msgs| && states[i].phase != Ended
    ensures var (s, n) := (states[i], states[i].native);
            && n.created - |n.finalized| == Bit(s.clock.Some?)
            && n.publisher == s.clock && !n.torn && forall c: nat :: n.finalized[c] <= Bit(c < n.created)
    ensures states[i].phase == Starting ==> states[i].clock.None?
    ensures states[i].phase == Running ==>
              && 0 < i && !msgs[i - 1].Terminate?
              && (states[i].clock.Some? <==> msgs[i - 1].mode != Off)
    ensures states[i].phase == Crashed ==>
              0 < i && states[i - 1].phase == Running && states[i].clock == states[i - 1].clock
  {
    RunConserves(states, msgs, i);
    FinalizedOnce(states[i]);
    FinalizedCount(states[i]);
    if i > 0 {
      RunConserves(states, msgs, i - 1);
      LastSwitch(states, msgs, i);
    }
  }

  lemma LastSwitch(states: seq<State>, msgs: seq<Message>, i: nat)
    requires Run(states, msgs) && 0 < i <= |msgs| && Conserved(states[i - 1])
    ensures states[i].phase != Starting
    ensures states[i].phase == Running ==>
              !msgs[i - 1].Terminate? && (states[i].clock.Some? <==> msgs[i - 1].mode != Off)
    ensures states[i].phase == Crashed ==> states[i - 1].phase == Running && states[i].clock == states[i - 1].clock
  {
    assert StepAt(states, msgs, i - 1);
    var (s, m) := (states[i - 1], msgs[i - 1]);
    if Step(s, m).phase == Running {
      SwitchedOn(s, m);
    }
  }

  lemma FinalizedOnce(s: State)
    requires Conserved(s)
    ensures forall c: nat :: s.native.finalized[c] <= Bit(c < s.native.created)
  {
  }

  /** A call that leaves the process running was the one that switched it on or off. */
  lemma SwitchedOn(s: State, m: Message)
    requires Conserved(s) && Enabled(s, m) && Step(s, m).phase == Running
    ensures !m.Terminate? && (Step(s, m).clock.Some? <==> m.mode != Off)
  {
  }

  /**
   A run that has ended, by a failing start, a crash or a stop, leaves no clock behind if and only if its
   termination got as far as the clock.
   */
  lemma NoClockLeft(states: seq<State>, msgs: seq<Message>, i: nat)
    requires Run(states, msgs) && i <= |msgs| && states[i].phase == Ended
    ensures Clean(states, msgs, i) ==> |states[i].native.finalized| == states[i].native.created
    ensures !Clean(states, msgs, i) ==> |states[i].native.finalized| == states[i].native.created - 1
  {
    RunConserves(states, msgs, i);
    if Clean(states, msgs, i) {
      FinalizedCount(states[i]);
    } else {
      assert i > 0;
      RunConserves(states, msgs, i - 1);
      assert StepAt(states, msgs, i - 1);
      UncleanEnd(states[i - 1], msgs[i - 1]);
    }
  }

  lemma UncleanEnd(s: State, m: Message)
    requires Conserved(s) && Enabled(s, m) && !Conserved(Step(s, m))
    requires s.phase == Starting ==> s.clock.None?
    ensures |Step(s, m).native.finalized| == Step(s, m).native.created - 1
  {
    match m
    case Start(mode, fault) => StartConserves(s, mode, fault);
    case Reconfigure(mode, fault) => ReconfigureConserves(s, mode, fault);
    case Terminate(fault) =>
      TerminateConserves(s, fault);
      FinalizedCount(s);
  }

  /** Turning introspection on and then failing to finalize the native client leaves the clock behind. */
  lemma LeakyTermination()
    ensures var (on, end) := (Start(Metadata, NoFault), Terminate(ClientFini));
            && Enabled(Init, on) && Enabled(Step(Init, on), end)
            && var left := Step(Step(Init, on), end);
               left.phase == Ended && left.native.created == 1 && left.native.finalized == multiset{}
  {
  }
}

/**
 What each message of the action server does, told from the message and the state it finds: which native
 calls are added to the log, in order and with their contents, and what becomes of every goal. None of the
 statements mentions a handler other than Step.
 */
module ActionServerEffects {
  import opened Wrappers
  import opened GoalStates
  import opened ActionServerModel
  import opened ActionMonitor
  import opened ActionServerProofs
  import opened ActionServerRuns
  import opened ActionServerTheorems

  /** The log with more entries, oldest first. */
  function Append(log: Log, events: seq<Event>): Log {
    if events == [] then log else After(Append(log, events[..|events| - 1]), events[|events| - 1])
  }

  lemma {:induction false} AppendTwice(log: Log, a: seq<Event>, b: seq<Event>)
    ensures Append(Append(log, a), b) == Append(log, a + b)
  {
    if b == [] {
      assert a + b == a;
    } else {
      assert (a + b)[..|a + b| - 1] == a + b[..|b| - 1];
      AppendTwice(log, a, b[..|b| - 1]);
    }
  }

  function Bit(b: bool): nat {
    if b then 1 else 0
  }

  // ---------- goal requests ----------

  predicate Welcome(take: GoalTake) {
    take.GoalRequest? && take.accept
  }

  /** The callback accepts request i, and its uuid was neither live before the batch nor accepted earlier in it. */
  predicate Wins(live: Live, takes: seq<GoalTake>, i: nat)
    requires i < |takes|
  {
    && Welcome(takes[i]) && takes[i].uuid !in live
    && forall j | 0 <= j < i :: !(Welcome(takes[j]) && takes[j].uuid == takes[i].uuid)
  }

  function Winners(live: Live, takes: seq<GoalTake>, n: nat): nat
    requires n <= |takes|
  {
    if n == 0 then 0 else Winners(live, takes, n - 1) + Bit(Wins(live, takes, n - 1))
  }

  /** What request i is answered, with its own header and time; gen is the generation a new goal would get. */
  function GoalReply(live: Live, gen: nat, takes: seq<GoalTake>, i: nat): seq<Event>
    requires i < |takes|
  {
    match takes[i]
    case NoGoal => []
    case GoalRequest(header, uuid, _, _, time) =>
      if Wins(live, takes, i) then
        [GoalAccepted(Handle(uuid, gen)), GoalAnswered(header, true, time), CallbackSpawned(GoalInfo(uuid, time))]
      else [GoalAnswered(header, false, time)]
  }

  function GoalReplies(live: Live, gen: nat, takes: seq<GoalTake>, n: nat): seq<Event>
    requires n <= |takes|
  {
    if n == 0 then []
    else
      GoalReplies(live, gen, takes, n - 1)
      + GoalReply(live, gen + Winners(live, takes, n - 1), takes, n - 1)
  }

  predicate WonBy(live: Live, takes: seq<GoalTake>, n: nat, u: Uuid)
    requires n <= |takes|
  {
    exists i: nat :: i < n && Wins(live, takes, i) && takes[i].uuid == u
  }

  /** Request i made a goal of its own: accepted, with its payload and time, under a handle of its own. */
  ghost predicate MadeGoal(s: State, t: State, takes: seq<GoalTake>, i: nat)
    requires i < |takes| && takes[i].GoalRequest?
  {
    var (u, gen, info) :=
      (takes[i].uuid, s.nextGen + Winners(s.live, takes, i), GoalInfo(takes[i].uuid, takes[i].time));
    && u in t.live && t.live[u] == NativeGoal(gen, Accepted)
    && u in t.goals
    && t.goals[u] == Goal(takes[i].payload, info, Handle(u, gen), None, GoalStatus(info, Unknown), [], None)
  }

  ghost predicate EntryKept(s: State, t: State, u: Uuid) {
    && (u in s.live ==> u in t.live && t.live[u] == s.live[u])
    && (u in s.goals ==> u in t.goals && t.goals[u] == s.goals[u])
  }

  ghost predicate GoalsMade(s: State, t: State, takes: seq<GoalTake>, n: nat)
    requires n <= |takes|
  {
    forall i: nat | i < n && Wins(s.live, takes, i) :: MadeGoal(s, t, takes, i)
  }

  ghost predicate KnownWon(s: State, t: State, takes: seq<GoalTake>, n: nat, u: Uuid)
    requires n <= |takes|
  {
    && (u in t.live <==> u in s.live || WonBy(s.live, takes, n, u))
    && (u in t.goals <==> u in s.goals || WonBy(s.live, takes, n, u))
  }

  /** t is s after the first n requests of a notification. */
  ghost predicate GoalsHandled(s: State, t: State, takes: seq<GoalTake>, n: nat)
    requires n <= |takes|
  {
    && t.log == Append(s.log, GoalReplies(s.live, s.nextGen, takes, n))
    && t.nextGen == s.nextGen + Winners(s.live, takes, n)
    && t.running == s.running && t.nextTask == s.nextTask
    && GoalsMade(s, t, takes, n)
    && (forall u :: EntryKept(s, t, u))
    && (forall u :: KnownWon(s, t, takes, n, u))
  }

  lemma {:induction false} FirstWelcomeWins(live: Live, takes: seq<GoalTake>, n: nat, j: nat)
    requires j < n <= |takes| && Welcome(takes[j]) && takes[j].uuid !in live
    ensures WonBy(live, takes, n, takes[j].uuid)
  {
    if !Wins(live, takes, j) {
      var i :| 0 <= i < j && Welcome(takes[i]) && takes[i].uuid == takes[j].uuid;
      FirstWelcomeWins(live, takes, n, i);
    }
  }

  lemma NextWins(s: State, mid: State, takes: seq<GoalTake>, n: nat)
    requires n < |takes| && forall u :: KnownWon(s, mid, takes, n, u)
    ensures IsAccepted(mid, takes[n]) <==> Wins(s.live, takes, n)
  {
    var take := takes[n];
    assert take.GoalRequest? ==> KnownWon(s, mid, takes, n, take.uuid);
    if Welcome(take) && take.uuid !in s.live {
      if j: nat :| j < n && Welcome(takes[j]) && takes[j].uuid == take.uuid {
        FirstWelcomeWins(s.live, takes, n, j);
      }
    }
  }

  lemma WonByNext(live: Live, takes: seq<GoalTake>, n: nat, u: Uuid)
    requires n < |takes|
    ensures WonBy(live, takes, n + 1, u) <==>
            WonBy(live, takes, n, u) || (Wins(live, takes, n) && takes[n].uuid == u)
  {
    if WonBy(live, takes, n, u) {
      var i: nat :| i < n && Wins(live, takes, i) && takes[i].uuid == u;
      assert i < n + 1;
    }
  }

  /** Append on the short lists the replies are. */
  lemma AppendOne(log: Log, e: Event)
    ensures Append(log, [e]) == After(log, e)
  {
    assert [e][..0] == [] && Append(log, []) == log;
  }

  lemma AppendThree(log: Log, a: Event, b: Event, c: Event)
    ensures Append(log, [a, b, c]) == After(After(After(log, a), b), c)
  {
    AppendOne(log, a);
    AppendOne(After(log, a), b);
    AppendTwice(log, [a], [b]);
    assert [a, b, c][..2] == [a] + [b];
  }

  /** t is mid with one request answered; won says whether it made a goal. */
  ghost predicate OneGoal(mid: State, t: State, take: GoalTake, won: bool) {
    && t.running == mid.running && t.nextTask == mid.nextTask
    && if won then
         && take.GoalRequest? && t.nextGen == mid.nextGen + 1
         && var info := GoalInfo(take.uuid, take.time);
            && t.live == mid.live[take.uuid := NativeGoal(mid.nextGen, Accepted)]
            && t.goals == mid.goals[take.uuid :=
                 Goal(take.payload, info, Handle(take.uuid, mid.nextGen), None, GoalStatus(info, Unknown), [], None)]
       else t.nextGen == mid.nextGen && t.live == mid.live && t.goals == mid.goals
  }

  lemma OneGoalShape(mid: State, take: GoalTake)
    ensures OneGoal(mid, GoalAtOnce(mid, take), take, IsAccepted(mid, take))
  {
  }

  lemma ReplyShape(mid: State, takes: seq<GoalTake>, n: nat, live: Live)
    requires n < |takes| && (IsAccepted(mid, takes[n]) <==> Wins(live, takes, n))
    ensures GoalAtOnce(mid, takes[n]).log == Append(mid.log, GoalReply(live, mid.nextGen, takes, n))
  {
    match takes[n]
    case NoGoal =>
    case GoalRequest(header, uuid, _, _, time) =>
      AppendOne(mid.log, GoalAnswered(header, false, time));
      AppendThree(mid.log, GoalAccepted(Handle(uuid, mid.nextGen)), GoalAnswered(header, true, time),
                  CallbackSpawned(GoalInfo(uuid, time)));
  }

  lemma KnownNext(s: State, mid: State, t: State, takes: seq<GoalTake>, n: nat, next: nat)
    requires n < |takes| && next == n + 1 && OneGoal(mid, t, takes[n], Wins(s.live, takes, n))
    requires forall u :: KnownWon(s, mid, takes, n, u)
    ensures forall u :: KnownWon(s, t, takes, next, u)
  {
    forall u ensures KnownWon(s, t, takes, next, u) {
      WonByNext(s.live, takes, n, u);
      assert KnownWon(s, mid, takes, n, u);
    }
  }

  lemma MadeStays(s: State, mid: State, t: State, takes: seq<GoalTake>, n: nat, i: nat)
    requires i < n < |takes| && OneGoal(mid, t, takes[n], Wins(s.live, takes, n))
    requires Wins(s.live, takes, i) && MadeGoal(s, mid, takes, i)
    ensures MadeGoal(s, t, takes, i)
  {
    assert Wins(s.live, takes, n) ==> takes[i].uuid != takes[n].uuid;
  }

  lemma MadeNow(s: State, mid: State, t: State, takes: seq<GoalTake>, n: nat)
    requires n < |takes| && OneGoal(mid, t, takes[n], Wins(s.live, takes, n)) && Wins(s.live, takes, n)
    requires mid.nextGen == s.nextGen + Winners(s.live, takes, n)
    ensures MadeGoal(s, t, takes, n)
  {
  }

  lemma MadeNext(s: State, mid: State, t: State, takes: seq<GoalTake>, n: nat, next: nat)
    requires n < |takes| && next == n + 1 && OneGoal(mid, t, takes[n], Wins(s.live, takes, n))
    requires mid.nextGen == s.nextGen + Winners(s.live, takes, n) && GoalsMade(s, mid, takes, n)
    ensures GoalsMade(s, t, takes, next)
  {
    forall i: nat | i < next && Wins(s.live, takes, i) ensures MadeGoal(s, t, takes, i) {
      if i < n {
        MadeStays(s, mid, t, takes, n, i);
      } else {
        MadeNow(s, mid, t, takes, n);
      }
    }
  }

  lemma KeptNext(s: State, mid: State, t: State, takes: seq<GoalTake>, n: nat)
    requires n < |takes| && OneGoal(mid, t, takes[n], Wins(s.live, takes, n)) && s.goals.Keys == s.live.Keys
    requires forall u :: EntryKept(s, mid, u)
    ensures forall u :: EntryKept(s, t, u)
  {
    forall u ensures EntryKept(s, t, u) {
      assert EntryKept(s, mid, u);
    }
  }

  lemma GoalLogNext(log: Log, mid: Log, after: Log, live: Live, gen: nat, takes: seq<GoalTake>, n: nat)
    requires n < |takes| && mid == Append(log, GoalReplies(live, gen, takes, n))
    requires after == Append(mid, GoalReply(live, gen + Winners(live, takes, n), takes, n))
    ensures after == Append(log, GoalReplies(live, gen, takes, n + 1))
  {
    AppendTwice(log, GoalReplies(live, gen, takes, n), GoalReply(live, gen + Winners(live, takes, n), takes, n));
  }

  lemma GoalsHandledNext(s: State, mid: State, t: State, takes: seq<GoalTake>, n: nat, next: nat)
    requires n < |takes| && next == n + 1 && GoalsHandled(s, mid, takes, n) && s.goals.Keys == s.live.Keys
    requires OneGoal(mid, t, takes[n], Wins(s.live, takes, n))
    requires t.log == Append(s.log, GoalReplies(s.live, s.nextGen, takes, next))
    ensures GoalsHandled(s, t, takes, next)
  {
    KnownNext(s, mid, t, takes, n, next);
    MadeNext(s, mid, t, takes, n, next);
    KeptNext(s, mid, t, takes, n);
  }

  lemma GoalHandled(s: State, mid: State, takes: seq<GoalTake>, n: nat, next: nat)
    requires n < |takes| && next == n + 1 && GoalsHandled(s, mid, takes, n) && s.goals.Keys == s.live.Keys
    ensures GoalsHandled(s, GoalAtOnce(mid, takes[n]), takes, next)
  {
    NextWins(s, mid, takes, n);
    OneGoalShape(mid, takes[n]);
    var t := GoalAtOnce(mid, takes[n]);
    ReplyShape(mid, takes, n, s.live);
    GoalLogNext(s.log, mid.log, t.log, s.live, s.nextGen, takes, n);
    GoalsHandledNext(s, mid, t, takes, n, next);
  }

  lemma NoGoalsHandled(s: State, takes: seq<GoalTake>)
    requires s.goals.Keys == s.live.Keys
    ensures GoalsHandled(s, s, takes, 0)
  {
  }

  lemma {:induction false} GoalsHandledUpTo(s: State, takes: seq<GoalTake>, n: nat)
    requires s.goals.Keys == s.live.Keys && n <= |takes|
    ensures GoalsHandled(s, GoalsAtOnce(s, takes[..n]), takes, n)
  {
    if n == 0 {
      NoGoalsHandled(s, takes);
    } else {
      GoalsHandledUpTo(s, takes, n - 1);
      assert takes[..n][..n - 1] == takes[..n - 1];
      GoalHandled(s, GoalsAtOnce(s, takes[..n - 1]), takes, n - 1, n);
    }
  }

  /**
   Each goal request of a notification gets exactly one answer, with its header and time: yes if and only if
   the callback accepted it and its uuid was neither live before nor accepted earlier in the notification.
   Exactly those requests make a goal, with their payload and time, and have their accepted callback spawned;
   every other goal keeps its entries in both registries.
   */
  lemma GoalRequestsAnswered(s: State, takes: seq<GoalTake>)
    requires Inv(s)
    ensures Step(s, NewGoals(takes)).Next?
    ensures GoalsHandled(s, Step(s, NewGoals(takes)).state, takes, |takes|)
  {
    LateInsertion(s, takes);
    GoalsHandledUpTo(s, takes, |takes|);
    assert takes[..|takes|] == takes;
  }

  // ---------- result requests ----------

  /** The headers of the requests for u. */
  function Asked(takes: seq<ResultTake>, u: Uuid): multiset<Header> {
    if takes == [] then multiset{}
    else
      var last := takes[|takes| - 1];
      Asked(takes[..|takes| - 1], u)
      + if last.ResultRequest? && last.uuid == u then multiset{last.header} else multiset{}
  }

  /** The headers of the requests for u that were answered with r. */
  function AnsweredWith(log: Log, u: Uuid, r: Response): multiset<Header> {
    match log
    case Start => multiset{}
    case After(before, e) =>
      AnsweredWith(before, u, r)
      + if e.SentResult? && e.uuid == u && e.response == r then multiset{e.header} else multiset{}
  }

  /** What a request for u is told at once: that the goal is unknown, or the result it has; None is to wait. */
  function AnswerAtOnce(s: State, u: Uuid): Option<Response> {
    if u !in s.goals then Some(Response(Unknown, DefaultResult)) else s.goals[u].response
  }

  /** All requests asked for u are taken; those answered at once get this answer, the others none. */
  ghost predicate LogHandledFor(log: Log, after: Log, u: Uuid, asked: multiset<Header>, answer: Option<Response>) {
    && Taken(after, u) == Taken(log, u) + asked
    && forall r :: AnswersGrow(log, after, u, r, asked, answer)
  }

  /** The answers r to requests for u are more by those asked, if r is the answer they get, and else the same. */
  ghost predicate AnswersGrow(
    log: Log, after: Log, u: Uuid, r: Response, asked: multiset<Header>, answer: Option<Response>)
  {
    AnsweredWith(after, u, r) == AnsweredWith(log, u, r) + if answer == Some(r) then asked else multiset{}
  }

  /** Requests asked for u are taken, and answered or parked. */
  ghost predicate ResultsHandledFor(s: State, t: State, u: Uuid, asked: multiset<Header>) {
    && LogHandledFor(s.log, t.log, u, asked, AnswerAtOnce(s, u))
    && (u in t.goals <==> u in s.goals)
    && (u in s.goals ==>
      && t.goals[u] == s.goals[u].(waiting := t.goals[u].waiting)
      && multiset(t.goals[u].waiting) ==
         multiset(s.goals[u].waiting) + if AnswerAtOnce(s, u).None? then asked else multiset{})
  }

  lemma AnsweredLog(log: Log, h: Header, u: Uuid, r: Response)
    ensures LogHandledFor(log, After(After(log, TookResult(h, u)), SentResult(h, u, r)), u, multiset{h}, Some(r))
  {
    var took := After(log, TookResult(h, u));
    assert Taken(took, u) == Taken(log, u) + multiset{h};
    assert forall other :: AnsweredWith(took, u, other) == AnsweredWith(log, u, other);
  }

  lemma ParkedLog(log: Log, h: Header, u: Uuid)
    ensures LogHandledFor(log, After(log, TookResult(h, u)), u, multiset{h}, None)
  {
  }

  lemma OtherLog(log: Log, h: Header, v: Uuid, r: Response, u: Uuid, answer: Option<Response>)
    requires u != v
    ensures LogHandledFor(log, After(log, TookResult(h, v)), u, multiset{}, answer)
    ensures LogHandledFor(log, After(After(log, TookResult(h, v)), SentResult(h, v, r)), u, multiset{}, answer)
  {
    var took := After(log, TookResult(h, v));
    forall other ensures AnswersGrow(log, After(took, SentResult(h, v, r)), u, other, multiset{}, answer) {
      assert AnswersGrow(log, took, u, other, multiset{}, answer);
    }
  }

  lemma MineHandled(s: State, take: ResultTake)
    requires take.ResultRequest?
    ensures ResultsHandledFor(s, HandleResult(s, take), take.uuid, multiset{take.header})
  {
    var (h, u) := (take.header, take.uuid);
    if u !in s.goals {
      AnsweredLog(s.log, h, u, Response(Unknown, DefaultResult));
    } else if s.goals[u].response.Some? {
      AnsweredLog(s.log, h, u, s.goals[u].response.value);
    } else {
      ParkedLog(s.log, h, u);
      assert multiset([h] + s.goals[u].waiting) == multiset(s.goals[u].waiting) + multiset{h};
    }
  }

  lemma OthersHandled(s: State, take: ResultTake, u: Uuid)
    requires take.ResultRequest? ==> take.uuid != u
    ensures ResultsHandledFor(s, HandleResult(s, take), u, multiset{})
  {
    if take.ResultRequest? {
      var r := if take.uuid in s.goals && s.goals[take.uuid].response.Some? then s.goals[take.uuid].response.value
               else Response(Unknown, DefaultResult);
      OtherLog(s.log, take.header, take.uuid, r, u, AnswerAtOnce(s, u));
    }
  }

  lemma HandledTwice(s: State, mid: State, t: State, u: Uuid, asked: multiset<Header>, more: multiset<Header>)
    requires ResultsHandledFor(s, mid, u, asked) && ResultsHandledFor(mid, t, u, more)
    ensures ResultsHandledFor(s, t, u, asked + more)
  {
    assert AnswerAtOnce(mid, u) == AnswerAtOnce(s, u);
    LogTwice(s.log, mid.log, t.log, u, asked, more, AnswerAtOnce(s, u));
  }

  lemma LogTwice(
    log: Log, mid: Log, after: Log, u: Uuid, asked: multiset<Header>, more: multiset<Header>, answer: Option<Response>)
    requires LogHandledFor(log, mid, u, asked, answer) && LogHandledFor(mid, after, u, more, answer)
    ensures LogHandledFor(log, after, u, asked + more, answer)
  {
    forall r ensures AnswersGrow(log, after, u, r, asked + more, answer) {
      assert AnswersGrow(log, mid, u, r, asked, answer) && AnswersGrow(mid, after, u, r, more, answer);
    }
  }

  lemma {:induction false} ResultsHandledUpTo(s: State, takes: seq<ResultTake>, u: Uuid)
    ensures ResultsHandledFor(s, HandleResults(s, takes), u, Asked(takes, u))
  {
    if takes != [] {
      var (before, last) := (takes[..|takes| - 1], takes[|takes| - 1]);
      ResultsHandledUpTo(s, before, u);
      OneMoreHandled(s, HandleResults(s, before), last, u, Asked(before, u));
    }
  }

  lemma OneMoreHandled(s: State, mid: State, last: ResultTake, u: Uuid, asked: multiset<Header>)
    requires ResultsHandledFor(s, mid, u, asked)
    ensures ResultsHandledFor(
              s, HandleResult(mid, last), u,
              asked + if last.ResultRequest? && last.uuid == u then multiset{last.header} else multiset{})
  {
    if last.ResultRequest? && last.uuid == u {
      MineHandled(mid, last);
      HandledTwice(s, mid, HandleResult(mid, last), u, asked, multiset{last.header});
    } else {
      OthersHandled(mid, last, u);
      HandledTwice(s, mid, HandleResult(mid, last), u, asked, multiset{});
    }
  }

  lemma {:induction false} ResultsTouch(s: State, takes: seq<ResultTake>)
    ensures var t := HandleResults(s, takes); t == s.(goals := t.goals, log := t.log)
  {
    if takes != [] {
      ResultsTouch(s, takes[..|takes| - 1]);
    }
  }

  /**
   Every result request of a notification is taken. For a goal that is not there it is answered "unknown" with
   an empty result, for a goal with a result with that, and otherwise it waits; nothing else changes.
   */
  lemma ResultRequestsAnswered(s: State, takes: seq<ResultTake>)
    ensures Step(s, NewResults(takes)).Next?
    ensures forall u :: ResultsHandledFor(s, Step(s, NewResults(takes)).state, u, Asked(takes, u))
    ensures var t := Step(s, NewResults(takes)).state; t == s.(goals := t.goals, log := t.log)
  {
    forall u ensures ResultsHandledFor(s, HandleResults(s, takes), u, Asked(takes, u)) {
      ResultsHandledUpTo(s, takes, u);
    }
    ResultsTouch(s, takes);
  }

  /** The headers of the requests for u, the latest first. */
  function LatestFirst(takes: seq<ResultTake>, u: Uuid): seq<Header> {
    if takes == [] then []
    else
      var last := takes[|takes| - 1];
      (if last.ResultRequest? && last.uuid == u then [last.header] else []) + LatestFirst(takes[..|takes| - 1], u)
  }

  predicate Parked(t: State, u: Uuid, headers: seq<Header>) {
    u in t.goals && t.goals[u].response.None? && t.goals[u].waiting == headers
  }

  lemma OneParked(mid: State, take: ResultTake, u: Uuid, parked: seq<Header>, kept: seq<Header>)
    requires Parked(mid, u, parked + kept)
    ensures var mine := if take.ResultRequest? && take.uuid == u then [take.header] else [];
            Parked(HandleResult(mid, take), u, mine + parked + kept)
  {
    assert take.ResultRequest? ==> [take.header] + parked + kept == [take.header] + (parked + kept);
    assert [] + parked == parked;
  }

  lemma {:induction false} ParkedLatestFirst(s: State, takes: seq<ResultTake>, u: Uuid, kept: seq<Header>)
    requires Parked(s, u, kept)
    ensures Parked(HandleResults(s, takes), u, LatestFirst(takes, u) + kept)
  {
    if takes == [] {
      assert LatestFirst(takes, u) + kept == kept;
    } else {
      var before := takes[..|takes| - 1];
      ParkedLatestFirst(s, before, u, kept);
      OneParked(HandleResults(s, before), takes[|takes| - 1], u, LatestFirst(before, u), kept);
    }
  }

  /** Requests that wait are kept, and so answered, latest first. */
  lemma WaitingLatestFirst(s: State, takes: seq<ResultTake>, u: Uuid)
    requires u in s.goals && s.goals[u].response.None?
    ensures var next := Step(s, NewResults(takes));
            && next.Next? && u in next.state.goals
            && next.state.goals[u].waiting == LatestFirst(takes, u) + s.goals[u].waiting
  {
    ParkedLatestFirst(s, takes, u, s.goals[u].waiting);
  }

  // ---------- execution ----------

  /** The statuses of all goals, with that of u replaced. */
  function StatusesWith(goals: Goals, u: Uuid, info: GoalInfo, status: Status): map<Uuid, GoalStatus> {
    map v | v in goals :: if v == u then GoalStatus(info, status) else goals[v].status
  }

  lemma UpdatedStatuses(s: State, e: GoalEvent, info: GoalInfo)
    requires info.uuid in s.goals && info.uuid in s.live && Transition(s.live[info.uuid].state, e).Some?
    ensures var status := Transition(s.live[info.uuid].state, e).value;
            Statuses(Updated(s, e, info).goals) == StatusesWith(s.goals, info.uuid, info, status)
  {
  }

  lemma UpdatedLog(s: State, e: GoalEvent, info: GoalInfo)
    requires info.uuid in s.goals && info.uuid in s.live && Transition(s.live[info.uuid].state, e).Some?
    ensures var status := Transition(s.live[info.uuid].state, e).value;
            Updated(s, e, info).log ==
            Append(s.log, [Transitioned(s.goals[info.uuid].handle, e),
                           Published(StatusesWith(s.goals, info.uuid, info, status))])
  {
    UpdatedStatuses(s, e, info);
    var calls := [Transitioned(s.goals[info.uuid].handle, e), Published(Statuses(Updated(s, e, info).goals))];
    assert calls[..1] == [calls[0]];
    AppendOne(s.log, calls[0]);
  }

  /** t is s with u executing, that published, and a fresh task started with the goal's own payload. */
  ghost predicate ExecutionStarted(s: State, t: State, info: GoalInfo)
    requires info.uuid in s.goals && info.uuid in s.live
  {
    var (u, goal, task) := (info.uuid, s.goals[info.uuid], s.nextTask);
    t == s.(
      goals := s.goals[u := goal.(status := GoalStatus(info, Executing), task := Some(task))],
      live := s.live[u := NativeGoal(s.live[u].gen, Executing)],
      running := s.running + {task},
      nextTask := task + 1,
      log := Append(s.log, [Transitioned(goal.handle, Execute),
                            Published(StatusesWith(s.goals, u, info, Executing)),
                            TaskStarted(task, goal.payload)]))
  }

  lemma StartedIs(s: State, info: GoalInfo)
    requires info.uuid in s.goals && info.uuid in s.live && s.live[info.uuid].state == Accepted
    ensures ExecutionStarted(s, Started(Updated(s, Execute, info), info.uuid), info)
  {
    ExecuteLog(s, info);
  }

  /**
   The first execute call of an accepted goal starts its execution; an execute call of an unknown goal does
   nothing, and any other raises.
   */
  lemma ExecuteEffect(s: State, info: GoalInfo)
    requires Inv(s)
    ensures info.uuid in s.goals ==> info.uuid in s.live
    ensures var next := Step(s, ExecuteGoal(info));
            if info.uuid !in s.goals then next == Next(s)
            else if s.live[info.uuid].state != Accepted then next.Raised?
            else next.Next? && ExecutionStarted(s, next.state, info)
  {
    ExecuteHandled(s, info);
  }

  lemma ExecuteHandled(s: State, info: GoalInfo)
    requires Inv(s)
    ensures info.uuid in s.goals ==> info.uuid in s.live
    ensures var next := HandleExecute(s, info);
            if info.uuid !in s.goals then next == Some(s)
            else if s.live[info.uuid].state != Accepted then next.None?
            else next.Some? && ExecutionStarted(s, next.value, info)
  {
    assert info.uuid in s.goals ==> info.uuid in s.live;
    if info.uuid in s.goals {
      if s.live[info.uuid].state == Accepted {
        AcceptedStarts(s, info);
        StartedIs(s, info);
      } else {
        ExecuteRefused(s, info);
      }
    }
  }

  lemma AcceptedStarts(s: State, info: GoalInfo)
    requires Inv(s) && info.uuid in s.goals && info.uuid in s.live && s.live[info.uuid].state == Accepted
    ensures HandleExecute(s, info) == Some(Started(Updated(s, Execute, info), info.uuid))
  {
    UpdateKeeps(s, Execute, info);
    ExecuteGives(s, info);
  }

  lemma ExecuteLog(s: State, info: GoalInfo)
    requires info.uuid in s.goals && info.uuid in s.live && s.live[info.uuid].state == Accepted
    ensures Started(Updated(s, Execute, info), info.uuid).log ==
            Append(s.log, [Transitioned(s.goals[info.uuid].handle, Execute),
                           Published(StatusesWith(s.goals, info.uuid, info, Executing)),
                           TaskStarted(s.nextTask, s.goals[info.uuid].payload)])
  {
    var start := TaskStarted(s.nextTask, s.goals[info.uuid].payload);
    var calls := [Transitioned(s.goals[info.uuid].handle, Execute),
                  Published(StatusesWith(s.goals, info.uuid, info, Executing))];
    UpdatedLog(s, Execute, info);
    AppendOne(Append(s.log, calls), start);
    AppendTwice(s.log, calls, [start]);
    assert calls + [start] == [calls[0], calls[1], start];
  }

  // ---------- the end of a goal ----------

  function Sent(u: Uuid, headers: seq<Header>, r: Response): seq<Event> {
    seq(|headers|, i requires 0 <= i < |headers| => SentResult(headers[i], u, r))
  }

  lemma {:induction false} SendAllIs(log: Log, u: Uuid, headers: seq<Header>, r: Response)
    ensures SendAll(log, u, headers, r) == Append(log, Sent(u, headers, r))
  {
    if headers != [] {
      var before := headers[..|headers| - 1];
      SendAllIs(log, u, before, r);
      assert Sent(u, headers, r)[..|headers| - 1] == Sent(u, before, r);
    }
  }

  /** Among the first hundred goals due. */
  predicate DueNow(due: seq<Uuid>, v: Uuid) {
    exists i: nat :: i < |due| && i < 100 && due[i] == v
  }

  /** What the expiry frees when u has just ended: of the goals due now, u and those that had ended before. */
  function Freed(s: State, u: Uuid, due: seq<Uuid>): set<Uuid> {
    set v | v in s.live && DueNow(due, v) && (v == u || Terminal(s.live[v].state))
  }

  lemma FreedIs(s: State, live: Live, u: Uuid, due: seq<Uuid>)
    requires u in s.live && u in live && Terminal(live[u].state) && live == s.live[u := live[u]]
    ensures ExpiredGoals(live, due) == Freed(s, u, due)
  {
    var capped := if |due| <= EXPIRE_LIMIT then due else due[..EXPIRE_LIMIT];
    forall v ensures v in capped <==> DueNow(due, v) {
      if DueNow(due, v) {
        var i: nat :| i < |due| && i < 100 && due[i] == v;
        assert capped[i] == v;
      }
    }
  }

  /** The result message of a usable value: the struct it is, or an empty result. */
  function ResultOf(value: TaskValue): ResultMsg {
    match value
    case Struct(p) => ResultMsg(p)
    case _ => DefaultResult
  }

  /**
   t is s after u ended with this status and result, by these native calls: the goal has the response, what is
   due is freed, and every request that waited for u is sent the response, in the order they are kept.
   */
  ghost predicate GoalEnded(
    s: State, t: State, info: GoalInfo, task: nat, calls: seq<Event>, status: Status, value: TaskValue, due: seq<Uuid>)
    requires info.uuid in s.goals && info.uuid in s.live
  {
    var (u, goal, r) := (info.uuid, s.goals[info.uuid], Response(status, ResultOf(value)));
    var ended := goal.(status := GoalStatus(info, status), response := Some(r), waiting := [], task := None);
    t == s.(
      goals := s.goals[u := ended] - Freed(s, u, due),
      live := s.live[u := NativeGoal(s.live[u].gen, status)] - Freed(s, u, due),
      running := s.running - {task},
      log := Append(s.log, calls + [Expired(Freed(s, u, due))] + Sent(u, goal.waiting, r)))
  }

  lemma ResultedLog(t: State, base: Log, calls: seq<Event>, value: TaskValue, u: Uuid, us: set<Uuid>)
    requires u in t.goals && u in t.live && t.log == Append(base, calls)
    ensures var r := Response(t.live[u].state, ToMsg(value));
            Resulted(t, value, u, us).log == Append(base, calls + [Expired(us)] + Sent(u, t.goals[u].waiting, r))
  {
    var r := Response(t.live[u].state, ToMsg(value));
    AppendOne(t.log, Expired(us));
    AppendTwice(base, calls, [Expired(us)]);
    SendAllIs(After(t.log, Expired(us)), u, t.goals[u].waiting, r);
    AppendTwice(base, calls + [Expired(us)], Sent(u, t.goals[u].waiting, r));
  }

  lemma ResultedEnds(
    s: State, t: State, info: GoalInfo, task: nat, calls: seq<Event>, status: Status, value: TaskValue, due: seq<Uuid>)
    requires info.uuid in s.goals && info.uuid in s.live && Terminal(status) && Usable(value)
    requires t == s.(goals := s.goals[info.uuid := s.goals[info.uuid].(status := GoalStatus(info, status))],
                     live := s.live[info.uuid := NativeGoal(s.live[info.uuid].gen, status)],
                     running := s.running - {task}, log := t.log)
    requires t.log == Append(s.log, calls)
    ensures var end := Resulted(t, value, info.uuid, ExpiredGoals(t.live, due));
            GoalEnded(s, end, info, task, calls, status, value, due)
  {
    FreedIs(s, t.live, info.uuid, due);
    ResultedLog(t, s.log, calls, value, info.uuid, Freed(s, info.uuid, due));
    assert ToMsg(value) == ResultOf(value);
  }

  lemma TaskResulted(s: State, task: nat, e: GoalEvent, value: TaskValue, due: seq<Uuid>, u: Uuid)
    requires Inv(s) && task in s.running && (e == Succeed || e == Abort) && Usable(value)
    requires u in s.goals && s.goals[u].task == Some(task)
    ensures s.goals[u].info.uuid == u && u in s.live
    ensures Transition(s.live[u].state, e) == Some(if e == Succeed then Succeeded else Aborted)
    ensures var t := Updated(Consumed(s, task), e, s.goals[u].info);
            HandleTask(s, task, e, value, due) == Some(Resulted(t, value, u, ExpiredGoals(t.live, due)))
  {
    TaskFindsGoal(s, task);
    assert AgreeOn(s.goals, Watch(s.log), u);
    TaskGives(s, task, e, value, due);
  }

  lemma TaskUpdated(s: State, task: nat, e: GoalEvent, info: GoalInfo, status: Status)
    requires info.uuid in s.goals && info.uuid in s.live && Transition(s.live[info.uuid].state, e) == Some(status)
    ensures var (u, t) := (info.uuid, Updated(Consumed(s, task), e, info));
            && t == s.(goals := s.goals[u := s.goals[u].(status := GoalStatus(info, status))],
                       live := s.live[u := NativeGoal(s.live[u].gen, status)],
                       running := s.running - {task}, log := t.log)
            && t.log == Append(s.log, [Transitioned(s.goals[u].handle, e),
                                       Published(StatusesWith(s.goals, u, info, status))])
  {
    UpdatedLog(Consumed(s, task), e, info);
  }

  lemma EndedByTask(
    s: State, task: nat, e: GoalEvent, value: TaskValue, due: seq<Uuid>, info: GoalInfo, status: Status)
    requires info.uuid in s.goals && info.uuid in s.live && Transition(s.live[info.uuid].state, e) == Some(status)
    requires Terminal(status) && Usable(value)
    ensures var (u, t) := (info.uuid, Updated(Consumed(s, task), e, info));
            GoalEnded(s, Resulted(t, value, u, ExpiredGoals(t.live, due)), info, task,
                      [Transitioned(s.goals[u].handle, e), Published(StatusesWith(s.goals, u, info, status))],
                      status, value, due)
  {
    TaskUpdated(s, task, e, info, status);
    ResultedEnds(s, Updated(Consumed(s, task), e, info), info, task,
                 [Transitioned(s.goals[info.uuid].handle, e),
                  Published(StatusesWith(s.goals, info.uuid, info, status))],
                 status, value, due);
  }

  lemma TaskEnds(s: State, task: nat, e: GoalEvent, value: TaskValue, due: seq<Uuid>, u: Uuid)
    requires Inv(s) && task in s.running && (e == Succeed || e == Abort) && Usable(value)
    requires u in s.goals && s.goals[u].task == Some(task)
    ensures HandleTask(s, task, e, value, due).Some? && s.goals[u].info.uuid == u && u in s.live
    ensures var (info, status) := (s.goals[u].info, if e == Succeed then Succeeded else Aborted);
            GoalEnded(s, HandleTask(s, task, e, value, due).value, info, task,
                      [Transitioned(s.goals[u].handle, e), Published(StatusesWith(s.goals, u, info, status))],
                      status, value, due)
  {
    TaskResulted(s, task, e, value, due, u);
    var status := if e == Succeed then Succeeded else Aborted;
    assert Terminal(status);
    EndedByTask(s, task, e, value, due, s.goals[u].info, status);
  }

  /** A task's result makes its goal succeed with that result; an empty one if it is nil or false. */
  lemma TaskDoneEffect(s: State, task: nat, value: TaskValue, due: seq<Uuid>, u: Uuid)
    requires Inv(s) && Enabled(s, TaskDone(task, value, due)) && u in s.goals && s.goals[u].task == Some(task)
    requires value.Struct? || value.Falsy?
    ensures Step(s, TaskDone(task, value, due)).Next? && s.goals[u].info.uuid == u && u in s.live
    ensures var info := s.goals[u].info;
            GoalEnded(s, Step(s, TaskDone(task, value, due)).state, info, task,
                      [Transitioned(s.goals[u].handle, Succeed), Published(StatusesWith(s.goals, u, info, Succeeded))],
                      Succeeded, value, due)
  {
    TaskEnds(s, task, Succeed, value, due, u);
  }

  /** A task's crash makes its goal abort, with an empty result. */
  lemma TaskDownEffect(s: State, task: nat, due: seq<Uuid>, u: Uuid)
    requires Inv(s) && Enabled(s, TaskDown(task, due)) && u in s.goals && s.goals[u].task == Some(task)
    ensures Step(s, TaskDown(task, due)).Next? && s.goals[u].info.uuid == u && u in s.live
    ensures var info := s.goals[u].info;
            GoalEnded(s, Step(s, TaskDown(task, due)).state, info, task,
                      [Transitioned(s.goals[u].handle, Abort), Published(StatusesWith(s.goals, u, info, Aborted))],
                      Aborted, Falsy, due)
  {
    TaskEnds(s, task, Abort, Falsy, due, u);
  }

  // ---------- which goals a cancel request selects ----------

  /** Entry i is the first to name its goal, and the goal has been accepted or executes. */
  predicate Chosen(live: Live, wanted: seq<CancelEntry>, i: nat)
    requires i < |wanted|
  {
    var u := wanted[i].info.uuid;
    && u in live && (live[u].state == Accepted || live[u].state == Executing)
    && forall j | 0 <= j < i :: wanted[j].info.uuid != u
  }

  function ChosenEntries(live: Live, wanted: seq<CancelEntry>, n: nat): seq<CancelEntry>
    requires n <= |wanted|
  {
    if n == 0 then []
    else ChosenEntries(live, wanted, n - 1) + if Chosen(live, wanted, n - 1) then [wanted[n - 1]] else []
  }

  lemma {:induction false} ChosenNames(live: Live, wanted: seq<CancelEntry>, n: nat)
    requires n <= |wanted|
    ensures forall u | Selectable(live, u) ::
              (exists e :: e in ChosenEntries(live, wanted, n) && e.info.uuid == u) <==>
              (exists j: nat :: j < n && wanted[j].info.uuid == u)
  {
    if n > 0 {
      ChosenNames(live, wanted, n - 1);
      var (before, all, u) :=
        (ChosenEntries(live, wanted, n - 1), ChosenEntries(live, wanted, n), wanted[n - 1].info.uuid);
      forall v | Selectable(live, v)
        ensures (exists e :: e in all && e.info.uuid == v) <==> (exists j: nat :: j < n && wanted[j].info.uuid == v)
      {
        ChosenNamesNext(live, wanted, n, v);
      }
    }
  }

  lemma ChosenNamesNext(live: Live, wanted: seq<CancelEntry>, n: nat, v: Uuid)
    requires 0 < n <= |wanted| && Selectable(live, v)
    requires (exists e :: e in ChosenEntries(live, wanted, n - 1) && e.info.uuid == v) <==>
             (exists j: nat :: j < n - 1 && wanted[j].info.uuid == v)
    ensures (exists e :: e in ChosenEntries(live, wanted, n) && e.info.uuid == v) <==>
            (exists j: nat :: j < n && wanted[j].info.uuid == v)
  {
    var (before, all) := (ChosenEntries(live, wanted, n - 1), ChosenEntries(live, wanted, n));
    if j: nat :| j < n - 1 && wanted[j].info.uuid == v {
      var e :| e in before && e.info.uuid == v;
      assert e in all;
    } else if wanted[n - 1].info.uuid == v {
      assert Chosen(live, wanted, n - 1);
      assert wanted[n - 1] in all;
    }
  }

  /** The selection is exactly the entries chosen, in their order. */
  lemma {:induction false} SelectionIsChosen(live: Live, wanted: seq<CancelEntry>, n: nat)
    requires n <= |wanted|
    ensures SelectCanceling(live, wanted[..n]) == ChosenEntries(live, wanted, n)
  {
    if n == 0 {
      assert wanted[..0] == [];
    } else {
      SelectionIsChosen(live, wanted, n - 1);
      ChosenNames(live, wanted, n - 1);
      assert wanted[..n][..n - 1] == wanted[..n - 1];
      var u := wanted[n - 1].info.uuid;
      assert Selectable(live, u) <==> u in live && (live[u].state == Accepted || live[u].state == Executing);
    }
  }

  // ---------- canceling one goal ----------

  /** The native calls of a cancelation up to its end. */
  function CancelCalls(s: State, info: GoalInfo, task: nat): seq<Event>
    requires info.uuid in s.goals
  {
    var (u, h) := (info.uuid, s.goals[info.uuid].handle);
    [Transitioned(h, CancelGoal), Published(StatusesWith(s.goals, u, info, Status.Canceling)), TaskShutDown(task),
     Transitioned(h, CancelDone), Published(StatusesWith(s.goals, u, info, Canceled))]
  }

  lemma ShutDownLog(s: State, info: GoalInfo)
    requires info.uuid in s.goals && Stoppable(s, info.uuid) && s.goals[info.uuid].task.Some?
    ensures ShutDown(s, info).log == Append(s.log, CancelCalls(s, info, s.goals[info.uuid].task.value)[..3])
  {
    var calls := CancelCalls(s, info, s.goals[info.uuid].task.value);
    UpdatedLog(s, CancelGoal, info);
    assert calls[..2] == [calls[0], calls[1]];
    AppendOne(Append(s.log, calls[..2]), calls[2]);
    AppendTwice(s.log, calls[..2], [calls[2]]);
    assert calls[..2] + [calls[2]] == calls[..3];
  }

  lemma CanceledLog(s: State, info: GoalInfo)
    requires info.uuid in s.goals && Stoppable(s, info.uuid) && s.goals[info.uuid].task.Some?
    ensures Updated(ShutDown(s, info), CancelDone, info).log ==
            Append(s.log, CancelCalls(s, info, s.goals[info.uuid].task.value))
  {
    var (u, calls) := (info.uuid, CancelCalls(s, info, s.goals[info.uuid].task.value));
    ShutDownLog(s, info);
    UpdatedLog(ShutDown(s, info), CancelDone, info);
    assert StatusesWith(ShutDown(s, info).goals, u, info, Canceled) == StatusesWith(s.goals, u, info, Canceled);
    AppendTwice(s.log, calls[..3], [calls[3], calls[4]]);
    assert calls[..3] + [calls[3], calls[4]] == calls;
  }

  lemma CanceledGoals(s: State, info: GoalInfo)
    requires info.uuid in s.goals && Stoppable(s, info.uuid) && s.goals[info.uuid].task.Some?
    ensures var (u, t) := (info.uuid, Updated(ShutDown(s, info), CancelDone, info));
            t == s.(goals := s.goals[u := s.goals[u].(status := GoalStatus(info, Canceled))],
                    live := s.live[u := NativeGoal(s.live[u].gen, Canceled)],
                    running := s.running - {s.goals[u].task.value}, log := t.log)
  {
    var (u, t) := (info.uuid, Updated(ShutDown(s, info), CancelDone, info));
    assert t.goals == s.goals[u := s.goals[u].(status := GoalStatus(info, Canceled))];
    assert t.live == s.live[u := NativeGoal(s.live[u].gen, Canceled)];
  }

  lemma EndedByCancel(s: State, info: GoalInfo, value: TaskValue, due: seq<Uuid>)
    requires info.uuid in s.goals && Stoppable(s, info.uuid) && s.goals[info.uuid].task.Some? && Usable(value)
    ensures var (task, t) := (s.goals[info.uuid].task.value, Updated(ShutDown(s, info), CancelDone, info));
            GoalEnded(s, Resulted(t, value, info.uuid, ExpiredGoals(t.live, due)), info, task,
                      CancelCalls(s, info, task), Canceled, value, due)
  {
    CanceledLog(s, info);
    CanceledGoals(s, info);
    var task := s.goals[info.uuid].task.value;
    ResultedEnds(s, Updated(ShutDown(s, info), CancelDone, info), info, task, CancelCalls(s, info, task),
                 Canceled, value, due);
  }

  /** An executing goal whose cancelation is accepted ends canceled, with the callback's result. */
  lemma CancelEnded(s: State, info: GoalInfo, value: TaskValue, due: seq<Uuid>)
    requires Inv(s) && info.uuid in s.goals && Stoppable(s, info.uuid) && Usable(value)
    ensures s.goals[info.uuid].task.Some? && CancelLiveGoal(s, info, value, due).Some?
    ensures var task := s.goals[info.uuid].task.value;
            GoalEnded(s, CancelLiveGoal(s, info, value, due).value, info, task, CancelCalls(s, info, task),
                      Canceled, value, due)
  {
    CancelShape(s, info, value, due);
    EndedByCancel(s, info, value, due);
  }

  // ---------- canceling what a request names ----------

  /** What an entry tells the requests waiting for u. */
  function EntryAnswer(e: CancelEntry, u: Uuid): Option<Response> {
    if e.info.uuid == u && e.decision.Accept? then Some(Response(Canceled, ResultOf(e.decision.value))) else None
  }

  function CancelAnswer(entries: seq<CancelEntry>, u: Uuid): Option<Response> {
    if entries == [] then None
    else
      var last := EntryAnswer(entries[|entries| - 1], u);
      if last.Some? then last else CancelAnswer(entries[..|entries| - 1], u)
  }

  /** With only answers r to v in between, the answers r to v are more by all answers, and no others are. */
  lemma {:induction false} OnlyAnswersCount(log: Log, base: Log, v: Uuid, r: Response, u: Uuid, other: Response)
    requires OnlyAnswers(log, base, v, r)
    ensures AnsweredWith(log, v, r) + Answered(base, v) == AnsweredWith(base, v, r) + Answered(log, v)
    ensures u != v || other != r ==> AnsweredWith(log, u, other) == AnsweredWith(base, u, other)
  {
    if log != base {
      OnlyAnswersCount(log.log, base, v, r, u, other);
      var more := if log.event.SentResult? then multiset{log.event.header} else multiset{};
      assert AnsweredWith(log, v, r) == AnsweredWith(log.log, v, r) + more;
      assert Answered(log, v) == Answered(log.log, v) + more;
      SameSums(AnsweredWith(log.log, v, r), Answered(base, v), AnsweredWith(base, v, r), Answered(log.log, v), more);
    }
  }

  lemma SameSums(
    a: multiset<Header>, b: multiset<Header>, c: multiset<Header>, d: multiset<Header>, m: multiset<Header>)
    requires a + b == c + d
    ensures (a + m) + b == c + (d + m)
  {
    forall h ensures ((a + m) + b)[h] == (c + (d + m))[h] {
      assert (a + b)[h] == (c + d)[h];
    }
  }

  lemma SameRest(a: multiset<Header>, b: multiset<Header>, c: multiset<Header>, w: multiset<Header>)
    requires a + b == c + (b + w)
    ensures a == c + w
  {
    forall h ensures a[h] == (c + w)[h] {
      assert (a + b)[h] == (c + (b + w))[h];
    }
  }

  ghost predicate AllAnswersGrow(log: Log, after: Log, u: Uuid, asked: multiset<Header>, answer: Option<Response>) {
    forall r :: AnswersGrow(log, after, u, r, asked, answer)
  }

  lemma OneCanceledAnswers(s: State, e: CancelEntry, u: Uuid)
    requires Inv(s) && e.info.uuid in s.live && CancelIfAccepted(s, e).Some?
    ensures AllAnswersGrow(s.log, CancelIfAccepted(s, e).value.log, u, Waiting(s.goals, u), EntryAnswer(e, u))
  {
    CancelEntryKeeps(s, e);
    if e.decision.Accept? {
      CancelAnswersWaiting(s, e.info, e.decision.value, e.due);
      var (v, t, r) := (e.info.uuid, CancelIfAccepted(s, e).value, Response(Canceled, ResultOf(e.decision.value)));
      OnlyAnswersGrow(s.log, t.log, v, r, Waiting(s.goals, v), u, Waiting(s.goals, u), EntryAnswer(e, u));
    }
  }

  lemma OnlyAnswersGrow(
    log: Log, after: Log, v: Uuid, r: Response, waiting: multiset<Header>, u: Uuid, asked: multiset<Header>,
    answer: Option<Response>)
    requires OnlyAnswers(after, log, v, r) && Answered(after, v) == Answered(log, v) + waiting
    requires if u == v then answer == Some(r) && asked == waiting else answer.None?
    ensures AllAnswersGrow(log, after, u, asked, answer)
  {
    forall other ensures AnswersGrow(log, after, u, other, asked, answer) {
      OnlyAnswersCount(after, log, v, r, u, other);
      SameRest(AnsweredWith(after, v, r), Answered(log, v), AnsweredWith(log, v, r), waiting);
    }
  }

  lemma {:induction false} NotNamedNoAnswer(entries: seq<CancelEntry>, u: Uuid)
    requires !Named(entries, u)
    ensures CancelAnswer(entries, u).None?
  {
    if entries != [] {
      NamedSnoc(entries, u);
      NotNamedNoAnswer(entries[..|entries| - 1], u);
    }
  }

  lemma LastNotNamed(s: State, mid: State, entries: seq<CancelEntry>)
    requires entries != [] && Selected(s.live, entries) && s.goals.Keys == s.live.Keys
    requires UnnamedKept(s, mid, entries[..|entries| - 1])
    ensures var u := entries[|entries| - 1].info.uuid;
            !Named(entries[..|entries| - 1], u) && Waiting(mid.goals, u) == Waiting(s.goals, u)
  {
    assert !Named(entries[..|entries| - 1], entries[|entries| - 1].info.uuid);
  }

  lemma GrowOnce(
    log: Log, mid: Log, after: Log, u: Uuid, asked: multiset<Header>, answer: Option<Response>, last: Option<Response>,
    askedLast: multiset<Header>)
    requires AllAnswersGrow(log, mid, u, asked, answer) && AllAnswersGrow(mid, after, u, askedLast, last)
    requires last.Some? ==> answer.None? && askedLast == asked
    ensures AllAnswersGrow(log, after, u, asked, if last.Some? then last else answer)
  {
    var final := if last.Some? then last else answer;
    forall r ensures AnswersGrow(log, after, u, r, asked, final) {
      assert AnswersGrow(log, mid, u, r, asked, answer) && AnswersGrow(mid, after, u, r, askedLast, last);
    }
  }

  /** Exactly the requests waiting for the goals canceled are answered, each with its own callback's result. */
  lemma {:induction false} EntriesAnswer(s: State, entries: seq<CancelEntry>, u: Uuid)
    requires Inv(s) && Selected(s.live, entries) && CancelEntries(s, entries).Some?
    ensures AllAnswersGrow(s.log, CancelEntries(s, entries).value.log, u, Waiting(s.goals, u), CancelAnswer(entries, u))
  {
    if entries != [] {
      var (before, e) := (entries[..|entries| - 1], entries[|entries| - 1]);
      BeforeLast(s, entries);
      EntriesAnswer(s, before, u);
      CancelEntriesKeep(s, before);
      var mid := CancelEntries(s, before).value;
      LastNotNamed(s, mid, entries);
      OneCanceledAnswers(mid, e, u);
      if e.info.uuid == u {
        NotNamedNoAnswer(before, u);
      }
      GrowOnce(s.log, mid.log, CancelEntries(s, entries).value.log, u, Waiting(s.goals, u), CancelAnswer(before, u),
               EntryAnswer(e, u), Waiting(mid.goals, u));
    }
  }

  lemma OneCancelRequest(s: State, take: CancelTake)
    ensures HandleCancels(s, [take]) == HandleCancel(s, take)
  {
    assert [take][..0] == [];
  }

  lemma {:induction false} ChosenDistinct(live: Live, wanted: seq<CancelEntry>, n: nat)
    requires n <= |wanted|
    ensures forall e :: e in ChosenEntries(live, wanted, n) <==>
                        exists i: nat :: i < n && Chosen(live, wanted, i) && wanted[i] == e
  {
    if n > 0 {
      ChosenDistinct(live, wanted, n - 1);
      forall e
        ensures e in ChosenEntries(live, wanted, n) <==>
                exists i: nat :: i < n && Chosen(live, wanted, i) && wanted[i] == e
      {
        if i: nat :| i < n - 1 && Chosen(live, wanted, i) && wanted[i] == e {
          assert i < n;
        }
      }
    }
  }

  /**
   A cancel request that does not raise is answered with exactly the goals it names that were accepted or
   executing, each once and as first named. The requests waiting for those whose cancelation the callback
   accepts, and no others, are answered, each with the result its callback gave.
   */
  lemma CancelRequestEffect(s: State, take: CancelTake, canceling: seq<GoalInfo>)
    requires Inv(s) && take.CancelRequest? && Step(s, NewCancels([take])).Next?
    requires var log := Step(s, NewCancels([take])).state.log;
             log.After? && log.event.SentCancel? ==> canceling == log.event.canceling
    ensures var t := Step(s, NewCancels([take])).state;
            && t.log.After? && t.log.event == SentCancel(take.header, canceling)
            && (forall g :: g in canceling <==>
                  exists i: nat :: i < |take.wanted| && Chosen(s.live, take.wanted, i) && take.wanted[i].info == g)
            && (forall j, k | 0 <= j < k < |canceling| :: canceling[j].uuid != canceling[k].uuid)
            && (forall u :: AllAnswersGrow(s.log, t.log, u, Waiting(s.goals, u),
                                           CancelAnswer(ChosenEntries(s.live, take.wanted, |take.wanted|), u)))
  {
    OneCancelRequest(s, take);
    var entries := ChosenEntries(s.live, take.wanted, |take.wanted|);
    assert take.wanted[..|take.wanted|] == take.wanted;
    SelectionIsChosen(s.live, take.wanted, |take.wanted|);
    CancelingSelected(s.live, take.wanted);
    AnnouncedAreCanceled(s, take);
    InfosAnnounced(s.live, take.wanted, entries, canceling);
    forall u
      ensures AllAnswersGrow(s.log, HandleCancel(s, take).value.log, u, Waiting(s.goals, u), CancelAnswer(entries, u))
    {
      EntriesAnswer(s, entries, u);
      NoteAnswersNothing(s.log, CancelEntries(s, entries).value.log, SentCancel(take.header, canceling), u,
                         Waiting(s.goals, u), CancelAnswer(entries, u));
    }
  }

  lemma NoteAnswersNothing(
    log: Log, after: Log, e: Event, u: Uuid, asked: multiset<Header>, answer: Option<Response>)
    requires AllAnswersGrow(log, after, u, asked, answer) && e.SentCancel?
    ensures AllAnswersGrow(log, After(after, e), u, asked, answer)
  {
    forall r ensures AnswersGrow(log, After(after, e), u, r, asked, answer) {
      assert AnswersGrow(log, after, u, r, asked, answer);
    }
  }

  lemma InfosAnnounced(live: Live, wanted: seq<CancelEntry>, entries: seq<CancelEntry>, canceling: seq<GoalInfo>)
    requires entries == ChosenEntries(live, wanted, |wanted|) && |canceling| == |entries|
    requires forall k | 0 <= k < |entries| :: canceling[k] == entries[k].info
    ensures forall g :: g in canceling <==>
              exists i: nat :: i < |wanted| && Chosen(live, wanted, i) && wanted[i].info == g
  {
    ChosenDistinct(live, wanted, |wanted|);
    forall g
      ensures g in canceling <==> exists i: nat :: i < |wanted| && Chosen(live, wanted, i) && wanted[i].info == g
    {
      if g in canceling {
        var k :| 0 <= k < |canceling| && canceling[k] == g;
        assert entries[k] in entries;
      }
      if i: nat :| i < |wanted| && Chosen(live, wanted, i) && wanted[i].info == g {
        assert wanted[i] in entries;
        var k :| 0 <= k < |entries| && entries[k] == wanted[i];
        assert canceling[k] == g;
      }
    }
  }

  // ---------- a response is kept until its goal is freed ----------

  predicate HasResponse(s: State, u: Uuid, r: Response) {
    u in s.goals && s.goals[u].response == Some(r)
  }

  /** The goal has this response, or is gone. */
  predicate ResponseStays(t: State, u: Uuid, r: Response) {
    u in t.goals ==> HasResponse(t, u, r)
  }

  lemma StaysWhenAnotherEnds(
    s: State, t: State, info: GoalInfo, task: nat, calls: seq<Event>, status: Status, value: TaskValue, due: seq<Uuid>,
    u: Uuid, r: Response)
    requires info.uuid in s.goals && info.uuid in s.live && u != info.uuid && ResponseStays(s, u, r)
    requires GoalEnded(s, t, info, task, calls, status, value, due)
    ensures ResponseStays(t, u, r)
  {
  }

  /** A goal with a response has ended, so it is not the one that is stopped now. */
  lemma NotTheOneStopped(s: State, v: Uuid, u: Uuid, r: Response)
    requires Inv(s) && ResponseStays(s, u, r) && v in s.goals && Stoppable(s, v)
    ensures u in s.goals ==> u != v
  {
    assert Settled(s, v);
  }

  lemma StaysInEntry(s: State, e: CancelEntry, u: Uuid, r: Response)
    requires Inv(s) && ResponseStays(s, u, r) && CancelIfAccepted(s, e).Some? && e.info.uuid in s.live
    ensures ResponseStays(CancelIfAccepted(s, e).value, u, r)
  {
    if e.decision.Accept? {
      var (info, value) := (e.info, e.decision.value);
      CancelEntryKeeps(s, e);
      CancelEnded(s, info, value, e.due);
      NotTheOneStopped(s, info.uuid, u, r);
      var (t, task) := (CancelIfAccepted(s, e).value, s.goals[info.uuid].task.value);
      if u in s.goals {
        StaysWhenAnotherEnds(s, t, info, task, CancelCalls(s, info, task), Canceled, value, e.due, u, r);
      } else {
        EndedAddsNone(s, t, info, task, CancelCalls(s, info, task), Canceled, value, e.due);
      }
    }
  }

  lemma EndedAddsNone(
    s: State, t: State, info: GoalInfo, task: nat, calls: seq<Event>, status: Status, value: TaskValue, due: seq<Uuid>)
    requires info.uuid in s.goals && info.uuid in s.live && GoalEnded(s, t, info, task, calls, status, value, due)
    ensures t.goals.Keys <= s.goals.Keys
  {
  }

  lemma {:induction false} StaysInEntries(s: State, entries: seq<CancelEntry>, u: Uuid, r: Response)
    requires Inv(s) && Selected(s.live, entries) && ResponseStays(s, u, r) && CancelEntries(s, entries).Some?
    ensures ResponseStays(CancelEntries(s, entries).value, u, r)
  {
    if entries != [] {
      var (before, e) := (entries[..|entries| - 1], entries[|entries| - 1]);
      BeforeLast(s, entries);
      StaysInEntries(s, before, u, r);
      StaysInEntry(CancelEntries(s, before).value, e, u, r);
    }
  }

  lemma {:induction false} StaysInCancels(s: State, takes: seq<CancelTake>, u: Uuid, r: Response)
    requires Inv(s) && ResponseStays(s, u, r) && HandleCancels(s, takes).Some?
    ensures ResponseStays(HandleCancels(s, takes).value, u, r)
  {
    if takes != [] {
      var (before, take) := (takes[..|takes| - 1], takes[|takes| - 1]);
      StaysInCancels(s, before, u, r);
      HandleCancelsKeep(s, before);
      var mid := HandleCancels(s, before).value;
      if take.CancelRequest? {
        CancelingSelected(mid.live, take.wanted);
        StaysInEntries(mid, SelectCanceling(mid.live, take.wanted), u, r);
      }
    }
  }

  lemma StaysInTask(s: State, task: nat, e: GoalEvent, value: TaskValue, due: seq<Uuid>, u: Uuid, r: Response)
    requires Inv(s) && HasResponse(s, u, r) && task in s.running && (e == Succeed || e == Abort) && Usable(value)
    ensures HandleTask(s, task, e, value, due).Some? && ResponseStays(HandleTask(s, task, e, value, due).value, u, r)
  {
    TaskFindsGoal(s, task);
    var v := FindGoal(s.goals, task).value;
    assert Settled(s, u);
    TaskEnds(s, task, e, value, due, v);
  }

  lemma StaysInExecute(s: State, info: GoalInfo, u: Uuid, r: Response)
    requires Inv(s) && HasResponse(s, u, r) && HandleExecute(s, info).Some?
    ensures ResponseStays(HandleExecute(s, info).value, u, r)
  {
    ExecuteHandled(s, info);
    assert Settled(s, u);
  }

  lemma ResponseStaysInStep(s: State, m: Message, t: State, u: Uuid, r: Response)
    requires Inv(s) && Enabled(s, m) && HasResponse(s, u, r) && Step(s, m) == Next(t)
    ensures ResponseStays(t, u, r)
  {
    match m
    case NewGoals(takes) =>
      GoalRequestsAnswered(s, takes);
      assert EntryKept(s, t, u);
    case NewCancels(takes) => StaysInCancels(s, takes, u, r);
    case NewResults(takes) =>
      ResultRequestsAnswered(s, takes);
      assert ResultsHandledFor(s, t, u, Asked(takes, u));
    case ExecuteGoal(info) => StaysInExecute(s, info, u, r);
    case TaskDone(task, value, due) =>
      StepKeeps(s, m);
      StaysInTask(s, task, Succeed, value, due, u, r);
    case TaskDown(task, due) => StaysInTask(s, task, Abort, Falsy, due, u, r);
    case PublishFeedback(_, _) =>
  }

  // ---------- what becomes of the goals of a cancel request ----------

  /** If the callback accepts, the goal ends canceled with the result it gave, and may be freed; else it stays. */
  ghost predicate Fate(s: State, t: State, e: CancelEntry) {
    var u := e.info.uuid;
    match e.decision
    case Accept(value) => IsCanceled(t, u) && ResponseStays(t, u, Response(Canceled, ResultOf(value)))
    case _ => KeptIn(s, t, u)
  }

  lemma OneResponds(s: State, e: CancelEntry)
    requires Inv(s) && e.info.uuid in s.live && e.decision.Accept? && !EntryRaises(s, e)
    ensures var next := CancelIfAccepted(s, e);
            next.Some? && ResponseStays(next.value, e.info.uuid, FateResponse(e))
  {
    CancelEnded(s, e.info, e.decision.value, e.due);
  }

  function FateResponse(e: CancelEntry): Response
    requires e.decision.Accept?
  {
    Response(Canceled, ResultOf(e.decision.value))
  }

  lemma LastResponds(mid: State, last: CancelEntry, u: Uuid, r: Response)
    requires Inv(mid) && last.info.uuid in mid.live && CancelIfAccepted(mid, last).Some?
    requires ResponseStays(mid, u, r) || (last.decision.Accept? && last.info.uuid == u && FateResponse(last) == r)
    ensures ResponseStays(CancelIfAccepted(mid, last).value, u, r)
  {
    if ResponseStays(mid, u, r) {
      StaysInEntry(mid, last, u, r);
    } else {
      CancelEntryKeeps(mid, last);
      OneResponds(mid, last);
    }
  }

  lemma SelectedBefore(live: Live, entries: seq<CancelEntry>)
    requires Selected(live, entries) && entries != []
    ensures Selected(live, entries[..|entries| - 1])
  {
  }

  /** The entries before the last leave a state in which the last finds its goal. */
  lemma BeforeLast(s: State, entries: seq<CancelEntry>)
    requires Inv(s) && Selected(s.live, entries) && entries != [] && CancelEntries(s, entries).Some?
    ensures var (mid, last) := (CancelEntries(s, entries[..|entries| - 1]), entries[|entries| - 1]);
            && Selected(s.live, entries[..|entries| - 1])
            && mid.Some? && Inv(mid.value) && last.info.uuid in mid.value.live
            && CancelEntries(s, entries) == CancelIfAccepted(mid.value, last)
  {
    var before := entries[..|entries| - 1];
    SelectedBefore(s.live, entries);
    CancelEntriesKeep(s, before);
    LastEntry(s, CancelEntries(s, before).value, entries);
  }

  lemma {:induction false} EntryResponds(s: State, entries: seq<CancelEntry>, k: nat)
    requires Inv(s) && Selected(s.live, entries) && CancelEntries(s, entries).Some?
    requires k < |entries| && entries[k].decision.Accept?
    ensures ResponseStays(CancelEntries(s, entries).value, entries[k].info.uuid, FateResponse(entries[k]))
  {
    var (before, last, e) := (entries[..|entries| - 1], entries[|entries| - 1], entries[k]);
    assert k < |before| ==> before[k] == e;
    BeforeLast(s, entries);
    if k < |before| {
      EntryResponds(s, before, k);
    }
    assert k == |before| ==> last == e;
    LastResponds(CancelEntries(s, before).value, last, e.info.uuid, FateResponse(e));
  }

  lemma EntryFate(s: State, take: CancelTake, entries: seq<CancelEntry>, k: nat)
    requires Inv(s) && take.CancelRequest? && HandleCancel(s, take).Some?
    requires entries == SelectCanceling(s.live, take.wanted) && k < |entries|
    ensures Fate(s, HandleCancel(s, take).value, entries[k])
  {
    CancelEffect(s, take);
    AnnouncedEntry(s, HandleCancel(s, take).value, entries, k);
    if entries[k].decision.Accept? {
      EntryResponds(s, entries, k);
    }
  }

  /** The callback accepted canceling u: an entry chosen names it and was accepted. */
  predicate CancelAccepted(live: Live, wanted: seq<CancelEntry>, u: Uuid) {
    exists i: nat :: i < |wanted| && Chosen(live, wanted, i) && wanted[i].info.uuid == u && wanted[i].decision.Accept?
  }

  /** Canceling is accepted but the goal does not execute, or the value is no result; or the answer is no answer. */
  predicate Blocked(live: Live, e: CancelEntry)
    requires e.info.uuid in live
  {
    match e.decision
    case Accept(value) => live[e.info.uuid].state != Executing || value.OtherMap? || value.NotAMap?
    case Reject => false
    case Unexpected => true
  }

  predicate AnyBlocked(live: Live, wanted: seq<CancelEntry>) {
    exists i: nat :: i < |wanted| && Chosen(live, wanted, i) && Blocked(live, wanted[i])
  }

  lemma BlockedRaises(s: State, take: CancelTake)
    requires s.goals.Keys == s.live.Keys && take.CancelRequest?
    ensures CancelRaises(s, take) <==> AnyBlocked(s.live, take.wanted)
  {
    var (wanted, n) := (take.wanted, |take.wanted|);
    assert wanted[..n] == wanted;
    SelectionIsChosen(s.live, wanted, n);
    ChosenDistinct(s.live, wanted, n);
    var entries := ChosenEntries(s.live, wanted, n);
    if e :| e in entries && EntryRaises(s, e) {
      var i: nat :| i < n && Chosen(s.live, wanted, i) && wanted[i] == e;
      assert Blocked(s.live, wanted[i]);
    }
    if i: nat :| i < n && Chosen(s.live, wanted, i) && Blocked(s.live, wanted[i]) {
      assert wanted[i] in entries && EntryRaises(s, wanted[i]);
    }
  }

  /** A cancel request raises if and only if one of the goals it chose is blocked, in the state the request found. */
  lemma CancelRequestRaises(s: State, take: CancelTake)
    requires Inv(s) && take.CancelRequest?
    ensures Step(s, NewCancels([take])).Raised? <==> AnyBlocked(s.live, take.wanted)
  {
    OneCancelRequest(s, take);
    BlockedRaises(s, take);
    HandleCancelKeeps(s, take);
  }

  lemma NamedIsAccepted(live: Live, wanted: seq<CancelEntry>, v: Uuid)
    ensures Named(ChosenEntries(live, wanted, |wanted|), v) ==> CancelAccepted(live, wanted, v)
  {
    var entries := ChosenEntries(live, wanted, |wanted|);
    ChosenDistinct(live, wanted, |wanted|);
    if k :| 0 <= k < |entries| && entries[k].info.uuid == v && entries[k].decision.Accept? {
      assert entries[k] in entries;
    }
  }

  lemma ChosenFate(s: State, take: CancelTake, i: nat)
    requires Inv(s) && take.CancelRequest? && HandleCancel(s, take).Some?
    requires ChosenEntries(s.live, take.wanted, |take.wanted|) == SelectCanceling(s.live, take.wanted)
    requires i < |take.wanted| && Chosen(s.live, take.wanted, i)
    ensures Fate(s, HandleCancel(s, take).value, take.wanted[i])
  {
    var entries := SelectCanceling(s.live, take.wanted);
    ChosenDistinct(s.live, take.wanted, |take.wanted|);
    assert take.wanted[i] in entries;
    var k :| 0 <= k < |entries| && entries[k] == take.wanted[i];
    EntryFate(s, take, entries, k);
  }

  /** After a cancel request each goal it chose has met its fate; no other unfinished one changes. */
  lemma CancelRequestFates(s: State, take: CancelTake)
    requires Inv(s) && take.CancelRequest? && Step(s, NewCancels([take])).Next?
    ensures var t := Step(s, NewCancels([take])).state;
            && (forall i: nat | i < |take.wanted| && Chosen(s.live, take.wanted, i) :: Fate(s, t, take.wanted[i]))
            && (forall v | v in s.live && !Terminal(s.live[v].state) && !CancelAccepted(s.live, take.wanted, v) ::
                  KeptIn(s, t, v))
  {
    OneCancelRequest(s, take);
    var (t, n) := (HandleCancel(s, take).value, |take.wanted|);
    assert take.wanted[..n] == take.wanted;
    SelectionIsChosen(s.live, take.wanted, n);
    CancelEffect(s, take);
    forall i: nat | i < n && Chosen(s.live, take.wanted, i) ensures Fate(s, t, take.wanted[i]) {
      ChosenFate(s, take, i);
    }
    forall v | v in s.live && !Terminal(s.live[v].state) && !CancelAccepted(s.live, take.wanted, v)
      ensures KeptIn(s, t, v)
    {
      NamedIsAccepted(s.live, take.wanted, v);
    }
  }

  /** For as long as the goal is not freed, it keeps its response. */
  lemma {:induction false} ResponseKeptUntilFreed(
    states: seq<State>, msgs: seq<Message>, i: nat, j: nat, u: Uuid, r: Response)
    requires Run(states, msgs) && i <= j <= |msgs| && HasResponse(states[i], u, r)
    requires forall k | i <= k <= j :: u in states[k].goals
    ensures HasResponse(states[j], u, r)
  {
    if i < j {
      ResponseKeptUntilFreed(states, msgs, i, j - 1, u, r);
      ResponseKeptNext(states, msgs, j, u, r);
    }
  }

  lemma ResponseKeptNext(states: seq<State>, msgs: seq<Message>, j: nat, u: Uuid, r: Response)
    requires Run(states, msgs) && 0 < j <= |msgs| && HasResponse(states[j - 1], u, r)
    ensures ResponseStays(states[j], u, r)
  {
    StepOf(states, msgs, j - 1);
    ResponseStaysInStep(states[j - 1], msgs[j - 1], states[j], u, r);
  }

  /**
   A request that comes after the goal's task ended with a result, while the goal is not freed, is answered
   with that result: the requests for u of a later notification all get it, and none gets anything else.
   */
  lemma LaterRequestsGetTheResult(
    states: seq<State>, msgs: seq<Message>, i: nat, j: nat, u: Uuid, task: nat, p: Payload, due: seq<Uuid>,
    takes: seq<ResultTake>)
    requires Run(states, msgs) && i < j < |msgs|
    requires msgs[i] == TaskDone(task, Struct(p), due) && u in states[i].goals && states[i].goals[u].task == Some(task)
    requires forall k | i <= k <= j :: u in states[k].goals
    requires msgs[j] == NewResults(takes)
    ensures LogHandledFor(states[j].log, states[j + 1].log, u, Asked(takes, u),
                          Some(Response(Succeeded, ResultMsg(p))))
  {
    StepOf(states, msgs, i);
    TaskDoneEffect(states[i], task, Struct(p), due, u);
    ResponseKeptUntilFreed(states, msgs, i + 1, j, u, Response(Succeeded, ResultMsg(p)));
    StepOf(states, msgs, j);
    ResultRequestsAnswered(states[j], takes);
    assert ResultsHandledFor(states[j], states[j + 1], u, Asked(takes, u));
  }

  /** Feedback is passed on as it came, and nothing else happens. */
  lemma FeedbackEffect(s: State, u: Uuid, feedback: Payload)
    ensures Step(s, PublishFeedback(u, feedback)) == Next(s.(log := After(s.log, Feedback(u, feedback))))
  {
  }
}

/**
 What holds in every state of every run of the clients, their callers and the middleware: no number is lost
 or answered twice, responses reach those that asked, late ones match no wait, and who waits is served.
 */
module ServiceClientTheorems {
  import opened Wrappers
  import opened ServiceClient

  lemma StepKeeps(s: State, m: Message)
    requires Inv(s) && Enabled(s, m)
    ensures Inv(Step(s, m))
  {
    match m
    case StartClient(client) => StartKeeps(s, client);
    case StopClient(client) => StopKeeps(s, client);
    case CallAsync(client, request) =>
      if Alive(s, client) {
        CallKeeps(s, Step(s, m), client, Async(request), false);
      }
    case CallSync(client, c, request, timed) =>
      if Alive(s, client) {
        CallKeeps(s, Step(s, m), client, Sync(request, c, s.nextRef), timed);
      }
    case NewResponses(client, taken) => ResponsesKeep(s, client, taken);
    case RemovePending(k) => RemovalKeeps(s, k);
    case CallerReceives(mail) => ReceiveKeeps(s, mail);
    case CallerTimesOut(c) => GiveUpKeeps(s, c);
  }

  // ---------- every run ----------

  ghost predicate StepAt(states: seq<State>, msgs: seq<Message>, i: nat)
    requires i < |msgs| && |states| == |msgs| + 1
  {
    Enabled(states[i], msgs[i]) && states[i + 1] == Step(states[i], msgs[i])
  }

  ghost predicate Run(states: seq<State>, msgs: seq<Message>) {
    && |states| == |msgs| + 1 && states[0] == Init
    && forall i | 0 <= i < |msgs| :: StepAt(states, msgs, i)
  }

  lemma {:induction false} RunKeeps(states: seq<State>, msgs: seq<Message>, i: nat)
    requires Run(states, msgs) && i <= |msgs|
    ensures Inv(states[i])
  {
    if i > 0 {
      RunKeeps(states, msgs, i - 1);
      assert StepAt(states, msgs, i - 1);
      StepKeeps(states[i - 1], msgs[i - 1]);
    } else {
      InitHolds();
    }
  }

  /**
   Every number a client issued is pending, or was answered to its caller, or ran its callback, or was
   withdrawn after a timeout: exactly one of the four while the client runs, and at most one once it has
   stopped, however often and in whatever order the middleware answers.
   */
  lemma NumbersConserved(states: seq<State>, msgs: seq<Message>, i: nat, k: Key)
    requires Run(states, msgs) && i <= |msgs|
    ensures var s := states[i];
            var found := Count(s.log, Delivered, k) + Count(s.log, Ran, k) + Count(s.log, Withdrawn, k)
                         + Bit(Pending(s, k));
            && Count(s.log, Issued, k) == Bit(HasNumber(s, k))
            && found <= Count(s.log, Issued, k)
            && (Alive(s, k.client) ==> found == Count(s.log, Issued, k))
  {
    RunKeeps(states, msgs, i);
    assert Numbered(states[i], k);
  }

  ghost predicate Within(prefix: Log, log: Log) {
    prefix == log || (log.After? && Within(prefix, log.log))
  }

  lemma {:induction false} LegalWithin(prefix: Log, log: Log)
    requires LegalLog(log) && Within(prefix, log)
    ensures LegalLog(prefix)
  {
    if prefix != log {
      LegalWithin(prefix, log.log);
    }
  }

  predicate WasTaken(log: Log, k: Key, p: Payload) {
    log.After? && (log.event == Take(k, p) || WasTaken(log.log, k, p))
  }

  lemma {:induction false} DeliveredWasTaken(log: Log, k: Key)
    requires LegalLog(log) && Delivery(log, k).Some?
    ensures WasTaken(log, k, Delivery(log, k).value)
  {
    if !Is(log.event, Delivered, k) {
      DeliveredWasTaken(log.log, k);
    }
  }

  /**
   A response reaches only the caller, or the callback, of the call that got its number at that client, at
   most once; a synchronous call returns only a payload its own client took under its own number, although
   other clients' responses with the same number may be in the mailbox, and not after timing out.
   */
  lemma ResponseReachesIssuer(states: seq<State>, msgs: seq<Message>, i: nat, before: Log, e: Event)
    requires Run(states, msgs) && i <= |msgs| && Within(After(before, e), states[i].log)
    ensures e.Deliver? || e.RunCallback? ==> WasTaken(before, e.key, e.payload) && Resolved(before, e.key) == 0
    ensures e.Deliver? ==> IssuedBy(before, e.key, e.caller, e.ref)
    ensures e.RunCallback? ==> IssueOf(before, e.key) == Some(Async(e.request))
    ensures e.Return? ==>
              && IssuedBy(before, e.key, e.caller, e.ref)
              && WasTaken(before, e.key, e.payload)
              && Closed(before, e.key) == 0
  {
    RunKeeps(states, msgs, i);
    LegalWithin(After(before, e), states[i].log);
    if e.Return? {
      DeliveredWasTaken(before, e.key);
    }
  }

  /** Once the removal of a timed-out call has been handled its entry is gone, and only such calls are removed. */
  lemma TimedOutIsGone(states: seq<State>, msgs: seq<Message>, i: nat, k: Key)
    requires Run(states, msgs) && i <= |msgs|
    ensures var s := states[i];
            && (Count(s.log, TimedOut, k) > 0 && k !in s.removals ==> !Pending(s, k))
            && s.removals[k] <= Count(s.log, TimedOut, k) <= 1
  {
    RunKeeps(states, msgs, i);
    assert Numbered(states[i], k);
  }

  /** No two calls, at one client or at two, are made under the same reference. */
  lemma RefsAreDistinct(
    states: seq<State>, msgs: seq<Message>, i: nat, k: Key, j: Key, c: Caller, d: Caller, ref: nat)
    requires Run(states, msgs) && i <= |msgs|
    requires IssuedBy(states[i].log, k, c, ref) && IssuedBy(states[i].log, j, d, ref)
    ensures k == j && c == d
  {
    RunKeeps(states, msgs, i);
    assert Numbered(states[i], k) && Numbered(states[i], j);
  }

  /**
   The response of a call that has timed out may still arrive in the caller's mailbox, when the removal
   was overtaken. It then stays there: no wait, of this caller or another, for this client or another that
   happens to use the same number, matches it, because the reference differs.
   */
  lemma LateResponseNeverMatches(states: seq<State>, msgs: seq<Message>, i: nat, mail: Mail, k: Key, c: Caller)
    requires Run(states, msgs) && i <= |msgs|
    requires mail in states[i].mail && IssuedBy(states[i].log, k, mail.to, mail.ref)
    requires Count(states[i].log, TimedOut, k) > 0 && c in states[i].waiting
    ensures !Matches(states[i].waiting[c], mail)
  {
    RunKeeps(states, msgs, i);
    var (s, w) := (states[i], states[i].waiting[c]);
    assert Waits(s, c) && Numbered(s, k) && Numbered(s, w.key);
  }

  /** Of all messages the caller's wait could match, the mailbox holds this one, once. */
  ghost predicate OnlyAnswer(s: State, c: Caller, p: Payload)
    requires c in s.waiting
  {
    var w := s.waiting[c];
    forall q: Payload :: s.mail[Mail(c, w.key.number, w.ref, q)] == Bit(q == p)
  }

  ghost predicate Answered(s: State, c: Caller)
    requires c in s.waiting
  {
    exists p: Payload :: OnlyAnswer(s, c, p)
  }

  lemma AnsweredIffDelivered(s: State, c: Caller)
    requires Inv(s) && c in s.waiting
    ensures Answered(s, c) <==> Delivery(s.log, s.waiting[c].key).Some?
  {
    var w := s.waiting[c];
    assert Waits(s, c) && Numbered(s, w.key);
    forall q: Payload
      ensures s.mail[Mail(c, w.key.number, w.ref, q)] == Bit(Delivery(s.log, w.key) == Some(q))
    {
      assert Posted(s, Mail(c, w.key.number, w.ref, q));
    }
    match Delivery(s.log, w.key)
    case Some(p) => assert OnlyAnswer(s, c, p);
    case None =>
      forall p: Payload ensures !OnlyAnswer(s, c, p) {
        assert s.mail[Mail(c, w.key.number, w.ref, p)] == 0;
      }
  }

  /**
   A waiting caller's call is pending, or its one response is in its mailbox, and never both, exactly when
   its client runs or had sent the response before it stopped. Otherwise nobody is left to answer.
   */
  lemma WaitingIsServed(states: seq<State>, msgs: seq<Message>, i: nat, c: Caller)
    requires Run(states, msgs) && i <= |msgs| && c in states[i].waiting
    ensures var (s, w) := (states[i], states[i].waiting[c]);
            && (Pending(s, w.key) || Answered(s, c) <==> Alive(s, w.key.client) || Delivery(s.log, w.key).Some?)
            && !(Pending(s, w.key) && Answered(s, c))
            && (Pending(s, w.key) ==>
              && IssuedBy(s.log, w.key, c, w.ref) && PendingOf(s, w.key) == IssueOf(s.log, w.key)
              && forall mail | mail in s.mail && mail.to == c :: !Matches(w, mail))
  {
    RunKeeps(states, msgs, i);
    var (s, w) := (states[i], states[i].waiting[c]);
    assert Waits(s, c) && Numbered(s, w.key) && Sane(s.clients[w.key.client]);
    AnsweredIffDelivered(s, c);
    if Pending(s, w.key) {
      forall mail | mail in s.mail && mail.to == c ensures !Matches(w, mail) {
        assert Posted(s, mail);
      }
    }
  }

  /** c waits without a timeout for a client that stopped before it answered. */
  predicate Stranded(s: State, c: Caller) {
    && c in s.waiting && !s.waiting[c].timed
    && s.waiting[c].key.client in s.clients && !s.clients[s.waiting[c].key.client].alive
    && Delivery(s.log, s.waiting[c].key).None?
  }

  /** What the handlers of one client leave alone. */
  ghost predicate ElsewhereKept(s: State, t: State, client: nat) {
    && t.waiting == s.waiting
    && (forall other | other != client && other in s.clients ::
         other in t.clients && t.clients[other] == s.clients[other])
    && (forall k: Key | k.client != client :: Delivery(t.log, k) == Delivery(s.log, k))
  }

  lemma ResponseElsewhere(s: State, client: nat, taken: Taken)
    ensures ElsewhereKept(s, HandleResponse(s, client, taken), client)
  {
  }

  lemma {:induction false} ResponsesElsewhere(s: State, client: nat, taken: seq<Taken>)
    ensures ElsewhereKept(s, HandleResponses(s, client, taken), client)
  {
    if taken != [] {
      ResponsesElsewhere(s, client, taken[..|taken| - 1]);
      ResponseElsewhere(HandleResponses(s, client, taken[..|taken| - 1]), client, taken[|taken| - 1]);
    }
  }

  lemma StrandedStep(s: State, m: Message, c: Caller)
    requires Inv(s) && Enabled(s, m) && Stranded(s, c)
    ensures Stranded(Step(s, m), c) && Step(s, m).waiting[c] == s.waiting[c]
  {
    match m
    case NewResponses(client, taken) => ResponsesElsewhere(s, client, taken);
    case CallerReceives(mail) => MatchIsOwn(s, mail);
    case _ =>
  }

  /** A caller that waits without a timeout for a client that stopped before answering waits for ever. */
  lemma {:induction false} StrandedForever(states: seq<State>, msgs: seq<Message>, i: nat, j: nat, c: Caller)
    requires Run(states, msgs) && i <= j <= |msgs| && Stranded(states[i], c)
    ensures Stranded(states[j], c) && states[j].waiting[c] == states[i].waiting[c]
  {
    if i < j {
      StrandedForever(states, msgs, i, j - 1, c);
      RunKeeps(states, msgs, j - 1);
      assert StepAt(states, msgs, j - 1);
      StrandedStep(states[j - 1], msgs[j - 1], c);
    }
  }

  /** A run of three messages that leaves a caller so. */
  lemma StoppedUnderCaller(c: Caller, request: Request) returns (states: seq<State>, msgs: seq<Message>)
    ensures Run(states, msgs) && msgs == [StartClient(0), CallSync(0, c, request, false), StopClient(0)]
    ensures Stranded(states[3], c)
  {
    msgs := [StartClient(0), CallSync(0, c, request, false), StopClient(0)];
    var started := Step(Init, msgs[0]);
    var called := Step(started, msgs[1]);
    states := [Init, started, called, Step(called, msgs[2])];
    assert StepAt(states, msgs, 0) && StepAt(states, msgs, 1) && StepAt(states, msgs, 2);
  }

  // Two clients, one caller: its call at client 0 times out and is answered late.

  const IDLE: Client := Client(map[], 1, true)

  function BothStarted(): State {
    Init.(clients := map[0 := IDLE, 1 := IDLE])
  }

  function TimedOutAt0(c: Caller, request: Request): State {
    BothStarted().(
      clients := map[0 := Client(map[1 := Sync(request, c, 0)], 2, true), 1 := IDLE],
      nextRef := 1,
      removals := multiset{Key(0, 1)},
      log := After(After(Start, Issue(Key(0, 1), Sync(request, c, 0))), TimeOut(Key(0, 1), c, 0)))
  }

  lemma TimesOutAt0(c: Caller, request: Request)
    ensures var called := Step(BothStarted(), CallSync(0, c, request, true));
            Enabled(called, CallerTimesOut(c)) && Step(called, CallerTimesOut(c)) == TimedOutAt0(c, request)
  {
    var called := Step(BothStarted(), CallSync(0, c, request, true));
    assert called.waiting == map[c := Wait(Key(0, 1), 0, true)] && called.mail == multiset{};
    var gone := Step(called, CallerTimesOut(c));
    assert gone.clients == TimedOutAt0(c, request).clients && gone.waiting == map[];
  }

  lemma AnsweredLate(c: Caller, request: Request, p: Payload)
    ensures var late := Step(TimedOutAt0(c, request), NewResponses(0, [Response(1, p)]));
            && late.mail == multiset{Mail(c, 1, 0, p)} && late.waiting == map[] && late.nextRef == 1
            && 1 in late.clients && late.clients[1] == IDLE
  {
    var (s, taken) := (TimedOutAt0(c, request), [Response(1, p)]);
    assert taken[..0] == [];
    assert HandleResponses(s, 0, taken) == HandleResponse(s, 0, taken[0]);
    assert PendingOf(s, Key(0, 1)) == Some(Sync(request, c, 0));
  }

  /**
   The caller then waits at client 1 for the same number. The late message is for this caller and has the
   number it waits for; only the reference keeps it from being taken for the answer.
   */
  lemma SameNumberElsewhere(c: Caller, request: Request, p: Payload)
    ensures Enabled(Init, StartClient(0)) && Enabled(Step(Init, StartClient(0)), StartClient(1))
    ensures Step(Step(Init, StartClient(0)), StartClient(1)) == BothStarted()
    ensures var called := Step(BothStarted(), CallSync(0, c, request, true));
            Enabled(called, CallerTimesOut(c)) && Step(called, CallerTimesOut(c)) == TimedOutAt0(c, request)
    ensures var late := Step(TimedOutAt0(c, request), NewResponses(0, [Response(1, p)]));
            && Enabled(late, CallSync(1, c, request, true))
            && var s := Step(late, CallSync(1, c, request, true));
               && Mail(c, 1, 0, p) in s.mail && s.waiting == map[c := Wait(Key(1, 1), 1, true)]
               && !Matches(s.waiting[c], Mail(c, 1, 0, p))
  {
    TimesOutAt0(c, request);
    AnsweredLate(c, request, p);
  }
}

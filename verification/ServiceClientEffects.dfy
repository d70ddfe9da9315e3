/**
 What each message to a service client or its callers does, told from the message and the state it finds.
 None of the statements mentions a handler other than Step.
 */
module ServiceClientEffects {
  import opened Wrappers
  import opened ServiceClient

  /** The log with more entries, oldest first. */
  function Append(log: Log, events: seq<Event>): Log {
    if events == [] then log else After(Append(log, events[..|events| - 1]), events[|events| - 1])
  }

  lemma AppendSnoc(log: Log, events: seq<Event>, e: Event)
    ensures Append(log, events + [e]) == After(Append(log, events), e)
  {
    assert (events + [e])[..|events|] == events;
  }

  /** Which clients there are, whether they run, and what number each gives next. */
  ghost predicate SameClients(s: State, t: State) {
    && t.clients.Keys == s.clients.Keys
    && forall c | c in s.clients :: t.clients[c].next == s.clients[c].next && t.clients[c].alive == s.clients[c].alive
  }

  // ---------- responses ----------

  predicate Names(taken: Taken, number: nat) {
    taken.Response? && taken.number == number
  }

  predicate Named(taken: seq<Taken>, n: nat, number: nat)
    requires n <= |taken|
  {
    exists i: nat :: i < n && Names(taken[i], number)
  }

  /** Response i is the first of its notification to a call that was pending before. */
  predicate Settles(s: State, client: nat, taken: seq<Taken>, i: nat)
    requires i < |taken|
  {
    taken[i].Response? && Pending(s, Key(client, taken[i].number)) && !Named(taken, i, taken[i].number)
  }

  /** Response i is taken; the first to a pending call goes to its caller under its reference, or to its callback. */
  function Outcome(s: State, client: nat, taken: seq<Taken>, i: nat): seq<Event>
    requires i < |taken|
  {
    match taken[i]
    case TakeFailed => []
    case Response(number, p) =>
      var k := Key(client, number);
      if !Settles(s, client, taken, i) then [Take(k, p)]
      else
        match PendingOf(s, k).value
        case Sync(_, caller, ref) => [Take(k, p), Deliver(k, caller, ref, p)]
        case Async(request) => [Take(k, p), RunCallback(k, request, p)]
  }

  function Outcomes(s: State, client: nat, taken: seq<Taken>, n: nat): seq<Event>
    requires n <= |taken|
  {
    if n == 0 then [] else Outcomes(s, client, taken, n - 1) + Outcome(s, client, taken, n - 1)
  }

  function MailOf(s: State, client: nat, taken: seq<Taken>, i: nat): multiset<Mail>
    requires i < |taken|
  {
    if !Settles(s, client, taken, i) then multiset{}
    else
      match PendingOf(s, Key(client, taken[i].number)).value
      case Sync(_, caller, ref) => multiset{Mail(caller, taken[i].number, ref, taken[i].payload)}
      case Async(_) => multiset{}
  }

  function Mails(s: State, client: nat, taken: seq<Taken>, n: nat): multiset<Mail>
    requires n <= |taken|
  {
    if n == 0 then multiset{} else Mails(s, client, taken, n - 1) + MailOf(s, client, taken, n - 1)
  }

  /** A call is pending still, as it was, unless a response to its client names it. */
  predicate PendingStill(s: State, t: State, client: nat, taken: seq<Taken>, n: nat, k: Key)
    requires n <= |taken|
  {
    PendingOf(t, k) == if k.client == client && Named(taken, n, k.number) then None else PendingOf(s, k)
  }

  /** t is s after the first n responses of a notification. */
  ghost predicate ResponsesHandled(s: State, t: State, client: nat, taken: seq<Taken>, n: nat)
    requires n <= |taken|
  {
    && t.log == Append(s.log, Outcomes(s, client, taken, n))
    && t.mail == s.mail + Mails(s, client, taken, n)
    && t.waiting == s.waiting && t.removals == s.removals && t.nextRef == s.nextRef
    && SameClients(s, t)
    && forall k :: PendingStill(s, t, client, taken, n, k)
  }

  lemma PendingNext(s: State, mid: State, client: nat, taken: seq<Taken>, n: nat, next: nat, k: Key)
    requires n < |taken| && next == n + 1 && PendingStill(s, mid, client, taken, n, k)
    ensures PendingStill(s, HandleResponse(mid, client, taken[n]), client, taken, next, k)
  {
    assert Named(taken, next, k.number) <==> Named(taken, n, k.number) || Names(taken[n], k.number) by {
      if Named(taken, n, k.number) {
        var i: nat :| i < n && Names(taken[i], k.number);
        assert i < next;
      }
    }
  }

  /** t is mid with one response handled, to a call whose entry in mid is given. */
  ghost predicate OneResponse(mid: State, t: State, k: Key, p: Payload, entry: Option<Entry>) {
    && t.waiting == mid.waiting && t.removals == mid.removals && t.nextRef == mid.nextRef && SameClients(mid, t)
    && var took := After(mid.log, Take(k, p));
       match entry
       case None => t.log == took && t.mail == mid.mail
       case Some(Sync(_, caller, ref)) =>
         && t.log == After(took, Deliver(k, caller, ref, p))
         && t.mail == mid.mail + multiset{Mail(caller, k.number, ref, p)}
       case Some(Async(request)) => t.log == After(took, RunCallback(k, request, p)) && t.mail == mid.mail
  }

  lemma OneResponseShape(mid: State, client: nat, number: nat, p: Payload)
    ensures OneResponse(mid, HandleResponse(mid, client, Response(number, p)), Key(client, number), p,
                        PendingOf(mid, Key(client, number)))
  {
  }

  lemma OutcomeLogged(s: State, mid: State, t: State, client: nat, taken: seq<Taken>, n: nat, entry: Option<Entry>)
    requires n < |taken| && taken[n].Response?
    requires entry == if Settles(s, client, taken, n) then PendingOf(s, Key(client, taken[n].number)) else None
    requires OneResponse(mid, t, Key(client, taken[n].number), taken[n].payload, entry)
    requires mid.log == Append(s.log, Outcomes(s, client, taken, n))
    ensures t.log == Append(s.log, Outcomes(s, client, taken, n + 1))
  {
    var (before, take) := (Outcomes(s, client, taken, n), Take(Key(client, taken[n].number), taken[n].payload));
    AppendSnoc(s.log, before, take);
    if entry.Some? {
      var e := t.log.event;
      AppendSnoc(s.log, before + [take], e);
      assert before + [take] + [e] == before + [take, e];
      assert Outcome(s, client, taken, n) == [take, e];
    }
  }

  lemma MailLogged(s: State, mid: State, t: State, client: nat, taken: seq<Taken>, n: nat, entry: Option<Entry>)
    requires n < |taken| && taken[n].Response?
    requires entry == if Settles(s, client, taken, n) then PendingOf(s, Key(client, taken[n].number)) else None
    requires OneResponse(mid, t, Key(client, taken[n].number), taken[n].payload, entry)
    requires mid.mail == s.mail + Mails(s, client, taken, n)
    ensures t.mail == s.mail + Mails(s, client, taken, n + 1)
  {
  }

  lemma ResponseHandledNext(s: State, mid: State, client: nat, taken: seq<Taken>, n: nat)
    requires n < |taken| && ResponsesHandled(s, mid, client, taken, n)
    ensures var t := HandleResponse(mid, client, taken[n]);
            && t.log == Append(s.log, Outcomes(s, client, taken, n + 1))
            && t.mail == s.mail + Mails(s, client, taken, n + 1)
            && t.waiting == s.waiting && t.removals == s.removals && t.nextRef == s.nextRef && SameClients(s, t)
  {
    match taken[n]
    case TakeFailed => assert Outcomes(s, client, taken, n) + [] == Outcomes(s, client, taken, n);
    case Response(number, p) =>
      var k := Key(client, number);
      assert PendingStill(s, mid, client, taken, n, k);
      var (t, entry) := (HandleResponse(mid, client, taken[n]), PendingOf(mid, k));
      OneResponseShape(mid, client, number, p);
      OutcomeLogged(s, mid, t, client, taken, n, entry);
      MailLogged(s, mid, t, client, taken, n, entry);
  }

  lemma ResponsesHandledNext(s: State, mid: State, client: nat, taken: seq<Taken>, n: nat, next: nat)
    requires n < |taken| && next == n + 1 && ResponsesHandled(s, mid, client, taken, n)
    ensures ResponsesHandled(s, HandleResponse(mid, client, taken[n]), client, taken, next)
  {
    ResponseHandledNext(s, mid, client, taken, n);
    forall k ensures PendingStill(s, HandleResponse(mid, client, taken[n]), client, taken, next, k) {
      assert PendingStill(s, mid, client, taken, n, k);
      PendingNext(s, mid, client, taken, n, next, k);
    }
  }

  lemma {:induction false} ResponsesHandledUpTo(s: State, client: nat, taken: seq<Taken>, n: nat)
    requires n <= |taken|
    ensures ResponsesHandled(s, HandleResponses(s, client, taken[..n]), client, taken, n)
  {
    if n == 0 {
      assert taken[..0] == [];
    } else {
      ResponsesHandledUpTo(s, client, taken, n - 1);
      assert taken[..n][..n - 1] == taken[..n - 1];
      ResponsesHandledNext(s, HandleResponses(s, client, taken[..n - 1]), client, taken, n - 1, n);
    }
  }

  /**
   Every response of a notification is taken, once. After it no call it names is pending at this client; each
   that was has had the payload of the first response to it sent to its caller, under the caller's reference,
   or handed to its callback, exactly once. Calls not named, and other clients, are as they were.
   */
  lemma ResponsesEffect(s: State, client: nat, taken: seq<Taken>)
    requires Enabled(s, NewResponses(client, taken))
    ensures ResponsesHandled(s, Step(s, NewResponses(client, taken)), client, taken, |taken|)
  {
    ResponsesHandledUpTo(s, client, taken, |taken|);
    assert taken[..|taken|] == taken;
  }

  // ---------- calls ----------

  /** t is s with a call under the client's next number. */
  ghost predicate CallIssued(s: State, t: State, client: nat, entry: Entry)
    requires client in s.clients
  {
    var k := Key(client, s.clients[client].next);
    && t.clients.Keys == s.clients.Keys
    && (forall c | c in s.clients ::
         && t.clients[c].alive == s.clients[c].alive
         && t.clients[c].next == s.clients[c].next + if c == client then 1 else 0)
    && !Pending(s, k) && (forall j :: PendingOf(t, j) == if j == k then Some(entry) else PendingOf(s, j))
    && t.mail == s.mail && t.removals == s.removals && t.log == After(s.log, Issue(k, entry))
  }

  /** A call to a running client is issued and pending; one to a client that is not there changes nothing. */
  lemma CallAsyncEffect(s: State, client: nat, request: Request)
    requires Inv(s)
    ensures var t := Step(s, CallAsync(client, request));
            if !Alive(s, client) then t == s
            else CallIssued(s, t, client, Async(request)) && t.waiting == s.waiting && t.nextRef == s.nextRef
  {
    if Alive(s, client) {
      assert Numbered(s, NextKey(s, client));
    }
  }

  /** So is a synchronous one, and its caller waits for its number under a reference no one had before. */
  lemma CallSyncEffect(s: State, client: nat, c: Caller, request: Request, timed: bool)
    requires Inv(s) && Enabled(s, CallSync(client, c, request, timed))
    ensures var t := Step(s, CallSync(client, c, request, timed));
            if !Alive(s, client) then t == s
            else
              && RefOwner(s.log, s.nextRef).None? && t.nextRef == s.nextRef + 1
              && CallIssued(s, t, client, Sync(request, c, s.nextRef))
              && t.waiting == s.waiting[c := Wait(Key(client, s.clients[client].next), s.nextRef, timed)]
  {
    if Alive(s, client) {
      assert Numbered(s, NextKey(s, client));
    }
  }

  // ---------- the end of a wait ----------

  /** A caller that receives returns the payload of the message it matched, which leaves its mailbox. */
  lemma ReceiveEffect(s: State, mail: Mail)
    requires Enabled(s, CallerReceives(mail))
    ensures var (t, w) := (Step(s, CallerReceives(mail)), s.waiting[mail.to]);
            t == s.(waiting := s.waiting - {mail.to}, mail := s.mail - multiset{mail},
                    log := After(s.log, Return(w.key, mail.to, w.ref, mail.payload)))
  {
  }

  /** A caller that gives up stops waiting and casts one removal of its call. */
  lemma TimeOutEffect(s: State, c: Caller)
    requires Enabled(s, CallerTimesOut(c))
    ensures var (t, w) := (Step(s, CallerTimesOut(c)), s.waiting[c]);
            t == s.(waiting := s.waiting - {c}, removals := s.removals + multiset{w.key},
                    log := After(s.log, TimeOut(w.key, c, w.ref)))
  {
  }

  /** A removal takes its call from the pending ones, if it is there still, and leaves all others. */
  lemma RemovalEffect(s: State, k: Key)
    requires Enabled(s, RemovePending(k))
    ensures var t := Step(s, RemovePending(k));
            && (forall j :: PendingOf(t, j) == if j == k then None else PendingOf(s, j))
            && SameClients(s, t) && t.removals == s.removals - multiset{k}
            && t.waiting == s.waiting && t.mail == s.mail && t.nextRef == s.nextRef
            && t.log == After(s.log, HandleRemoval(k, Pending(s, k)))
  {
  }

  /** A client starts with nothing pending and numbers from one; one that stops forgets what was pending. */
  lemma StartStopEffect(s: State, client: nat)
    ensures Enabled(s, StartClient(client)) ==>
              Step(s, StartClient(client)) == s.(clients := s.clients[client := Client(map[], 1, true)])
    ensures Enabled(s, StopClient(client)) ==>
              var t := Step(s, StopClient(client));
              && t == s.(clients := t.clients) && t.clients.Keys == s.clients.Keys && !Alive(t, client)
              && (forall c | c in s.clients && c != client :: t.clients[c] == s.clients[c])
              && t.clients[client].next == s.clients[client].next
              && forall j :: PendingOf(t, j) == if j.client == client then None else PendingOf(s, j)
  {
  }
}

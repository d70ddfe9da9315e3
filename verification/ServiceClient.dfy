/**
 Service clients and their callers. Each client process keeps a table of pending requests, keyed by the
 sequence numbers of its own native client, for asynchronous calls (a callback is run) and synchronous ones
 (a message is sent to the waiting caller). Clients come and go, and each numbers its requests from one, so
 the same number is in use at several clients at once. A caller makes one synchronous call at a time, to
 whichever client it likes, under a fresh reference; the response message carries the number and the
 reference but not the client. When a wait times out, the caller casts a removal that the client handles
 whenever it gets to it.
 */
module ServiceClient {
  import opened Wrappers

  datatype Request = Request(id: nat)
  datatype Payload = Payload(id: nat)
  datatype Caller = Caller(pid: nat)

  /** A request of one client. */
  datatype Key = Key(client: nat, number: nat)

  datatype Entry = Async(request: Request) | Sync(request: Request, caller: Caller, ref: nat)

  /** A service response message in a caller's mailbox. */
  datatype Mail = Mail(to: Caller, number: nat, ref: nat, payload: Payload)

  /** What a caller waits for; it knows the client, but the message will not name it. */
  datatype Wait = Wait(key: Key, ref: nat, timed: bool)

  datatype Event =
    | Issue(key: Key, entry: Entry)
    | Take(key: Key, payload: Payload)
    | Deliver(key: Key, caller: Caller, ref: nat, payload: Payload)
    | RunCallback(key: Key, request: Request, payload: Payload)
    | HandleRemoval(key: Key, found: bool)
    | Return(key: Key, caller: Caller, ref: nat, payload: Payload)
    | TimeOut(key: Key, caller: Caller, ref: nat)

  datatype Log = Start | After(log: Log, event: Event)

  /** One client process; a process that has stopped keeps nothing pending. */
  datatype Client = Client(pending: map<nat, Entry>, next: nat, alive: bool)

  datatype State = State(
    clients: map<nat, Client>,
    nextRef: nat,
    waiting: map<Caller, Wait>,
    mail: multiset<Mail>,
    removals: multiset<Key>,
    log: Log)

  const Init: State := State(map[], 0, map[], multiset{}, multiset{}, Start)

  /** What taking a response yields; the number and how often it comes are the middleware's choice. */
  datatype Taken = TakeFailed | Response(number: nat, payload: Payload)

  datatype Message =
    | StartClient(client: nat)
    | StopClient(client: nat)
    | CallAsync(client: nat, request: Request)
    | CallSync(client: nat, caller: Caller, request: Request, timed: bool)
    | NewResponses(client: nat, taken: seq<Taken>)
    | RemovePending(key: Key)
    | CallerReceives(mail: Mail)
    | CallerTimesOut(caller: Caller)

  predicate Alive(s: State, client: nat) {
    client in s.clients && s.clients[client].alive
  }

  function PendingOf(s: State, k: Key): Option<Entry> {
    if k.client in s.clients && k.number in s.clients[k.client].pending
    then Some(s.clients[k.client].pending[k.number]) else None
  }

  predicate Pending(s: State, k: Key) {
    PendingOf(s, k).Some?
  }

  // ---------- the clients' handlers ----------

  function PutNew(pending: map<nat, Entry>, number: nat, entry: Entry): map<nat, Entry> {
    if number in pending then pending else pending[number := entry]
  }

  function NextKey(s: State, client: nat): Key
    requires client in s.clients
  {
    Key(client, s.clients[client].next)
  }

  function HandleCall(s: State, client: nat, entry: Entry): State
    requires client in s.clients
  {
    var c := s.clients[client];
    s.(clients := s.clients[client := c.(pending := PutNew(c.pending, c.next, entry), next := c.next + 1)],
       log := After(s.log, Issue(NextKey(s, client), entry)))
  }

  function HandleCallSync(s: State, client: nat, caller: Caller, request: Request, timed: bool): State
    requires client in s.clients
  {
    HandleCall(s, client, Sync(request, caller, s.nextRef)).(
      nextRef := s.nextRef + 1,
      waiting := s.waiting[caller := Wait(NextKey(s, client), s.nextRef, timed)])
  }

  /** The clients without one pending request. */
  function Drop(clients: map<nat, Client>, k: Key): map<nat, Client> {
    if k.client !in clients then clients
    else
      var c := clients[k.client];
      clients[k.client := c.(pending := c.pending - {k.number})]
  }

  /** Pops the entry of a number, and hands the payload to the one that asked; nothing happens without an entry. */
  function Pop(s: State, k: Key, p: Payload): State {
    match PendingOf(s, k)
    case None => s
    case Some(Sync(_, caller, ref)) =>
      s.(clients := Drop(s.clients, k), mail := s.mail + multiset{Mail(caller, k.number, ref, p)},
         log := After(s.log, Deliver(k, caller, ref, p)))
    case Some(Async(request)) =>
      s.(clients := Drop(s.clients, k), log := After(s.log, RunCallback(k, request, p)))
  }

  function Took(s: State, k: Key, p: Payload): State {
    s.(log := After(s.log, Take(k, p)))
  }

  function HandleResponse(s: State, client: nat, taken: Taken): State {
    match taken
    case TakeFailed => s
    case Response(n, p) => Pop(Took(s, Key(client, n), p), Key(client, n), p)
  }

  function HandleResponses(s: State, client: nat, taken: seq<Taken>): State {
    if taken == [] then s
    else HandleResponse(HandleResponses(s, client, taken[..|taken| - 1]), client, taken[|taken| - 1])
  }

  /** A removal cast to a client that has stopped is lost, which comes to the same. */
  function HandleRemovePending(s: State, k: Key): State {
    s.(clients := Drop(s.clients, k), removals := s.removals - multiset{k},
       log := After(s.log, HandleRemoval(k, Pending(s, k))))
  }

  function HandleStop(s: State, client: nat): State
    requires client in s.clients
  {
    s.(clients := s.clients[client := s.clients[client].(pending := map[], alive := false)])
  }

  // ---------- the caller's side ----------

  /** The pattern of the receive: the number and the reference, whichever client sent the message. */
  predicate Matches(w: Wait, m: Mail) {
    m.number == w.key.number && m.ref == w.ref
  }

  function Receive(s: State, m: Mail): State
    requires m.to in s.waiting
  {
    s.(waiting := s.waiting - {m.to}, mail := s.mail - multiset{m},
       log := After(s.log, Return(s.waiting[m.to].key, m.to, s.waiting[m.to].ref, m.payload)))
  }

  function GiveUp(s: State, c: Caller): State
    requires c in s.waiting
  {
    var w := s.waiting[c];
    s.(waiting := s.waiting - {c}, removals := s.removals + multiset{w.key},
       log := After(s.log, TimeOut(w.key, c, w.ref)))
  }

  /** A wait times out only when the mailbox holds no message it matches. */
  ghost predicate Enabled(s: State, m: Message) {
    match m
    case StartClient(client) => client !in s.clients
    case StopClient(client) => Alive(s, client)
    case CallAsync(_, _) => true
    case CallSync(_, c, _, _) => c !in s.waiting
    case NewResponses(client, taken) => Alive(s, client) && taken != []
    case RemovePending(k) => k in s.removals
    case CallerReceives(mail) => mail in s.mail && mail.to in s.waiting && Matches(s.waiting[mail.to], mail)
    case CallerTimesOut(c) =>
      && c in s.waiting && s.waiting[c].timed
      && forall mail | mail in s.mail && mail.to == c :: !Matches(s.waiting[c], mail)
  }

  /** A call to a client that is not there is refused and changes nothing. */
  ghost function Step(s: State, m: Message): State
    requires Enabled(s, m)
  {
    match m
    case StartClient(client) => s.(clients := s.clients[client := Client(map[], 1, true)])
    case StopClient(client) => HandleStop(s, client)
    case CallAsync(client, request) => if Alive(s, client) then HandleCall(s, client, Async(request)) else s
    case CallSync(client, c, request, timed) =>
      if Alive(s, client) then HandleCallSync(s, client, c, request, timed) else s
    case NewResponses(client, taken) => HandleResponses(s, client, taken)
    case RemovePending(k) => HandleRemovePending(s, k)
    case CallerReceives(mail) => Receive(s, mail)
    case CallerTimesOut(c) => GiveUp(s, c)
  }

  // ---------- what the log says ----------

  datatype Tag = Issued | Delivered | Ran | Handled | Withdrawn | Returned | TimedOut

  predicate Is(e: Event, tag: Tag, k: Key) {
    && e.key == k
    && match tag
       case Issued => e.Issue?
       case Delivered => e.Deliver?
       case Ran => e.RunCallback?
       case Handled => e.HandleRemoval?
       case Withdrawn => e.HandleRemoval? && e.found
       case Returned => e.Return?
       case TimedOut => e.TimeOut?
  }

  function Bit(b: bool): nat {
    if b then 1 else 0
  }

  function Count(log: Log, tag: Tag, k: Key): nat {
    match log
    case Start => 0
    case After(before, e) => Count(before, tag, k) + Bit(Is(e, tag, k))
  }

  /** The call that got a number of a client. */
  function IssueOf(log: Log, k: Key): Option<Entry> {
    match log
    case Start => None
    case After(before, e) => if Is(e, Issued, k) then Some(e.entry) else IssueOf(before, k)
  }

  predicate IssuedBy(log: Log, k: Key, c: Caller, ref: nat) {
    match IssueOf(log, k)
    case Some(Sync(_, caller, r)) => caller == c && r == ref
    case _ => false
  }

  /** The number of the call that was made under a reference. */
  function RefOwner(log: Log, ref: nat): Option<Key> {
    match log
    case Start => None
    case After(before, e) =>
      if e.Issue? && e.entry.Sync? && e.entry.ref == ref then Some(e.key) else RefOwner(before, ref)
  }

  /** The payload sent to the caller of a number. */
  function Delivery(log: Log, k: Key): Option<Payload> {
    match log
    case Start => None
    case After(before, e) => if Is(e, Delivered, k) then Some(e.payload) else Delivery(before, k)
  }

  function Resolved(log: Log, k: Key): nat {
    Count(log, Delivered, k) + Count(log, Ran, k) + Count(log, Withdrawn, k)
  }

  function Closed(log: Log, k: Key): nat {
    Count(log, Returned, k) + Count(log, TimedOut, k)
  }

  /** A response goes to the one that asked, once, and only as it was taken; what a caller returns was sent to it. */
  predicate LegalEvent(before: Log, e: Event) {
    match e
    case Issue(k, entry) => IssueOf(before, k).None? && (entry.Sync? ==> RefOwner(before, entry.ref).None?)
    case Take(_, _) => true
    case Deliver(k, c, ref, p) =>
      IssuedBy(before, k, c, ref) && Resolved(before, k) == 0 && before.After? && before.event == Take(k, p)
    case RunCallback(k, request, p) =>
      && IssueOf(before, k) == Some(Async(request)) && Resolved(before, k) == 0
      && before.After? && before.event == Take(k, p)
    case HandleRemoval(k, _) => Count(before, Handled, k) < Count(before, TimedOut, k)
    case Return(k, c, ref, p) => IssuedBy(before, k, c, ref) && Delivery(before, k) == Some(p) && Closed(before, k) == 0
    case TimeOut(k, c, ref) => IssuedBy(before, k, c, ref) && Delivery(before, k).None? && Closed(before, k) == 0
  }

  predicate LegalLog(log: Log) {
    log.After? ==> LegalLog(log.log) && LegalEvent(log.log, log.event)
  }

  // ---------- the invariant ----------

  predicate HasNumber(s: State, k: Key) {
    k.client in s.clients && 1 <= k.number < s.clients[k.client].next
  }

  predicate WaitingOn(s: State, c: Caller, k: Key) {
    c in s.waiting && s.waiting[c].key == k
  }

  /**
   Numbers issued are the disjoint union of pending, delivered, run and withdrawn, except that a client that
   stops forgets what was pending.
   */
  ghost predicate Tracked(s: State, k: Key) {
    && Count(s.log, Issued, k) == Bit(HasNumber(s, k))
    && (HasNumber(s, k) <==> IssueOf(s.log, k).Some?)
    && Resolved(s.log, k) + Bit(Pending(s, k)) <= Bit(HasNumber(s, k))
    && (Alive(s, k.client) ==> Resolved(s.log, k) + Bit(Pending(s, k)) == Bit(HasNumber(s, k)))
    && (Pending(s, k) ==> IssueOf(s.log, k) == PendingOf(s, k))
    && (Delivery(s.log, k).Some? <==> Count(s.log, Delivered, k) == 1)
  }

  /** A timed-out call has its removal on the way, or handled; once it is handled the entry is gone. */
  ghost predicate Cleared(s: State, k: Key) {
    && s.removals[k] + Count(s.log, Handled, k) == Count(s.log, TimedOut, k)
    && Count(s.log, Withdrawn, k) <= Count(s.log, Handled, k)
    && (Count(s.log, Handled, k) > 0 ==> !Pending(s, k))
  }

  /** A synchronous call is waited for until it returns or times out, and its reference is its own. */
  ghost predicate Awaited(s: State, k: Key) {
    match IssueOf(s.log, k)
    case Some(Sync(_, c, ref)) =>
      && ref < s.nextRef && RefOwner(s.log, ref) == Some(k)
      && Closed(s.log, k) + Bit(WaitingOn(s, c, k)) == 1
      && Count(s.log, Returned, k) <= Count(s.log, Delivered, k) && Count(s.log, Ran, k) == 0
    case _ => Closed(s.log, k) == 0 && Count(s.log, Delivered, k) == 0
  }

  ghost predicate Numbered(s: State, k: Key) {
    Tracked(s, k) && Cleared(s, k) && Awaited(s, k)
  }

  /** The message was sent by the client that the reference belongs to, and not received since. */
  predicate SentFor(log: Log, m: Mail, k: Key) {
    && k.number == m.number && IssuedBy(log, k, m.to, m.ref)
    && Delivery(log, k) == Some(m.payload) && Count(log, Returned, k) == 0
  }

  predicate Sent(log: Log, m: Mail) {
    RefOwner(log, m.ref).Some? && SentFor(log, m, RefOwner(log, m.ref).value)
  }

  /** A message is in a mailbox exactly when it was sent to that caller and not received. */
  ghost predicate Posted(s: State, m: Mail) {
    s.mail[m] == Bit(Sent(s.log, m))
  }

  ghost predicate Waits(s: State, c: Caller)
    requires c in s.waiting
  {
    IssuedBy(s.log, s.waiting[c].key, c, s.waiting[c].ref)
  }

  predicate Sane(c: Client) {
    c.next >= 1 && (!c.alive ==> c.pending == map[])
  }

  ghost predicate Inv(s: State) {
    && LegalLog(s.log)
    && (forall client | client in s.clients :: Sane(s.clients[client]))
    && (forall k: Key :: Numbered(s, k))
    && (forall m: Mail :: Posted(s, m))
    && (forall c | c in s.waiting :: Waits(s, c))
    && (forall ref: nat | ref >= s.nextRef :: RefOwner(s.log, ref).None?)
  }

  lemma InitHolds()
    ensures Inv(Init)
  {
  }

  // ---------- every step keeps it ----------

  /** What a step may have changed at one number, message and waiting caller; together they are the invariant. */
  ghost predicate StepsTo(s: State, t: State) {
    && LegalLog(t.log)
    && (forall client | client in t.clients :: Sane(t.clients[client]))
    && (forall k: Key :: Numbered(s, k) ==> Numbered(t, k))
    && (forall m: Mail :: Posted(s, m) ==> Posted(t, m))
    && (forall c | c in t.waiting :: Waits(t, c))
    && (forall ref: nat | ref >= t.nextRef :: RefOwner(t.log, ref).None?)
  }

  lemma Gather(s: State, t: State)
    requires Inv(s) && StepsTo(s, t)
    ensures Inv(t)
  {
    forall k: Key ensures Numbered(t, k) {
      assert Numbered(s, k);
    }
    forall m: Mail ensures Posted(t, m) {
      assert Posted(s, m);
    }
  }

  // A client starts or stops.

  /** t is s with other clients, but the same log, callers and mailboxes. */
  ghost predicate SameButClients(s: State, t: State) {
    t == s.(clients := t.clients)
  }

  lemma ClientsKeep(s: State, t: State)
    requires Inv(s) && SameButClients(s, t)
    requires forall client | client in t.clients :: Sane(t.clients[client])
    requires forall k: Key | Numbered(s, k) :: Tracked(t, k) && Cleared(t, k)
    ensures Inv(t)
  {
    forall k: Key | Numbered(s, k) ensures Numbered(t, k) {
      assert Awaited(s, k);
    }
    forall c | c in t.waiting ensures Waits(t, c) {
      assert Waits(s, c);
    }
    Gather(s, t);
  }

  lemma StartKeeps(s: State, client: nat)
    requires Inv(s) && client !in s.clients
    ensures Inv(Step(s, StartClient(client)))
  {
    ClientsKeep(s, Step(s, StartClient(client)));
  }

  lemma StopKeeps(s: State, client: nat)
    requires Inv(s) && Alive(s, client)
    ensures Inv(HandleStop(s, client))
  {
    ClientsKeep(s, HandleStop(s, client));
  }

  // A call.

  ghost predicate Called(s: State, t: State, client: nat, entry: Entry, timed: bool) {
    && client in s.clients
    && match entry
       case Async(request) => t == HandleCall(s, client, entry)
       case Sync(request, c, ref) =>
         ref == s.nextRef && c !in s.waiting && t == HandleCallSync(s, client, c, request, timed)
  }

  /** mine is the new number and the only one that has changed. */
  ghost predicate CallShape(s: State, t: State, mine: Key, entry: Entry) {
    && t.log == After(s.log, Issue(mine, entry)) && t.removals == s.removals && t.mail == s.mail
    && !HasNumber(s, mine) && !Pending(s, mine)
    && (forall k: Key :: HasNumber(t, k) <==> HasNumber(s, k) || k == mine)
    && (forall k: Key :: PendingOf(t, k) == if k == mine then Some(entry) else PendingOf(s, k))
    && (forall client :: Alive(t, client) <==> Alive(s, client))
    && (forall client | client in t.clients :: Sane(t.clients[client]))
  }

  lemma CallShaped(s: State, t: State, client: nat, entry: Entry, timed: bool)
    requires Inv(s) && Called(s, t, client, entry, timed) && Alive(s, client)
    ensures CallShape(s, t, NextKey(s, client), entry)
    ensures Resolved(s.log, NextKey(s, client)) == 0 && Closed(s.log, NextKey(s, client)) == 0
  {
    assert Numbered(s, NextKey(s, client)) && Sane(s.clients[client]);
  }

  lemma CallTracked(s: State, t: State, mine: Key, entry: Entry, k: Key)
    requires CallShape(s, t, mine, entry) && Tracked(s, k) && Tracked(s, mine)
    ensures Tracked(t, k)
  {
  }

  lemma CallCleared(s: State, t: State, mine: Key, entry: Entry, k: Key)
    requires CallShape(s, t, mine, entry) && Cleared(s, k) && Cleared(s, mine) && Closed(s.log, mine) == 0
    ensures Cleared(t, k)
  {
  }

  lemma CallAwaited(s: State, t: State, client: nat, entry: Entry, timed: bool, k: Key)
    requires Called(s, t, client, entry, timed) && Awaited(s, k) && Awaited(s, NextKey(s, client))
    requires IssueOf(s.log, NextKey(s, client)).None? && Resolved(s.log, NextKey(s, client)) == 0
    ensures Awaited(t, k)
  {
    assert t.log == After(s.log, Issue(NextKey(s, client), entry));
  }

  lemma CallPosted(s: State, t: State, mine: Key, entry: Entry, m: Mail)
    requires CallShape(s, t, mine, entry) && Posted(s, m) && Delivery(s.log, mine).None?
    requires IssueOf(s.log, mine).None? && (entry.Sync? ==> RefOwner(s.log, entry.ref).None?)
    ensures Posted(t, m)
  {
  }

  lemma CallWaits(s: State, t: State, client: nat, entry: Entry, timed: bool, c: Caller)
    requires Called(s, t, client, entry, timed) && c in t.waiting && IssueOf(s.log, NextKey(s, client)).None?
    requires c in s.waiting ==> Waits(s, c)
    ensures Waits(t, c)
  {
    assert t.log == After(s.log, Issue(NextKey(s, client), entry));
  }

  lemma CallKeeps(s: State, t: State, client: nat, entry: Entry, timed: bool)
    requires Inv(s) && Called(s, t, client, entry, timed) && Alive(s, client)
    ensures Inv(t)
  {
    var mine := NextKey(s, client);
    CallShaped(s, t, client, entry, timed);
    assert Numbered(s, mine);
    forall k: Key | Numbered(s, k) ensures Numbered(t, k) {
      CallTracked(s, t, mine, entry, k);
      CallCleared(s, t, mine, entry, k);
      CallAwaited(s, t, client, entry, timed, k);
    }
    forall m: Mail | Posted(s, m) ensures Posted(t, m) {
      CallPosted(s, t, mine, entry, m);
    }
    forall c | c in t.waiting ensures Waits(t, c) {
      CallWaits(s, t, client, entry, timed, c);
    }
    Gather(s, t);
  }

  // A response.

  lemma TookNumbered(s: State, mine: Key, p: Payload, k: Key)
    requires Numbered(s, k)
    ensures Numbered(Took(s, mine, p), k)
  {
  }

  lemma TookKeeps(s: State, mine: Key, p: Payload)
    requires Inv(s)
    ensures Inv(Took(s, mine, p))
  {
    var t := Took(s, mine, p);
    forall k: Key | Numbered(s, k) ensures Numbered(t, k) {
      TookNumbered(s, mine, p, k);
    }
    forall c | c in t.waiting ensures Waits(t, c) {
      assert Waits(s, c);
    }
    Gather(s, t);
  }

  /** t is s without the pending request mine. */
  ghost predicate DropShape(s: State, t: State, mine: Key) {
    && t.clients == Drop(s.clients, mine)
    && (forall k: Key :: HasNumber(t, k) <==> HasNumber(s, k))
    && (forall k: Key :: PendingOf(t, k) == if k == mine then None else PendingOf(s, k))
    && (forall client :: Alive(t, client) <==> Alive(s, client))
    && (forall client | client in t.clients :: Sane(t.clients[client]))
  }

  lemma DropShaped(s: State, t: State, mine: Key)
    requires Inv(s) && t.clients == Drop(s.clients, mine)
    ensures DropShape(s, t, mine)
  {
  }

  lemma PopTracked(s: State, t: State, mine: Key, p: Payload, k: Key)
    requires Numbered(s, k) && Numbered(s, mine) && Pending(s, mine) && Alive(s, mine.client)
    requires t == Pop(s, mine, p) && DropShape(s, t, mine)
    ensures Tracked(t, k)
  {
    assert Resolved(s.log, mine) == 0 && IssueOf(s.log, mine) == PendingOf(s, mine);
    assert t.log == After(s.log, t.log.event) && (t.log.event.Deliver? || t.log.event.RunCallback?);
  }

  lemma PopCleared(s: State, t: State, mine: Key, p: Payload, k: Key)
    requires Cleared(s, k) && Pending(s, mine) && t == Pop(s, mine, p) && DropShape(s, t, mine)
    ensures Cleared(t, k)
  {
    assert t.log == After(s.log, t.log.event) && (t.log.event.Deliver? || t.log.event.RunCallback?);
  }

  lemma PopAwaited(s: State, mine: Key, p: Payload, k: Key)
    requires Awaited(s, k) && Pending(s, mine) && IssueOf(s.log, mine) == PendingOf(s, mine)
    ensures Awaited(Pop(s, mine, p), k)
  {
    var t := Pop(s, mine, p);
    assert t.log == After(s.log, t.log.event) && t.waiting == s.waiting && t.nextRef == s.nextRef;
    assert IssueOf(t.log, k) == IssueOf(s.log, k) && Closed(t.log, k) == Closed(s.log, k);
  }

  /** The message a delivery sends is the only one whose standing it changes. */
  lemma DeliverPosted(s: State, t: State, mine: Key, c: Caller, ref: nat, p: Payload, m: Mail)
    requires Posted(s, m) && IssuedBy(s.log, mine, c, ref) && RefOwner(s.log, ref) == Some(mine)
    requires Delivery(s.log, mine).None? && Count(s.log, Returned, mine) == 0
    requires t.mail == s.mail + multiset{Mail(c, mine.number, ref, p)}
    requires t.log == After(s.log, Deliver(mine, c, ref, p))
    ensures Posted(t, m)
  {
    assert RefOwner(t.log, m.ref) == RefOwner(s.log, m.ref);
    match RefOwner(s.log, m.ref)
    case None =>
    case Some(k) =>
      assert IssueOf(t.log, k) == IssueOf(s.log, k) && Count(t.log, Returned, k) == Count(s.log, Returned, k);
      assert k != mine ==> Delivery(t.log, k) == Delivery(s.log, k);
  }

  lemma PopPosted(s: State, mine: Key, p: Payload, m: Mail)
    requires Posted(s, m) && Numbered(s, mine) && Pending(s, mine) && Alive(s, mine.client)
    ensures Posted(Pop(s, mine, p), m)
  {
    var t := Pop(s, mine, p);
    assert IssueOf(s.log, mine) == PendingOf(s, mine) && Count(s.log, Delivered, mine) == 0;
    match PendingOf(s, mine)
    case Some(Sync(_, c, ref)) => DeliverPosted(s, t, mine, c, ref, p, m);
    case Some(Async(request)) => assert t.log == After(s.log, RunCallback(mine, request, p));
    case None =>
  }

  lemma PopLegal(s: State, mine: Key, p: Payload)
    requires Inv(s) && Pending(s, mine) && s.log.After? && s.log.event == Take(mine, p)
    ensures Alive(s, mine.client) && LegalLog(Pop(s, mine, p).log)
  {
    assert Numbered(s, mine) && Sane(s.clients[mine.client]);
  }

  lemma PopKeeps(s: State, mine: Key, p: Payload)
    requires Inv(s) && Pending(s, mine) && s.log.After? && s.log.event == Take(mine, p)
    ensures Inv(Pop(s, mine, p))
  {
    var t := Pop(s, mine, p);
    PopLegal(s, mine, p);
    DropShaped(s, t, mine);
    assert Numbered(s, mine);
    forall k: Key | Numbered(s, k) ensures Numbered(t, k) {
      PopTracked(s, t, mine, p, k);
      PopCleared(s, t, mine, p, k);
      PopAwaited(s, mine, p, k);
    }
    forall m: Mail | Posted(s, m) ensures Posted(t, m) {
      PopPosted(s, mine, p, m);
    }
    forall c | c in t.waiting ensures Waits(t, c) {
      assert Waits(s, c);
    }
    Gather(s, t);
  }

  lemma ResponseKeeps(s: State, client: nat, taken: Taken)
    requires Inv(s)
    ensures Inv(HandleResponse(s, client, taken))
  {
    match taken
    case TakeFailed =>
    case Response(n, p) =>
      var mine := Key(client, n);
      TookKeeps(s, mine, p);
      if Pending(Took(s, mine, p), mine) {
        PopKeeps(Took(s, mine, p), mine, p);
      }
  }

  lemma {:induction false} ResponsesKeep(s: State, client: nat, taken: seq<Taken>)
    requires Inv(s)
    ensures Inv(HandleResponses(s, client, taken))
  {
    if taken != [] {
      ResponsesKeep(s, client, taken[..|taken| - 1]);
      ResponseKeeps(HandleResponses(s, client, taken[..|taken| - 1]), client, taken[|taken| - 1]);
    }
  }

  // A removal.

  lemma RemovalTracked(s: State, t: State, mine: Key, k: Key)
    requires Tracked(s, mine) && Tracked(s, k) && t == HandleRemovePending(s, mine) && DropShape(s, t, mine)
    ensures Tracked(t, k)
  {
    assert t.log == After(s.log, HandleRemoval(mine, Pending(s, mine)));
  }

  lemma RemovalCleared(s: State, t: State, mine: Key, k: Key)
    requires Cleared(s, mine) && Cleared(s, k) && mine in s.removals
    requires t == HandleRemovePending(s, mine) && DropShape(s, t, mine)
    ensures Cleared(t, k)
  {
    assert t.log == After(s.log, HandleRemoval(mine, Pending(s, mine)));
  }

  lemma RemovalAwaited(s: State, mine: Key, k: Key)
    requires Awaited(s, k)
    ensures Awaited(HandleRemovePending(s, mine), k)
  {
  }

  lemma RemovalPosted(s: State, mine: Key, m: Mail)
    requires Posted(s, m)
    ensures Posted(HandleRemovePending(s, mine), m)
  {
  }

  lemma RemovalKeeps(s: State, mine: Key)
    requires Inv(s) && mine in s.removals
    ensures Inv(HandleRemovePending(s, mine))
  {
    var t := HandleRemovePending(s, mine);
    assert Numbered(s, mine);
    DropShaped(s, t, mine);
    forall k: Key | Numbered(s, k) ensures Numbered(t, k) {
      RemovalTracked(s, t, mine, k);
      RemovalCleared(s, t, mine, k);
      RemovalAwaited(s, mine, k);
    }
    forall m: Mail | Posted(s, m) ensures Posted(t, m) {
      RemovalPosted(s, mine, m);
    }
    forall c | c in t.waiting ensures Waits(t, c) {
      assert Waits(s, c);
    }
    Gather(s, t);
  }

  // A caller receives, or gives up.

  /** The message a wait matches was sent for that very wait: the reference tells, the number would not. */
  lemma MatchIsOwn(s: State, mail: Mail)
    requires Inv(s) && Enabled(s, CallerReceives(mail))
    ensures var w := s.waiting[mail.to];
            && RefOwner(s.log, mail.ref) == Some(w.key) && SentFor(s.log, mail, w.key)
            && s.mail[mail] == 1 && Closed(s.log, w.key) == 0
  {
    var w := s.waiting[mail.to];
    assert Posted(s, mail) && Waits(s, mail.to) && Numbered(s, w.key);
  }

  lemma ReceiveTracked(s: State, mail: Mail, k: Key)
    requires Enabled(s, CallerReceives(mail)) && Tracked(s, k) && Cleared(s, k)
    ensures Tracked(Receive(s, mail), k) && Cleared(Receive(s, mail), k)
  {
    var (t, w) := (Receive(s, mail), s.waiting[mail.to]);
    assert t.log == After(s.log, Return(w.key, mail.to, w.ref, mail.payload));
  }

  lemma ReceiveAwaited(s: State, mail: Mail, k: Key)
    requires Enabled(s, CallerReceives(mail)) && Awaited(s, k)
    requires var mine := s.waiting[mail.to].key;
             && SentFor(s.log, mail, mine) && Closed(s.log, mine) == 0 && Awaited(s, mine)
             && Count(s.log, Delivered, mine) == 1
    ensures Awaited(Receive(s, mail), k)
  {
    var (t, w) := (Receive(s, mail), s.waiting[mail.to]);
    assert t.log == After(s.log, Return(w.key, mail.to, w.ref, mail.payload));
  }

  lemma ReceivePosted(s: State, mail: Mail, m: Mail)
    requires Enabled(s, CallerReceives(mail)) && Posted(s, m) && s.mail[mail] == 1
    requires var mine := s.waiting[mail.to].key;
             SentFor(s.log, mail, mine) && RefOwner(s.log, mail.ref) == Some(mine)
    requires RefOwner(s.log, m.ref) == Some(s.waiting[mail.to].key) && m in s.mail ==> m.ref == mail.ref
    ensures Posted(Receive(s, mail), m)
  {
    var (t, w) := (Receive(s, mail), s.waiting[mail.to]);
    assert t.log == After(s.log, Return(w.key, mail.to, w.ref, mail.payload));
    assert RefOwner(t.log, m.ref) == RefOwner(s.log, m.ref);
  }

  lemma ReceiveKeeps(s: State, mail: Mail)
    requires Inv(s) && Enabled(s, CallerReceives(mail))
    ensures Inv(Receive(s, mail))
  {
    var (t, w) := (Receive(s, mail), s.waiting[mail.to]);
    MatchIsOwn(s, mail);
    assert Numbered(s, w.key) && Waits(s, mail.to);
    forall k: Key | Numbered(s, k) ensures Numbered(t, k) {
      ReceiveTracked(s, mail, k);
      ReceiveAwaited(s, mail, k);
    }
    forall m: Mail | Posted(s, m) ensures Posted(t, m) {
      ReceivePosted(s, mail, m);
    }
    forall c | c in t.waiting ensures Waits(t, c) {
      assert Waits(s, c);
    }
    Gather(s, t);
  }

  lemma NothingSent(s: State, c: Caller)
    requires Inv(s) && Enabled(s, CallerTimesOut(c))
    ensures Delivery(s.log, s.waiting[c].key).None? && Closed(s.log, s.waiting[c].key) == 0
  {
    var w := s.waiting[c];
    assert Waits(s, c) && Numbered(s, w.key);
    var sent := Delivery(s.log, w.key);
    assert sent.Some? ==> Posted(s, Mail(c, w.key.number, w.ref, sent.value));
  }

  lemma GiveUpTracked(s: State, c: Caller, k: Key)
    requires Enabled(s, CallerTimesOut(c)) && Tracked(s, k) && Cleared(s, k)
    ensures Tracked(GiveUp(s, c), k) && Cleared(GiveUp(s, c), k)
  {
    assert GiveUp(s, c).log == After(s.log, TimeOut(s.waiting[c].key, c, s.waiting[c].ref));
  }

  lemma GiveUpAwaited(s: State, c: Caller, k: Key)
    requires Enabled(s, CallerTimesOut(c)) && Waits(s, c) && Awaited(s, s.waiting[c].key) && Awaited(s, k)
    ensures Awaited(GiveUp(s, c), k)
  {
    assert GiveUp(s, c).log == After(s.log, TimeOut(s.waiting[c].key, c, s.waiting[c].ref));
  }

  lemma GiveUpKeeps(s: State, caller: Caller)
    requires Inv(s) && Enabled(s, CallerTimesOut(caller))
    ensures Inv(GiveUp(s, caller))
  {
    var t := GiveUp(s, caller);
    NothingSent(s, caller);
    assert Waits(s, caller) && Numbered(s, s.waiting[caller].key);
    forall k: Key | Numbered(s, k) ensures Numbered(t, k) {
      GiveUpTracked(s, caller, k);
      GiveUpAwaited(s, caller, k);
    }
    forall c | c in t.waiting ensures Waits(t, c) {
      assert Waits(s, c);
    }
    Gather(s, t);
  }
}

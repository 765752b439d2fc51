/** The MQTT link: connecting with growing back-off, callbacks of the client library, and the
    registry of subscriptions that is replayed on every connect.

    Each callback, each call of the interface, and each stretch of `connect()` between two waits is
    one event. What the client library and the broker decide is part of the event. A run is any
    sequence of events; an event that is not enabled changes nothing. */
module Mqtt {

  type Topic = string

  datatype Status = Invalid | Connected | Disconnected | Connecting | Failed

  /** The future of the latest connect attempt and what its promise was given. */
  datatype Future = NoFuture | Pending | Fulfilled(value: bool)

  /** Where the worker is: outside `connect()`, or inside one of its three waits. */
  datatype Worker = Resting | BackingOff | Checking | Awaiting

  /** What `connect()` has spent: calls of the broker, seconds of back-off, waits for the future,
      and waits inside `check_connection`. */
  datatype Cost = Cost(attempts: nat, backoff: nat, futureWaits: nat, checks: nat)

  /** `session` says that a broker session is open; `requested` are the topics for which a subscribe
      request was sent in it and none to unsubscribe since, `accepted` those of them for which the
      library accepted the request. */
  datatype Link = Link(
    status: Status, tries: nat, subscribers: set<Topic>, future: Future, worker: Worker,
    session: bool, requested: set<Topic>, accepted: set<Topic>, cost: Cost)

  datatype Event =
    | Connect                                            // the worker calls connect()
    | BackoffNotified                                    // on_stop ends the back-off
    | BackoffElapsed(credentialsOk: bool, brokerOk: bool)
    | CheckEnded(seen: bool, credentialsOk: bool, brokerOk: bool)
    | AwaitEnded(timedOut: bool)
    | BrokerAccepts(refused: set<Topic>)                 // callback_connected(0); refused replays
    | BrokerRefuses                                      // callback_connected(nonzero)
    | ConnectionEnds(unexpected: bool)                   // callback_disconnected
    | Subscribe(topic: Topic, ok: bool)
    | PostRun(disconnectOk: bool)

  const START: Link := Link(Invalid, 0, {}, NoFuture, Resting, false, {}, {}, Cost(0, 0, 0, 0))

  function NoSession(l: Link): Link {
    l.(session := false, requested := {}, accepted := {})
  }

  /** `connect()` from its start, called or recursive: wait as many seconds as there were tries. */
  function Enter(l: Link): Link {
    l.(worker := BackingOff, cost := l.cost.(backoff := l.cost.backoff + l.tries))
  }

  /** `connect()` once `check_connection` has said no, up to the next wait. Asking the broker for a
      new connection ends the old session. */
  function Attempt(l: Link, retries: nat, credentialsOk: bool, brokerOk: bool): Link {
    var next := l.(tries := l.tries + 1, status := Connecting);
    if next.tries > retries then next.(status := Failed, worker := Resting)
    else if !credentialsOk then next.(worker := Resting)
    else
      var asked := NoSession(next).(cost := l.cost.(attempts := l.cost.attempts + 1));
      if brokerOk then
        asked.(future := Pending, worker := Awaiting,
               cost := asked.cost.(futureWaits := asked.cost.futureWaits + 1))
      else Enter(asked)
  }

  /** `callback_connected` on success; it opens a session unless one is open. */
  function OnAccepted(l: Link, refused: set<Topic>): Link {
    var joined := if l.session then l else l.(session := true, requested := {}, accepted := {});
    if l.future == NoFuture then joined
    else joined.(status := Connected, tries := 0,
                requested := joined.requested + l.subscribers,
                accepted := joined.accepted + l.subscribers - refused * l.subscribers,
                future := if l.future == Pending then Fulfilled(true) else l.future)
  }

  /** `callback_connected` with an error code. */
  function OnRefused(l: Link): Link {
    if l.future == NoFuture then l
    else l.(status := Failed, future := if l.future == Pending then Fulfilled(false) else l.future)
  }

  /** `callback_disconnected`. */
  function OnDisconnected(l: Link, unexpected: bool): Link {
    var down := NoSession(l);
    if !unexpected then down.(status := Disconnected)
    else if l.status == Failed || l.status == Disconnected then down
    else down.(status := Failed)
  }

  function OnSubscribe(l: Link, topic: Topic, ok: bool): Link {
    if l.status != Connected || topic in l.subscribers then l
    else if !ok then l.(requested := l.requested + {topic}, accepted := l.accepted - {topic})
    else l.(requested := l.requested + {topic}, accepted := l.accepted + {topic},
            subscribers := l.subscribers + {topic})
  }

  /** `disconnect()`. */
  function OnDisconnect(l: Link, ok: bool): Link {
    if l.status == Connected && ok then NoSession(l).(status := Disconnected) else l
  }

  /** Clearing the registry destroys every subscriber, and each unsubscribes if connected. */
  function OnClear(l: Link): Link {
    if l.status == Connected then
      l.(subscribers := {}, requested := l.requested - l.subscribers, accepted := l.accepted - l.subscribers)
    else l.(subscribers := {})
  }

  function Next(l: Link, retries: nat, e: Event): Link {
    match e
    case Connect => if l.worker == Resting then Enter(l) else l
    case BackoffNotified => if l.worker == BackingOff then l.(worker := Resting) else l
    case BackoffElapsed(credentialsOk, brokerOk) =>
      if l.worker != BackingOff then l
      else if l.status == Connected then l.(worker := Resting)
      else if l.status == Connecting then l.(worker := Checking, cost := l.cost.(checks := l.cost.checks + 1))
      else Attempt(l, retries, credentialsOk, brokerOk)
    case CheckEnded(seen, credentialsOk, brokerOk) =>
      if l.worker != Checking then l
      else if seen && l.status == Connected then l.(worker := Resting)
      else Attempt(l, retries, credentialsOk, brokerOk)
    case AwaitEnded(timedOut) =>
      if l.worker != Awaiting then l
      else if timedOut then Enter(l)
      else if l.future == Fulfilled(true) then l.(future := NoFuture, worker := Resting)
      else if l.future == Fulfilled(false) then Enter(l.(future := NoFuture))
      else l
    case BrokerAccepts(refused) => OnAccepted(l, refused)
    case BrokerRefuses => OnRefused(l)
    case ConnectionEnds(unexpected) => OnDisconnected(l, unexpected)
    case Subscribe(topic, ok) => OnSubscribe(l, topic, ok)
    case PostRun(disconnectOk) => if l.worker == Resting then OnDisconnect(OnClear(l), disconnectOk) else l
  }

  function Exec(l: Link, retries: nat, events: seq<Event>): Link
    decreases |events|
  {
    if events == [] then l else Exec(Next(l, retries, events[0]), retries, events[1..])
  }

  // ---------------------------------------------------------------- subscriptions

  ghost predicate Inv(l: Link) {
    && (l.status == Connected ==> l.session && l.subscribers <= l.requested)
    && l.accepted <= l.requested
  }

  lemma NextKeepsInv(l: Link, retries: nat, e: Event)
    requires Inv(l)
    ensures Inv(Next(l, retries, e))
  {
  }

  lemma {:induction false} ExecKeepsInv(l: Link, retries: nat, events: seq<Event>)
    requires Inv(l)
    ensures Inv(Exec(l, retries, events))
    decreases |events|
  {
    if events != [] {
      NextKeepsInv(l, retries, events[0]);
      ExecKeepsInv(Next(l, retries, events[0]), retries, events[1..]);
    }
  }

  /** In every run, whenever the status is Connected, every registered topic has been requested in
      the broker session that is open now. */
  lemma ConnectedMeansSubscribed(retries: nat, events: seq<Event>)
    ensures var l := Exec(START, retries, events);
      l.status == Connected ==> l.session && l.subscribers <= l.requested
  {
    ExecKeepsInv(START, retries, events);
  }

  ghost predicate AllAccepted(l: Link) {
    l.status == Connected ==> l.subscribers <= l.accepted
  }

  /** The stronger claim, that the library also accepted those requests, is lost by exactly one
      step: a replay in which it refuses a registered topic, because the callback ignores that. */
  lemma AcceptanceIsLostIff(l: Link, retries: nat, e: Event)
    requires Inv(l) && AllAccepted(l)
    ensures !AllAccepted(Next(l, retries, e)) <==> Resets(l, e) && e.refused * l.subscribers != {}
  {
    if Resets(l, e) {
      if topic :| topic in e.refused * l.subscribers {
        assert topic in l.subscribers && topic !in Next(l, retries, e).accepted;
      }
    }
  }

  /** The successful callback that sets the retry counter to zero. */
  predicate Resets(l: Link, e: Event) {
    e.BrokerAccepts? && l.future != NoFuture
  }

  /** The registered topics that the latest replay asked for in vain; a shutdown clears them. */
  function MissingAfter(l: Link, e: Event, missing: set<Topic>): set<Topic> {
    if Resets(l, e) then e.refused * l.subscribers
    else if e.PostRun? && l.worker == Resting then {}
    else missing
  }

  function Missing(l: Link, retries: nat, events: seq<Event>, missing: set<Topic>): set<Topic>
    decreases |events|
  {
    if events == [] then missing
    else Missing(Next(l, retries, events[0]), retries, events[1..], MissingAfter(l, events[0], missing))
  }

  ghost predicate Lacks(l: Link, missing: set<Topic>) {
    l.status == Connected ==> missing <= l.subscribers && l.subscribers - l.accepted == missing
  }

  lemma LacksStep(l: Link, retries: nat, e: Event, missing: set<Topic>)
    requires Inv(l) && Lacks(l, missing)
    ensures Lacks(Next(l, retries, e), MissingAfter(l, e, missing))
  {
    var n, after := Next(l, retries, e), MissingAfter(l, e, missing);
    if n.status == Connected {
      forall topic ensures topic in n.subscribers - n.accepted <==> topic in after { }
    }
  }

  lemma {:induction false} LacksInRuns(l: Link, retries: nat, events: seq<Event>, missing: set<Topic>)
    requires Inv(l) && Lacks(l, missing)
    ensures Lacks(Exec(l, retries, events), Missing(l, retries, events, missing))
    decreases |events|
  {
    if events != [] {
      LacksStep(l, retries, events[0], missing);
      NextKeepsInv(l, retries, events[0]);
      LacksInRuns(Next(l, retries, events[0]), retries, events[1..], MissingAfter(l, events[0], missing));
    }
  }

  /** In every run, all registered topics are accepted while Connected exactly when the latest replay
      before the last shutdown refused none of those registered then. */
  lemma AllAcceptedIff(retries: nat, events: seq<Event>)
    ensures var l := Exec(START, retries, events);
            AllAccepted(l) <==> l.status != Connected || Missing(START, retries, events, {}) == {}
  {
    LacksInRuns(START, retries, events, {});
    LackingIff(Exec(START, retries, events), Missing(START, retries, events, {}));
  }

  lemma LackingIff(l: Link, missing: set<Topic>)
    requires Lacks(l, missing)
    ensures AllAccepted(l) <==> l.status != Connected || missing == {}
  {
    if l.subscribers - l.accepted == {} {
      forall topic | topic in l.subscribers ensures topic in l.accepted {
        assert topic !in l.subscribers - l.accepted;
      }
    } else {
      var topic :| topic in l.subscribers - l.accepted;
    }
  }

  predicate NoReplayRefused(l: Link, retries: nat, events: seq<Event>)
    decreases |events|
  {
    events == [] ||
    (&& (Resets(l, events[0]) ==> events[0].refused * l.subscribers == {})
     && NoReplayRefused(Next(l, retries, events[0]), retries, events[1..]))
  }

  lemma {:induction false} NothingMissing(l: Link, retries: nat, events: seq<Event>)
    requires NoReplayRefused(l, retries, events)
    ensures Missing(l, retries, events, {}) == {}
    decreases |events|
  {
    if events != [] { NothingMissing(Next(l, retries, events[0]), retries, events[1..]); }
  }

  /** So a run in which no replay refuses a registered topic keeps them all accepted. */
  lemma AcceptedWithoutRefusals(retries: nat, events: seq<Event>)
    requires NoReplayRefused(START, retries, events)
    ensures AllAccepted(Exec(START, retries, events))
  {
    NothingMissing(START, retries, events);
    AllAcceptedIff(retries, events);
  }

  lemma {:induction false} ExecConcat(l: Link, retries: nat, a: seq<Event>, b: seq<Event>)
    ensures Exec(l, retries, a + b) == Exec(Exec(l, retries, a), retries, b)
    decreases |a|
  {
    if a == [] {
      assert a + b == b;
    } else {
      assert (a + b)[1..] == a[1..] + b;
      ExecConcat(Next(l, retries, a[0]), retries, a[1..], b);
    }
  }

  lemma ExecThree(l: Link, retries: nat, a: Event, b: Event, c: Event)
    ensures Exec(l, retries, [a, b, c]) == Next(Next(Next(l, retries, a), retries, b), retries, c)
  {
    var (m, n) := (Next(l, retries, a), Next(Next(l, retries, a), retries, b));
    assert [a, b, c][1..] == [b, c] && [b, c][1..] == [c] && [c][1..] == [];
    assert Exec(n, retries, [c]) == Next(n, retries, c);
    assert Exec(m, retries, [b, c]) == Exec(n, retries, [c]);
  }

  /** Asking for a connection until the broker accepts it. */
  function JoinEvents(refused: set<Topic>): seq<Event> {
    [Connect, BackoffElapsed(true, true), BrokerAccepts(refused)]
  }

  /** A topic is registered, then the connection is lost. */
  function LoseEvents(topic: Topic): seq<Event> {
    [AwaitEnded(false), Subscribe(topic, true), ConnectionEnds(true)]
  }

  lemma AfterJoin(l: Link, retries: nat, refused: set<Topic>)
    requires retries > 0 && l.worker == Resting && l.tries == 0 && (l.status == Invalid || l.status == Failed)
    ensures var n := Exec(l, retries, JoinEvents(refused));
            && n.status == Connected && n.worker == Awaiting && n.tries == 0 && n.future == Fulfilled(true)
            && n.subscribers == l.subscribers && n.accepted == l.subscribers - refused * l.subscribers
  {
    ExecThree(l, retries, Connect, BackoffElapsed(true, true), BrokerAccepts(refused));
  }

  lemma AfterLose(l: Link, retries: nat, topic: Topic)
    requires l.status == Connected && l.worker == Awaiting && l.tries == 0 && l.future == Fulfilled(true)
    ensures var n := Exec(l, retries, LoseEvents(topic));
            && n.status == Failed && n.worker == Resting && n.tries == 0
            && n.subscribers == l.subscribers + {topic}
  {
    ExecThree(l, retries, AwaitEnded(false), Subscribe(topic, true), ConnectionEnds(true));
  }

  lemma AfterRejoin(first: Link, joined: Link, lost: Link, last: Link, retries: nat, topic: Topic)
    requires retries > 0 && first.worker == Resting && first.tries == 0 && first.subscribers == {}
    requires first.status == Invalid
    requires joined == Exec(first, retries, JoinEvents({}))
    requires lost == Exec(joined, retries, LoseEvents(topic))
    requires last == Exec(lost, retries, JoinEvents({topic}))
    ensures last.status == Connected && last.subscribers == {topic} && last.accepted == {}
  {
    AfterJoin(first, retries, {});
    AfterLose(joined, retries, topic);
    AfterJoin(lost, retries, {topic});
  }

  lemma InThreeParts(l: Link, retries: nat, a: seq<Event>, b: seq<Event>, c: seq<Event>)
    ensures Exec(l, retries, a + b + c) == Exec(Exec(Exec(l, retries, a), retries, b), retries, c)
  {
    ExecConcat(l, retries, a + b, c);
    ExecConcat(l, retries, a, b);
  }

  lemma LostFrom(first: Link, retries: nat, topic: Topic,
                 join: seq<Event>, lose: seq<Event>, rejoin: seq<Event>)
    requires retries > 0 && first.worker == Resting && first.tries == 0 && first.subscribers == {}
    requires first.status == Invalid
    requires join == JoinEvents({}) && lose == LoseEvents(topic) && rejoin == JoinEvents({topic})
    ensures var l := Exec(first, retries, join + lose + rejoin);
            l.status == Connected && l.subscribers == {topic} && l.accepted == {}
  {
    var joined := Exec(first, retries, join);
    var lost := Exec(joined, retries, lose);
    AfterRejoin(first, joined, lost, Exec(lost, retries, rejoin), retries, topic);
    InThreeParts(first, retries, join, lose, rejoin);
  }

  /** A run that loses it: after a reconnect in which the library refuses the replay, the status is
      Connected and the topic is registered but not accepted. */
  lemma AcceptanceCanBeLost(retries: nat, topic: Topic, run: seq<Event>)
    requires retries > 0 && run == JoinEvents({}) + LoseEvents(topic) + JoinEvents({topic})
    ensures Exec(START, retries, run).status == Connected
    ensures topic in Exec(START, retries, run).subscribers && topic !in Exec(START, retries, run).accepted
  {
    LostFrom(START, retries, topic, JoinEvents({}), LoseEvents(topic), JoinEvents({topic}));
  }

  // ---------------------------------------------------------------- the answer of the broker

  predicate NeverAccepted(events: seq<Event>) {
    forall e :: e in events ==> !e.BrokerAccepts?
  }

  lemma {:induction false} FutureStaysFalse(l: Link, retries: nat, events: seq<Event>)
    requires l.future != Fulfilled(true) && NeverAccepted(events)
    ensures Exec(l, retries, events).future != Fulfilled(true)
    decreases |events|
  {
    if events != [] {
      assert !events[0].BrokerAccepts?;
      FutureStaysFalse(Next(l, retries, events[0]), retries, events[1..]);
    }
  }

  /** In every run in which the broker never accepts, no wait for its answer ends `connect()`: a refusal
      and a timeout both make it call itself, with the back-off first. */
  lemma RefusalGoesOn(retries: nat, events: seq<Event>, timedOut: bool)
    requires NeverAccepted(events) && Exec(START, retries, events).worker == Awaiting
    ensures var l := Exec(START, retries, events);
            var n := Next(l, retries, AwaitEnded(timedOut));
            if timedOut || l.future == Fulfilled(false) then
              n.worker == BackingOff && n.cost.backoff == l.cost.backoff + l.tries
            else n == l
  {
    FutureStaysFalse(START, retries, events);
    AwaitingHasFuture(START, retries, events);
  }

  lemma {:induction false} AwaitingHasFuture(l: Link, retries: nat, events: seq<Event>)
    requires l.worker == Awaiting ==> l.future != NoFuture
    ensures var n := Exec(l, retries, events); n.worker == Awaiting ==> n.future != NoFuture
    decreases |events|
  {
    if events != [] { AwaitingHasFuture(Next(l, retries, events[0]), retries, events[1..]); }
  }

  /** An answer is fetched once: after it the link has no future, after a timeout it keeps the old one. */
  lemma AnswerIsFetched(l: Link, retries: nat, timedOut: bool)
    requires l.worker == Awaiting && (timedOut || l.future.Fulfilled?)
    ensures Next(l, retries, AwaitEnded(timedOut)).future == if timedOut then l.future else NoFuture
  {
  }

  /** A refusal that no attempt waits for changes nothing. */
  lemma UnaskedRefusal(l: Link, retries: nat)
    requires l.future == NoFuture
    ensures Next(l, retries, BrokerRefuses) == l
  {
  }

  /** And the answer does arrive: a refusal or an acceptance of a pending attempt decides how its wait
      ends. */
  lemma AnswerDecides(l: Link, retries: nat, refused: set<Topic>)
    requires l.worker == Awaiting && l.future == Pending
    ensures var rejected := Next(Next(l, retries, BrokerRefuses), retries, AwaitEnded(false));
            rejected.worker == BackingOff && rejected.status == Failed && rejected.tries == l.tries
    ensures var granted := Next(Next(l, retries, BrokerAccepts(refused)), retries, AwaitEnded(false));
            granted.worker == Resting && granted.status == Connected && granted.tries == 0
  {
  }

  /** The status becomes Connected exactly by a success that an attempt asked for ... */
  lemma BecomesConnectedIff(l: Link, retries: nat, e: Event)
    requires l.status != Connected
    ensures Next(l, retries, e).status == Connected <==> e.BrokerAccepts? && l.future != NoFuture
  {
  }

  /** The worker goes on to an attempt: its look at the connection failed. */
  predicate Attempts(l: Link, e: Event) {
    || (e.BackoffElapsed? && l.worker == BackingOff && l.status != Connected && l.status != Connecting)
    || (e.CheckEnded? && l.worker == Checking && !(e.seen && l.status == Connected))
  }

  /** ... and stays so until the connection ends, an attempt begins, a refusal that was asked for
      arrives, or the link is shut down and the library agrees. */
  lemma LeavesConnectedIff(l: Link, retries: nat, e: Event)
    requires l.status == Connected
    ensures Next(l, retries, e).status != Connected <==>
      || e.ConnectionEnds? || Attempts(l, e)
      || (e.BrokerRefuses? && l.future != NoFuture)
      || (e == PostRun(true) && l.worker == Resting)
  {
  }

  /** What the end of a connection leaves: no session, and Disconnected if it was asked for; otherwise
      Failed, unless the link had ended before. */
  lemma EndOfConnection(l: Link, retries: nat)
    ensures forall unexpected :: !Next(l, retries, ConnectionEnds(unexpected)).session
    ensures Next(l, retries, ConnectionEnds(false)).status == Disconnected
    ensures Next(l, retries, ConnectionEnds(true)).status ==
            if l.status == Disconnected then Disconnected else Failed
  {
  }

  /** A topic is registered exactly by an accepted request while Connected, and forgotten exactly by a
      shutdown. */
  lemma RegistryStep(l: Link, retries: nat, e: Event)
    ensures Next(l, retries, e).subscribers ==
            if e.Subscribe? && e.ok && l.status == Connected then l.subscribers + {e.topic}
            else if e.PostRun? && l.worker == Resting then {}
            else l.subscribers
  {
  }

  /** A shutdown while Connected takes all requests of registered topics back and ends the session, if
      the library agrees. */
  lemma Shutdown(l: Link, retries: nat, ok: bool)
    requires l.worker == Resting
    ensures var n := Next(l, retries, PostRun(ok));
            && (l.status == Connected && ok ==> n.status == Disconnected && !n.session)
            && (l.status == Connected && !ok ==>
                  n == l.(subscribers := {}, requested := l.requested - l.subscribers,
                          accepted := l.accepted - l.subscribers))
            && (l.status != Connected ==> n == l.(subscribers := {}))
  {
  }

  /** While the worker backs off or looks at the connection it spends a try exactly when the look fails;
      otherwise it returns, except that it waits for a connection that is under way. */
  lemma LookingSpendsATryIff(l: Link, retries: nat, e: Event)
    requires l.worker == BackingOff || l.worker == Checking
    requires e == BackoffNotified || e.BackoffElapsed? || e.CheckEnded?
    requires if e.CheckEnded? then l.worker == Checking else l.worker == BackingOff
    ensures var n := Next(l, retries, e);
            && n.tries == (if Attempts(l, e) then l.tries + 1 else l.tries)
            && (!Attempts(l, e) ==>
                  if e.BackoffElapsed? && l.status == Connecting then
                    n == l.(worker := Checking, cost := l.cost.(checks := l.cost.checks + 1))
                  else n == l.(worker := Resting))
  {
  }

  /** An attempt without credentials asks nobody; one that is answered at once with an error backs off
      again; giving up is a failure. */
  lemma AttemptEnds(l: Link, retries: nat, e: Event)
    requires Attempts(l, e)
    ensures var n := Next(l, retries, e);
            if l.tries + 1 > retries then
              n.worker == Resting && n.status == Failed && n.cost == l.cost
            else if !e.credentialsOk then
              n.worker == Resting && n.status == Connecting && n.cost == l.cost
            else
              && n.status == Connecting && !n.session && n.cost.attempts == l.cost.attempts + 1
              && (if e.brokerOk then
                    n.worker == Awaiting && n.future == Pending && n.cost.futureWaits == l.cost.futureWaits + 1
                    && n.cost.backoff == l.cost.backoff
                  else
                    n.worker == BackingOff && n.future == l.future && n.cost.futureWaits == l.cost.futureWaits
                    && n.cost.backoff == l.cost.backoff + l.tries + 1)
  {
  }

  // ---------------------------------------------------------------- the retry bound

  predicate NeverResets(l: Link, retries: nat, events: seq<Event>)
    decreases |events|
  {
    events == [] ||
    (!Resets(l, events[0]) && NeverResets(Next(l, retries, events[0]), retries, events[1..]))
  }

  /** t + (t + 1) + ... + u */
  function Sum(t: nat, u: nat): nat
    decreases u
  {
    if u < t then 0 else if u == t then t else Sum(t, u - 1) + u
  }

  /** What one call of `connect()` may have spent since it was entered with `tries == t` and the
      cost `c`, depending on where it is; a call that has returned rests. */
  ghost predicate Within(l: Link, retries: nat, t: nat, c: Cost) {
    && t <= l.tries <= retries + 1
    && c.attempts <= l.cost.attempts && c.futureWaits <= l.cost.futureWaits
    && l.cost.futureWaits - c.futureWaits <= l.cost.attempts - c.attempts
    && match l.worker
       case BackingOff =>
         && l.tries <= retries
         && l.cost.attempts == c.attempts + l.tries - t
         && l.cost.checks <= c.checks + l.tries - t
         && l.cost.backoff == c.backoff + Sum(t, l.tries)
       case Checking =>
         && l.tries <= retries
         && l.cost.attempts == c.attempts + l.tries - t
         && l.cost.checks <= c.checks + l.tries - t + 1
         && l.cost.backoff == c.backoff + Sum(t, l.tries)
       case Awaiting =>
         && t < l.tries <= retries
         && l.cost.attempts == c.attempts + l.tries - t
         && l.cost.checks <= c.checks + l.tries - t
         && l.cost.backoff == c.backoff + Sum(t, l.tries - 1)
       case Resting =>
         && l.cost.attempts <= c.attempts + retries - t
         && l.cost.checks <= c.checks + retries - t + 1
         && l.cost.backoff <= c.backoff + Sum(t, retries)
  }

  lemma {:induction false} SumGrows(t: nat, u: nat, v: nat)
    requires u <= v
    ensures Sum(t, u) <= Sum(t, v)
    decreases v
  {
    if u < v { SumGrows(t, u, v - 1); }
  }

  lemma AttemptStaysWithin(l: Link, retries: nat, t: nat, c: Cost, credentialsOk: bool, brokerOk: bool)
    requires t <= retries && Within(l, retries, t, c) && (l.worker == BackingOff || l.worker == Checking)
    ensures Within(Attempt(l, retries, credentialsOk, brokerOk), retries, t, c)
  {
    SumGrows(t, l.tries, retries);
  }

  lemma BackoffStaysWithin(l: Link, retries: nat, t: nat, c: Cost, e: Event)
    requires t <= retries && Within(l, retries, t, c) && (e.BackoffNotified? || e.BackoffElapsed?)
    ensures Within(Next(l, retries, e), retries, t, c)
  {
    if l.worker == BackingOff {
      SumGrows(t, l.tries, retries);
      if e.BackoffElapsed? && l.status != Connected && l.status != Connecting {
        AttemptStaysWithin(l, retries, t, c, e.credentialsOk, e.brokerOk);
      }
    }
  }

  lemma CheckStaysWithin(l: Link, retries: nat, t: nat, c: Cost, e: Event)
    requires t <= retries && Within(l, retries, t, c) && e.CheckEnded?
    ensures Within(Next(l, retries, e), retries, t, c)
  {
    if l.worker == Checking {
      SumGrows(t, l.tries, retries);
      if !(e.seen && l.status == Connected) {
        AttemptStaysWithin(l, retries, t, c, e.credentialsOk, e.brokerOk);
      }
    }
  }

  lemma AwaitStaysWithin(l: Link, retries: nat, t: nat, c: Cost, e: Event)
    requires t <= retries && Within(l, retries, t, c) && e.AwaitEnded?
    ensures Within(Next(l, retries, e), retries, t, c)
  {
    if l.worker == Awaiting {
      SumGrows(t, l.tries, retries);
      SumGrows(t, l.tries - 1, retries);
    }
  }

  lemma WorkerStaysWithin(l: Link, retries: nat, t: nat, c: Cost, e: Event)
    requires t <= retries && Within(l, retries, t, c)
    requires e.BackoffNotified? || e.BackoffElapsed? || e.CheckEnded? || e.AwaitEnded?
    ensures Within(Next(l, retries, e), retries, t, c)
  {
    if e.CheckEnded? {
      CheckStaysWithin(l, retries, t, c, e);
    } else if e.AwaitEnded? {
      AwaitStaysWithin(l, retries, t, c, e);
    } else {
      BackoffStaysWithin(l, retries, t, c, e);
    }
  }

  /** Callbacks that do not reset the counter, and calls of the interface, leave the worker alone. */
  lemma OthersLeaveTheWorker(l: Link, retries: nat, e: Event)
    requires e.BrokerAccepts? || e.BrokerRefuses? || e.ConnectionEnds? || e.Subscribe? || e.PostRun?
    requires !Resets(l, e)
    ensures var n := Next(l, retries, e); n.worker == l.worker && n.tries == l.tries && n.cost == l.cost
  {
  }

  lemma StepStaysWithin(l: Link, retries: nat, t: nat, c: Cost, e: Event)
    requires t <= retries && Within(l, retries, t, c)
    requires !Resets(l, e) && e != Connect
    ensures Within(Next(l, retries, e), retries, t, c)
  {
    if e.BackoffNotified? || e.BackoffElapsed? || e.CheckEnded? || e.AwaitEnded? {
      WorkerStaysWithin(l, retries, t, c, e);
    } else {
      OthersLeaveTheWorker(l, retries, e);
    }
  }

  lemma {:induction false} CallStaysWithin(l: Link, retries: nat, t: nat, c: Cost, events: seq<Event>)
    requires t <= retries && Within(l, retries, t, c)
    requires NeverResets(l, retries, events) && Connect !in events
    ensures Within(Exec(l, retries, events), retries, t, c)
    decreases |events|
  {
    if events != [] {
      StepStaysWithin(l, retries, t, c, events[0]);
      CallStaysWithin(Next(l, retries, events[0]), retries, t, c, events[1..]);
    }
  }

  /** One call of `connect()` entered with t tries, in every continuation without a successful
      callback: at most R - t calls of the broker and as many waits for the future, at most
      R - t + 1 waits in `check_connection`, and at most t + ... + R seconds of back-off. */
  lemma ConnectIsBounded(l: Link, retries: nat, events: seq<Event>)
    requires l.worker == Resting && l.tries <= retries
    requires NeverResets(Next(l, retries, Connect), retries, events) && Connect !in events
    ensures var (c, d) := (l.cost, Exec(l, retries, [Connect] + events).cost); var t := l.tries;
      && d.attempts <= c.attempts + retries - t
      && d.futureWaits <= c.futureWaits + retries - t
      && d.checks <= c.checks + retries - t + 1
      && d.backoff <= c.backoff + Sum(t, retries)
  {
    var entered := Next(l, retries, Connect);
    assert ([Connect] + events)[1..] == events;
    CallStaysWithin(entered, retries, l.tries, l.cost, events);
    var last := Exec(entered, retries, events);
    if last.tries <= retries { SumGrows(l.tries, last.tries, retries); }
    if last.worker == Awaiting { SumGrows(l.tries, last.tries - 1, retries); }
  }

  lemma {:induction false} SumHead(t: nat, u: nat)
    requires t <= u
    ensures Sum(t, u) == t + Sum(t + 1, u)
    decreases u
  {
    if t < u { SumHead(t, u - 1); }
  }

  /** One more round of a call that always fails: the wait in `check_connection`, the attempt, and the
      timeout if the broker could be asked. */
  function FailingRound(brokerOk: bool): seq<Event> {
    [BackoffElapsed(true, brokerOk), CheckEnded(false, true, brokerOk)] + if brokerOk then [AwaitEnded(true)] else []
  }

  lemma FailingRoundOnce(l: Link, retries: nat, brokerOk: bool)
    requires l.worker == BackingOff && l.status == Connecting
    ensures var n := Exec(l, retries, FailingRound(brokerOk));
            && n.tries == l.tries + 1
            && if l.tries + 1 > retries then
                 n.worker == Resting && n.status == Failed
                 && n.cost == l.cost.(checks := l.cost.checks + 1)
               else
                 n.worker == BackingOff && n.status == Connecting
                 && n.cost == Cost(l.cost.attempts + 1, l.cost.backoff + l.tries + 1,
                                   l.cost.futureWaits + (if brokerOk then 1 else 0), l.cost.checks + 1)
  {
    if brokerOk {
      ExecThree(l, retries, BackoffElapsed(true, true), CheckEnded(false, true, true), AwaitEnded(true));
      assert FailingRound(true) == [BackoffElapsed(true, true), CheckEnded(false, true, true), AwaitEnded(true)];
    } else {
      assert FailingRound(false) == [BackoffElapsed(true, false), CheckEnded(false, true, false)];
      assert FailingRound(false)[1..] == [CheckEnded(false, true, false)];
    }
  }

  lemma NeverAcceptedNeverResets(l: Link, retries: nat, events: seq<Event>)
    requires NeverAccepted(events)
    ensures NeverResets(l, retries, events)
    decreases |events|
  {
    if events != [] { NeverAcceptedNeverResets(Next(l, retries, events[0]), retries, events[1..]); }
  }

  /** All four bounds are reached: a call entered while a connection is under way, of which every
      attempt fails, spends exactly that much and gives up. */
  lemma {:induction false} BoundsAreReached(l: Link, retries: nat, brokerOk: bool) returns (events: seq<Event>)
    requires l.worker == BackingOff && l.status == Connecting && l.tries <= retries
    ensures Connect !in events && NeverResets(l, retries, events)
    ensures var n := Exec(l, retries, events);
            && n.worker == Resting && n.status == Failed && n.tries == retries + 1
            && n.cost.attempts == l.cost.attempts + retries - l.tries
            && n.cost.backoff == l.cost.backoff + Sum(l.tries + 1, retries)
            && n.cost.futureWaits == l.cost.futureWaits + (if brokerOk then retries - l.tries else 0)
            && n.cost.checks == l.cost.checks + retries - l.tries + 1
    ensures NeverAccepted(events)
    decreases retries - l.tries
  {
    var round := FailingRound(brokerOk);
    var n := Exec(l, retries, round);
    FailingRoundOnce(l, retries, brokerOk);
    events := round;
    if l.tries < retries {
      var rest := BoundsAreReached(n, retries, brokerOk);
      ExecConcat(l, retries, round, rest);
      SumHead(l.tries + 1, retries);
      events := round + rest;
    }
    NeverAcceptedNeverResets(l, retries, events);
  }

  /** The broker accepts during the back-off after a timeout, and the connection is lost again. */
  const FLAPPING: seq<Event> := [AwaitEnded(true), BrokerAccepts({}), ConnectionEnds(true), BackoffElapsed(true, true)]

  lemma FlapOnce(l: Link, retries: nat)
    requires retries > 0 && l.worker == Awaiting && l.future != NoFuture
    ensures var n := Exec(l, retries, FLAPPING);
            n.worker == Awaiting && n.future != NoFuture && n.cost.attempts == l.cost.attempts + 1
  {
  }

  /** Without the condition there is no bound: one call of `connect()` makes any number of attempts
      when successful callbacks reset the counter often enough. */
  lemma {:induction false} ResetsMakeItUnbounded(l: Link, retries: nat, k: nat) returns (events: seq<Event>)
    requires retries > 0 && l.worker == Awaiting && l.future != NoFuture
    ensures Connect !in events
    ensures var n := Exec(l, retries, events);
            n.worker == Awaiting && n.future != NoFuture && n.cost.attempts == l.cost.attempts + k
    decreases k
  {
    events := [];
    if k > 0 {
      FlapOnce(l, retries);
      var rest := ResetsMakeItUnbounded(Exec(l, retries, FLAPPING), retries, k - 1);
      ExecConcat(l, retries, FLAPPING, rest);
      events := FLAPPING + rest;
    }
  }

  /** A bound on the steps the worker still makes before its call of `connect()` returns. */
  function Remaining(l: Link, retries: nat): nat {
    var passes := if l.tries <= retries then retries + 1 - l.tries else 0;
    match l.worker
    case Resting => 0
    case BackingOff => 3 * passes + 2
    case Checking => 3 * passes + 1
    case Awaiting => 3 * passes + 3
  }

  /** Whether an event is a step of the worker. */
  predicate Moves(l: Link, retries: nat, e: Event) {
    var n := Next(l, retries, e);
    n.worker != l.worker || n.cost != l.cost
  }

  function Steps(l: Link, retries: nat, events: seq<Event>): nat
    decreases |events|
  {
    if events == [] then 0
    else (if Moves(l, retries, events[0]) then 1 else 0) + Steps(Next(l, retries, events[0]), retries, events[1..])
  }

  lemma EveryStepCounts(l: Link, retries: nat, e: Event)
    requires !Resets(l, e) && e != Connect
    ensures Remaining(Next(l, retries, e), retries) + (if Moves(l, retries, e) then 1 else 0) <= Remaining(l, retries)
  {
    if !(e.BackoffNotified? || e.BackoffElapsed? || e.CheckEnded? || e.AwaitEnded?) {
      OthersLeaveTheWorker(l, retries, e);
    }
  }

  /** `connect()` terminates: without a successful callback, a call makes at most so many steps,
      whatever else happens, and each of them ends a wait with a time limit. */
  lemma {:induction false} ConnectTerminates(l: Link, retries: nat, events: seq<Event>)
    requires NeverResets(l, retries, events) && Connect !in events
    ensures Steps(l, retries, events) + Remaining(Exec(l, retries, events), retries) <= Remaining(l, retries)
    decreases |events|
  {
    if events != [] {
      EveryStepCounts(l, retries, events[0]);
      ConnectTerminates(Next(l, retries, events[0]), retries, events[1..]);
    }
  }

  /** After giving up, no call of `connect()` asks the broker again until a successful callback
      resets the counter. */
  lemma {:induction false} GivenUpMeansNoAttempt(l: Link, retries: nat, events: seq<Event>)
    requires l.tries >= retries && NeverResets(l, retries, events)
    ensures Exec(l, retries, events).tries >= retries
    ensures Exec(l, retries, events).cost.attempts == l.cost.attempts
    decreases |events|
  {
    if events != [] {
      GivenUpStep(l, retries, events[0]);
      GivenUpMeansNoAttempt(Next(l, retries, events[0]), retries, events[1..]);
    }
  }

  lemma GivenUpStep(l: Link, retries: nat, e: Event)
    requires l.tries >= retries && !Resets(l, e)
    ensures Next(l, retries, e).tries >= retries && Next(l, retries, e).cost.attempts == l.cost.attempts
  {
    if e.BrokerAccepts? || e.BrokerRefuses? || e.ConnectionEnds? || e.Subscribe? || e.PostRun? {
      OthersLeaveTheWorker(l, retries, e);
    }
  }

  // ---------------------------------------------------------------- the link as an object

  /** The members of the link that the methods below change, and as ghost fields what the client
      library and the clock would know. */
  class MqttLink {
    const maxRetries: nat
    var status: Status
    var tries: nat
    var subscribers: set<Topic>
    var future: Future
    ghost var worker: Worker
    ghost var session: bool
    ghost var requested: set<Topic>
    ghost var accepted: set<Topic>
    ghost var cost: Cost

    ghost function View(): Link
      reads this
    {
      Link(status, tries, subscribers, future, worker, session, requested, accepted, cost)
    }

    constructor (maxRetries: nat)
      ensures View() == START && this.maxRetries == maxRetries
    {
      this.maxRetries := maxRetries;
      status, tries, subscribers, future := Invalid, 0, {}, NoFuture;
      worker, session, requested, accepted, cost := Resting, false, {}, {}, Cost(0, 0, 0, 0);
    }

    /** `p_subscribe`: the request is sent; `ok` is the answer of the library. */
    method SendSubscribe(topic: Topic, ok: bool)
      modifies this`requested, this`accepted
      ensures requested == old(requested) + {topic}
      ensures accepted == if ok then old(accepted) + {topic} else old(accepted) - {topic}
    {
      requested := requested + {topic};
      accepted := if ok then accepted + {topic} else accepted - {topic};
    }

    /** The loop over the registry; `refused` are the topics that the library does not accept. */
    method Replay(refused: set<Topic>)
      modifies this`requested, this`accepted
      ensures requested == old(requested) + subscribers
      ensures accepted == old(accepted) + subscribers - refused * subscribers
    {
      var todo := subscribers;
      while todo != {}
        invariant todo <= subscribers
        invariant requested == old(requested) + (subscribers - todo)
        invariant accepted == old(accepted) + (subscribers - todo) - refused * (subscribers - todo)
      {
        var topic :| topic in todo;
        SendSubscribe(topic, topic !in refused);
        todo := todo - {topic};
      }
    }

    /** A promise that was fulfilled before throws when it is given a value again, after the status
        has been set and the subscriptions have been replayed. */
    method CallbackConnected(result: int, refused: set<Topic>) returns (threw: bool)
      requires Inv(View())
      modifies this
      ensures View() == if result == 0 then OnAccepted(old(View()), refused) else OnRefused(old(View()))
      ensures threw == old(future).Fulfilled? && Inv(View())
      ensures old(future) == NoFuture ==> status == old(status) && tries == old(tries) && future == NoFuture
      ensures old(future) != NoFuture ==> status == if result == 0 then Connected else Failed
      ensures old(future) != NoFuture && result == 0 ==> tries == 0 && subscribers <= requested
      ensures old(future) == Pending ==> future == Fulfilled(result == 0)
    {
      if result == 0 && !session {
        session, requested, accepted := true, {}, {};
      }
      if future == NoFuture {
        return false;
      }
      threw := future.Fulfilled?;
      if result == 0 {
        status := Connected;
        tries := 0;
        Replay(refused);
      } else {
        status := Failed;
      }
      if future == Pending {
        future := Fulfilled(result == 0);
      }
    }

    method CallbackDisconnected(result: int)
      requires Inv(View())
      modifies this
      ensures View() == OnDisconnected(old(View()), result != 0) && Inv(View())
      ensures !session && requested == {} && subscribers == old(subscribers)
      ensures status == if result == 0 || old(status) == Disconnected then Disconnected else Failed
    {
      session, requested, accepted := false, {}, {};
      if result != 0 {
        if status == Failed || status == Disconnected {
          return;
        }
        status := Failed;
      } else {
        status := Disconnected;
      }
    }

    /** False stands for the exception that is thrown instead of returning a subscriber. */
    method Subscribe(topic: Topic, ok: bool) returns (returned: bool)
      requires Inv(View())
      modifies this
      ensures View() == OnSubscribe(old(View()), topic, ok) && Inv(View())
      ensures returned == (old(status) == Connected && topic in subscribers)
      ensures subscribers == old(subscribers) + if old(status) == Connected && ok then {topic} else {}
      ensures topic !in old(subscribers) && old(status) == Connected ==> topic in requested
    {
      if status != Connected {
        return false;
      }
      if topic in subscribers {
        return true;
      }
      SendSubscribe(topic, ok);
      if !ok {
        return false;
      }
      subscribers := subscribers + {topic};
      return true;
    }

    method PostRun(disconnectOk: bool) returns (r: int)
      requires Inv(View()) && worker == Resting
      modifies this
      ensures View() == Next(old(View()), maxRetries, Event.PostRun(disconnectOk)) && Inv(View())
      ensures r == if old(status) == Connected && !disconnectOk then -1 else 0
      ensures subscribers == {}
      ensures status == if old(status) == Connected && disconnectOk then Disconnected else old(status)
    {
      while subscribers != {}
        invariant subscribers <= old(subscribers)
        invariant requested == if status == Connected
          then old(requested) - (old(subscribers) - subscribers) else old(requested)
        invariant accepted == if status == Connected
          then old(accepted) - (old(subscribers) - subscribers) else old(accepted)
        invariant status == old(status) && tries == old(tries) && future == old(future)
        invariant worker == old(worker) && session == old(session) && cost == old(cost)
      {
        var topic :| topic in subscribers;
        if status == Connected {
          requested, accepted := requested - {topic}, accepted - {topic};
        }
        subscribers := subscribers - {topic};
      }
      if status == Connected {
        if !disconnectOk {
          return -1;
        }
        session, requested, accepted := false, {}, {};
        status := Disconnected;
      }
      return 0;
    }

    /** `connect()` from the start to its first wait. */
    method EnterConnect()
      modifies this`worker, this`cost
      ensures View() == Enter(old(View()))
    {
      worker := BackingOff;
      cost := cost.(backoff := cost.backoff + tries);
    }

    /** `connect()` from the test of the connection to its next wait or its return. */
    method AttemptConnect(credentialsOk: bool, brokerOk: bool)
      requires Inv(View())
      modifies this
      ensures View() == Attempt(old(View()), maxRetries, credentialsOk, brokerOk) && Inv(View())
    {
      tries := tries + 1;
      status := Connecting;
      if tries > maxRetries {
        status := Failed;
        worker := Resting;
        return;
      }
      if !credentialsOk {
        worker := Resting;
        return;
      }
      session, requested, accepted := false, {}, {};
      cost := cost.(attempts := cost.attempts + 1);
      if brokerOk {
        future := Pending;
        worker := Awaiting;
        cost := cost.(futureWaits := cost.futureWaits + 1);
        return;
      }
      EnterConnect();
    }

    /** `connect()` after the back-off, with the first look of `check_connection`. */
    method BackoffEnded(notified: bool, credentialsOk: bool, brokerOk: bool)
      requires Inv(View()) && worker == BackingOff
      modifies this
      ensures View() == Next(old(View()), maxRetries,
        if notified then Event.BackoffNotified else Event.BackoffElapsed(credentialsOk, brokerOk))
      ensures Inv(View())
    {
      if notified || status == Connected {
        worker := Resting;
      } else if status == Connecting {
        worker := Checking;
        cost := cost.(checks := cost.checks + 1);
      } else {
        AttemptConnect(credentialsOk, brokerOk);
      }
    }

    /** `connect()` after the wait inside `check_connection`. */
    method CheckEnded(seen: bool, credentialsOk: bool, brokerOk: bool)
      requires Inv(View()) && worker == Checking
      modifies this
      ensures View() == Next(old(View()), maxRetries, Event.CheckEnded(seen, credentialsOk, brokerOk))
      ensures Inv(View())
    {
      if seen && status == Connected {
        worker := Resting;
      } else {
        AttemptConnect(credentialsOk, brokerOk);
      }
    }

    /** `connect()` after its wait for the future. */
    method AwaitEnded(timedOut: bool)
      requires Inv(View()) && worker == Awaiting && (timedOut || future.Fulfilled?)
      modifies this
      ensures View() == Next(old(View()), maxRetries, Event.AwaitEnded(timedOut)) && Inv(View())
      ensures future == if timedOut then old(future) else NoFuture
      ensures worker == if !timedOut && old(future).value then Resting else BackingOff
    {
      if !timedOut {
        var value := future.value;
        future := NoFuture;
        if value {
          worker := Resting;
          return;
        }
      }
      EnterConnect();
    }
  }
}

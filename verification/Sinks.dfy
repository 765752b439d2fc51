/** Threaded sinks arranged in a tree, as an interleaved machine of micro-steps.

    Every node is one `threaded` sink with its own queue, mutex and worker thread. A node that
    has children is a `collection`: its `process(item)` hands the item to each child in turn.
    A node without children is any other sink, whose `process(item)` may fail.

    A run is a sequence of events of producers, workers and callers of `stop()`. An event that
    is not enabled (a lock is taken, a worker is elsewhere) leaves the state alone, so the
    sequences of events are exactly the interleavings. */
module Sinks {

  /** The tree: node 0 is the root and `parents[v] < v` is the parent of every other node v.
      The children of a node are served in the order of their numbers. */
  type Topology = seq<nat>

  ghost predicate IsTree(parents: Topology) {
    |parents| > 0 && forall v :: 0 < v < |parents| ==> parents[v] < v
  }

  predicate IsChild(parents: Topology, v: nat, c: nat) {
    0 < c < |parents| && parents[c] == v
  }

  /** At most this many items are drained by one `step()`. */
  const BATCH: nat := 10

  /** Where the worker of a node is. `n` counts the items this `step()` has finished. */
  datatype Worker<T> =
    | Parked                              // not started, or returned from its loop
    | LoopTest                            // about to read `m_run`
    | EmptyTest                           // about to read `m_items.empty()`
    | GoingToWait                         // saw an empty queue, not yet waiting
    | Waiting(signalled: bool)            // inside the timed wait
    | QuitTest                            // about to read `m_quit`
    | Popping(n: nat)                     // about to lock the queue, read its front and pop
    | InHand(item: T, n: nat)             // popped, not yet given to `process(item)`
    | Forwarding(n: nat, next: nat)       // inside `process(item)`: children below `next` are served
    | Tail                                // about to call `process()` at the end of the step
    | Crashed                             // `front`/`pop` ran on an empty queue

  /** `history` lists all items ever pushed here, in the order in which the lock was taken;
      `pushing` says that a pusher holds the lock and has not notified yet; `steps` counts the
      invocations of `step()`. */
  datatype Node<T> = Node(
    history: seq<T>, queue: seq<T>, processed: seq<T>,
    pushing: bool, run: bool, quit: bool,
    worker: Worker<T>, steps: nat)

  type State<T> = seq<Node<T>>

  /** `timedOut` and `fails` are the choices of the environment: whether the wait ran into its
      timeout, and whether the `process` call that returns now reports an error or throws. */
  datatype Event<T> =
    | Produce(item: T)                    // a producer calls `get` of the root
    | Notify(v: nat)                      // the pusher that holds v's lock notifies and unlocks
    | Start(v: nat)                       // `start()` creates a worker
    | StopRun(v: nat)                     // `stop()` clears `m_run` ...
    | StopQuit(v: nat)                    // ... then sets `m_quit` ...
    | StopNotify(v: nat)                  // ... then notifies
    | Work(v: nat, timedOut: bool, fails: bool)

  function Fresh<T>(): Node<T> {
    Node([], [], [], false, true, false, Parked, 0)
  }

  function Init<T>(parents: Topology): State<T> {
    seq(|parents|, _ => Fresh())
  }

  /** `internal_get`: the locked part up to the notification. */
  function Pushed<T>(node: Node<T>, item: T): Node<T> {
    node.(history := node.history + [item], queue := node.queue + [item], pushing := true)
  }

  /** `notify_all` reaches the worker only while it waits. */
  function Signal<T>(node: Node<T>): Node<T> {
    if node.worker.Waiting? then node.(worker := Waiting(true)) else node
  }

  /** The first child of v from number `from` on, or the number of nodes if there is none. */
  function NextChild(parents: Topology, v: nat, from: nat): (c: nat)
    requires from <= |parents|
    ensures from <= c <= |parents|
    ensures c < |parents| ==> IsChild(parents, v, c)
    ensures forall d :: from <= d < c ==> !IsChild(parents, v, d)
    decreases |parents| - from
  {
    if from == |parents| || IsChild(parents, v, from) then from
    else NextChild(parents, v, from + 1)
  }

  /** One micro-step of a worker as far as it concerns its own node. Handing an item to a child
      is `Forward`. */
  function WorkAlone<T>(node: Node<T>, timedOut: bool, fails: bool): Node<T> {
    match node.worker
    case LoopTest =>
      if node.run then node.(worker := EmptyTest, steps := node.steps + 1) else node.(worker := Parked)
    case EmptyTest =>
      node.(worker := if node.queue == [] then GoingToWait else QuitTest)
    case GoingToWait =>
      node.(worker := Waiting(false))
    case Waiting(signalled) =>
      if timedOut then node.(worker := if fails then Parked else LoopTest)
      else if signalled then node.(worker := QuitTest)
      else node
    case QuitTest =>
      node.(worker := if node.quit then LoopTest else Popping(0))
    case Popping(n) =>
      if node.pushing then node
      else if node.queue == [] then node.(worker := Crashed)
      else node.(queue := node.queue[1..], worker := InHand(node.queue[0], n))
    case InHand(item, n) =>
      node.(processed := node.processed + [item], worker := Forwarding(n, 0))
    case Forwarding(n, _) =>
      node.(worker := if fails then Parked
                      else if node.queue != [] && n + 1 < BATCH then Popping(n + 1)
                      else Tail)
    case Tail =>
      node.(worker := if fails then Parked else LoopTest)
    case _ =>
      node
  }

  /** One micro-step of the worker of v: inside `process(item)` it serves the next child, or
      returns when every child is served; elsewhere it works alone. */
  function Work1<T>(parents: Topology, s: State<T>, v: nat, timedOut: bool, fails: bool): (t: State<T>)
    requires |s| == |parents| && v < |s|
    ensures |t| == |s|
  {
    var node := s[v];
    if node.worker.Forwarding? && node.worker.next <= |s| && node.processed != []
       && NextChild(parents, v, node.worker.next) < |s| then
      var c := NextChild(parents, v, node.worker.next);
      if s[c].pushing then s
      else
        var served := s[v := node.(worker := Forwarding(node.worker.n, c + 1))];
        served[c := Pushed(served[c], node.processed[|node.processed| - 1])]
    else
      s[v := WorkAlone(node, timedOut, fails)]
  }

  function Next<T>(parents: Topology, s: State<T>, e: Event<T>): (t: State<T>)
    requires |s| == |parents| > 0
    ensures |t| == |s|
  {
    match e
    case Produce(item) => if s[0].pushing then s else s[0 := Pushed(s[0], item)]
    case Notify(v) => if v < |s| && s[v].pushing then s[v := Signal(s[v].(pushing := false))] else s
    case Start(v) => if v < |s| && s[v].worker == Parked then s[v := s[v].(worker := LoopTest)] else s
    case StopRun(v) => if v < |s| then s[v := s[v].(run := false)] else s
    case StopQuit(v) => if v < |s| && !s[v].run then s[v := s[v].(quit := true)] else s
    case StopNotify(v) => if v < |s| && s[v].quit then s[v := Signal(s[v])] else s
    case Work(v, timedOut, fails) => if v < |s| then Work1(parents, s, v, timedOut, fails) else s
  }

  function Exec<T>(parents: Topology, s: State<T>, events: seq<Event<T>>): (t: State<T>)
    requires |s| == |parents| > 0
    ensures |t| == |s|
    decreases |events|
  {
    if events == [] then s else Exec(parents, Next(parents, s, events[0]), events[1..])
  }

  // ---------------------------------------------------------------- the invariant

  function Hand<T>(worker: Worker<T>): seq<T> {
    if worker.InHand? then [worker.item] else []
  }

  /** Whether the item v is forwarding has not reached child c yet. */
  predicate Owes<T>(node: Node<T>, c: nat) {
    node.worker.Forwarding? && node.worker.next <= c
  }

  /** What v has given to its child c. */
  function Given<T>(node: Node<T>, c: nat): seq<T> {
    if Owes(node, c) && node.processed != [] then node.processed[..|node.processed| - 1] else node.processed
  }

  ghost predicate WorkerOk<T>(node: Node<T>, size: nat) {
    match node.worker
    case Waiting(signalled) => signalled ==> node.queue != [] || node.quit
    case QuitTest => node.queue != [] || node.quit
    case Popping(n) => node.queue != [] && n < BATCH
    case InHand(_, n) => n < BATCH
    case Forwarding(n, next) => n < BATCH && next <= size && node.processed != []
    case Crashed => false
    case _ => true
  }

  ghost predicate NodeOk<T>(node: Node<T>, size: nat) {
    && node.history == node.processed + Hand(node.worker) + node.queue
    && (node.pushing ==> node.queue != [])
    && (node.quit ==> !node.run)
    && WorkerOk(node, size)
  }

  ghost predicate Linked<T>(parents: Topology, s: State<T>, c: nat)
    requires |s| == |parents| && 0 < c < |s| && parents[c] < |s|
  {
    s[c].history == Given(s[parents[c]], c)
  }

  ghost predicate Inv<T>(parents: Topology, s: State<T>) {
    && IsTree(parents)
    && |s| == |parents|
    && (forall v :: 0 <= v < |s| ==> NodeOk(s[v], |s|))
    && (forall c :: 0 < c < |s| ==> Linked(parents, s, c))
  }

  lemma WorkAloneOk<T>(node: Node<T>, size: nat, timedOut: bool, fails: bool)
    requires NodeOk(node, size)
    ensures NodeOk(WorkAlone(node, timedOut, fails), size)
  {
    HistoryAlone(node, size, timedOut, fails);
  }

  lemma HistoryAlone<T>(node: Node<T>, size: nat, timedOut: bool, fails: bool)
    requires NodeOk(node, size)
    ensures var after := WorkAlone(node, timedOut, fails);
      after.history == after.processed + Hand(after.worker) + after.queue
  {
    if node.worker.Popping? && !node.pushing {
      assert node.queue == [node.queue[0]] + node.queue[1..];
    }
  }

  lemma PushedOk<T>(node: Node<T>, size: nat, item: T)
    requires NodeOk(node, size)
    ensures NodeOk(Pushed(node, item), size)
  {
    var after := Pushed(node, item);
    assert after.history == after.processed + Hand(after.worker) + after.queue;
  }

  /** A change of one node that neither its parent's nor its children's links can see. */
  lemma UpdateKeepsInv<T>(parents: Topology, s: State<T>, v: nat, node: Node<T>)
    requires Inv(parents, s) && v < |s|
    requires NodeOk(node, |s|)
    requires v == 0 || node.history == s[v].history
    requires forall c :: IsChild(parents, v, c) ==> Given(node, c) == Given(s[v], c)
    ensures Inv(parents, s[v := node])
  {
    var t := s[v := node];
    forall c | 0 < c < |s| ensures Linked(parents, t, c) {
      assert Linked(parents, s, c);
      if parents[c] == v {
        assert IsChild(parents, v, c);
      }
    }
  }

  /** The worker of v hands the item to its next child. */
  lemma ForwardKeepsInv<T>(parents: Topology, s: State<T>, v: nat)
    requires Inv(parents, s) && v < |s|
    requires s[v].worker.Forwarding? && s[v].worker.next <= |s| && s[v].processed != []
    requires NextChild(parents, v, s[v].worker.next) < |s|
    requires !s[NextChild(parents, v, s[v].worker.next)].pushing
    ensures Inv(parents, Work1(parents, s, v, false, false))
  {
    var node := s[v];
    var c := NextChild(parents, v, node.worker.next);
    var item := node.processed[|node.processed| - 1];
    var t := Work1(parents, s, v, false, false);
    assert t[c] == Pushed(s[c], item) && t[v] == node.(worker := Forwarding(node.worker.n, c + 1));
    assert NodeOk(s[v], |s|) && NodeOk(s[c], |s|);
    PushedOk(s[c], |s|, item);
    assert NodeOk(t[v], |s|);
    forall d | 0 < d < |s| ensures Linked(parents, t, d) {
      assert Linked(parents, s, d);
      ForwardKeepsLink(parents, s, v, d);
    }
  }

  /** The link of any node d after that. */
  lemma ForwardKeepsLink<T>(parents: Topology, s: State<T>, v: nat, d: nat)
    requires IsTree(parents) && |s| == |parents| && v < |s| && 0 < d < |s| && Linked(parents, s, d)
    requires s[v].worker.Forwarding? && s[v].worker.next <= |s| && s[v].processed != []
    requires NextChild(parents, v, s[v].worker.next) < |s|
    requires !s[NextChild(parents, v, s[v].worker.next)].pushing
    ensures Linked(parents, Work1(parents, s, v, false, false), d)
  {
    var node := s[v];
    var c := NextChild(parents, v, node.worker.next);
    if d == c {
      assert node.processed == Given(node, c) + [node.processed[|node.processed| - 1]];
    } else if parents[d] == v {
      assert IsChild(parents, v, d);
    }
  }

  lemma WorkKeepsInv<T>(parents: Topology, s: State<T>, v: nat, timedOut: bool, fails: bool)
    requires Inv(parents, s) && v < |s|
    ensures Inv(parents, Work1(parents, s, v, timedOut, fails))
  {
    var node := s[v];
    assert NodeOk(node, |s|);
    if node.worker.Forwarding? && NextChild(parents, v, node.worker.next) < |s| {
      if !s[NextChild(parents, v, node.worker.next)].pushing {
        ForwardKeepsInv(parents, s, v);
      }
    } else {
      WorkAloneOk(node, |s|, timedOut, fails);
      UpdateKeepsInv(parents, s, v, WorkAlone(node, timedOut, fails));
    }
  }

  /** One of the three steps of `stop()`. */
  lemma ToggleKeepsInv<T>(parents: Topology, s: State<T>, v: nat, node: Node<T>)
    requires Inv(parents, s) && v < |s|
    requires || node == s[v].(run := false)
             || (!s[v].run && node == s[v].(quit := true))
             || (s[v].quit && node == Signal(s[v]))
    ensures Inv(parents, s[v := node])
  {
    assert NodeOk(s[v], |s|);
    UpdateKeepsInv(parents, s, v, node);
  }

  lemma NextKeepsInv<T>(parents: Topology, s: State<T>, e: Event<T>)
    requires Inv(parents, s)
    ensures Inv(parents, Next(parents, s, e))
  {
    match e
    case Produce(item) =>
      assert NodeOk(s[0], |s|);
      PushedOk(s[0], |s|, item);
      UpdateKeepsInv(parents, s, 0, Pushed(s[0], item));
    case Notify(v) =>
      if v < |s| && s[v].pushing {
        assert NodeOk(s[v], |s|);
        UpdateKeepsInv(parents, s, v, Signal(s[v].(pushing := false)));
      }
    case Start(v) =>
      if v < |s| {
        assert NodeOk(s[v], |s|);
        if s[v].worker == Parked { UpdateKeepsInv(parents, s, v, s[v].(worker := LoopTest)); }
      }
    case StopRun(v) => if v < |s| { ToggleKeepsInv(parents, s, v, s[v].(run := false)); }
    case StopQuit(v) => if v < |s| && !s[v].run { ToggleKeepsInv(parents, s, v, s[v].(quit := true)); }
    case StopNotify(v) => if v < |s| && s[v].quit { ToggleKeepsInv(parents, s, v, Signal(s[v])); }
    case Work(v, timedOut, fails) =>
      if v < |s| { WorkKeepsInv(parents, s, v, timedOut, fails); }
  }

  lemma {:induction false} ExecKeepsInv<T>(parents: Topology, s: State<T>, events: seq<Event<T>>)
    requires Inv(parents, s)
    ensures Inv(parents, Exec(parents, s, events))
    decreases |events|
  {
    if events != [] {
      NextKeepsInv(parents, s, events[0]);
      ExecKeepsInv(parents, Next(parents, s, events[0]), events[1..]);
    }
  }

  /** The state after a run from the start. */
  function Run<T>(parents: Topology, events: seq<Event<T>>): (s: State<T>)
    requires |parents| > 0
    ensures |s| == |parents|
  {
    Exec(parents, Init(parents), events)
  }

  /** In every interleaving: at each node, what was pushed is what was processed, then what is in
      hand, then what is queued, in lock order; and `front`/`pop` never run on an empty queue, also
      when a push or a stop comes between the test for emptiness and the wait. */
  lemma EveryInterleaving<T>(parents: Topology, events: seq<Event<T>>)
    requires IsTree(parents)
    ensures var s := Run(parents, events);
      && Inv(parents, s)
      && forall v :: 0 <= v < |s| ==>
           s[v].history == s[v].processed + Hand(s[v].worker) + s[v].queue && s[v].worker != Crashed
  {
    ExecKeepsInv(parents, Init(parents), events);
    var s := Run(parents, events);
    assert forall v :: 0 <= v < |s| ==> NodeOk(s[v], |s|);
  }

  // ---------------------------------------------------------------- conservation over the tree

  /** The items at v that have not reached its child c: forwarded but not to c yet, in hand, queued. */
  function Pending<T>(node: Node<T>, c: nat): seq<T> {
    (if Owes(node, c) && node.processed != [] then [node.processed[|node.processed| - 1]] else [])
    + Hand(node.worker) + node.queue
  }

  /** The items underway from the root to v, those nearest to v first. */
  ghost function Transit<T>(parents: Topology, s: State<T>, v: nat): seq<T>
    requires IsTree(parents) && |s| == |parents| && v < |s|
  {
    if v == 0 then [] else Pending(s[parents[v]], v) + Transit(parents, s, parents[v])
  }

  lemma GivenPlusPending<T>(node: Node<T>, size: nat, c: nat)
    requires NodeOk(node, size)
    ensures node.history == Given(node, c) + Pending(node, c)
  {
  }

  lemma Associate<T>(a: seq<T>, b: seq<T>, c: seq<T>)
    ensures a + b + c == a + (b + c)
  {
  }

  lemma {:induction false} RootIsNodePlusTransit<T>(parents: Topology, s: State<T>, v: nat)
    requires Inv(parents, s) && v < |s|
    ensures s[0].history == s[v].history + Transit(parents, s, v)
    decreases v
  {
    if v > 0 {
      var p := parents[v];
      RootIsNodePlusTransit(parents, s, p);
      assert Linked(parents, s, v);
      assert NodeOk(s[p], |s|);
      GivenPlusPending(s[p], |s|, v);
      Associate(Given(s[p], v), Pending(s[p], v), Transit(parents, s, p));
    }
  }

  /** Conservation in the tree, for every interleaving and every node: the items a node has
      processed, then those at the node, then those underway on the path to the root, are exactly
      the items pushed at the root. So no item is lost, duplicated or reordered on any path. */
  lemma Conservation<T>(parents: Topology, events: seq<Event<T>>, v: nat)
    requires IsTree(parents) && v < |parents|
    ensures var s := Run(parents, events);
      && s[0].history == s[v].processed + Hand(s[v].worker) + s[v].queue + Transit(parents, s, v)
      && s[v].processed <= s[0].history
  {
    var s := Run(parents, events);
    EveryInterleaving(parents, events);
    RootIsNodePlusTransit(parents, s, v);
    Regroup(s[v].processed, Hand(s[v].worker), s[v].queue, Transit(parents, s, v));
  }

  lemma Regroup<T>(a: seq<T>, b: seq<T>, c: seq<T>, d: seq<T>)
    ensures a + b + c + d == a + (b + c + d)
    ensures a <= a + b + c + d
  {
  }

  ghost predicate Quiet<T>(node: Node<T>) {
    node.queue == [] && !node.worker.InHand? && !node.worker.Forwarding?
  }

  /** When nothing is queued or in hand anywhere, every node has processed all that was pushed. */
  lemma QuietMeansDelivered<T>(parents: Topology, events: seq<Event<T>>, v: nat)
    requires IsTree(parents) && v < |parents|
    requires forall u :: 0 <= u < |parents| ==> Quiet(Run(parents, events)[u])
    ensures Run(parents, events)[v].processed == Run(parents, events)[0].history
  {
    var s := Run(parents, events);
    Conservation(parents, events, v);
    QuietTransit(parents, s, v);
    assert Quiet(s[v]);
  }

  lemma {:induction false} QuietTransit<T>(parents: Topology, s: State<T>, v: nat)
    requires IsTree(parents) && |s| == |parents| && v < |s|
    requires forall u :: 0 <= u < |s| ==> Quiet(s[u])
    ensures Transit(parents, s, v) == []
    decreases v
  {
    if v > 0 {
      QuietTransit(parents, s, parents[v]);
      assert Quiet(s[parents[v]]);
    }
  }

  // ---------------------------------------------------------------- after stop()

  /** How many items a worker can still process once `m_run` is cleared. */
  function Budget<T>(node: Node<T>): (b: nat)
    ensures b <= BATCH
  {
    match node.worker
    case EmptyTest => if node.quit then 0 else BATCH
    case GoingToWait => if node.quit then 0 else BATCH
    case Waiting(_) => if node.quit then 0 else BATCH
    case QuitTest => if node.quit then 0 else BATCH
    case Popping(n) => if n < BATCH then BATCH - n else 0
    case InHand(_, n) => if n < BATCH then BATCH - n else 0
    case Forwarding(n, _) => if n + 1 < BATCH then BATCH - n - 1 else 0
    case _ => 0
  }

  /** The stopped node has begun no further step and used up no less of its budget than it processed. */
  predicate Wanes<T>(node: Node<T>, after: Node<T>) {
    && !after.run && after.steps == node.steps
    && |after.processed| + Budget(after) <= |node.processed| + Budget(node)
  }

  lemma StoppedAlone<T>(node: Node<T>, size: nat, timedOut: bool, fails: bool)
    requires !node.run && WorkerOk(node, size)
    ensures Wanes(node, WorkAlone(node, timedOut, fails))
  {
  }

  lemma StoppedWork<T>(parents: Topology, s: State<T>, v: nat, w: nat, timedOut: bool, fails: bool)
    requires |s| == |parents| && v < |s| && w < |s| && !s[v].run
    requires WorkerOk(s[v], |s|)
    ensures Wanes(s[v], Work1(parents, s, w, timedOut, fails)[v])
  {
    if w == v { StoppedAlone(s[v], |s|, timedOut, fails); }
  }

  lemma StoppedStep<T>(parents: Topology, s: State<T>, v: nat, e: Event<T>)
    requires Inv(parents, s) && v < |s| && !s[v].run
    ensures Wanes(s[v], Next(parents, s, e)[v])
  {
    assert NodeOk(s[v], |s|);
    if e.Work? && e.v < |s| { StoppedWork(parents, s, v, e.v, e.timedOut, e.fails); }
  }

  /** Once `m_run` of a node is cleared, in every continuation, restarts included: no further
      invocation of `step()` begins, and at most `Budget` more items reach `process(item)`. That
      is never more than ten, and none at all if `m_quit` is set before the worker has tested it. */
  lemma {:induction false} StopIsFinal<T>(parents: Topology, s: State<T>, v: nat, events: seq<Event<T>>)
    requires Inv(parents, s) && v < |s| && !s[v].run
    ensures var t := Exec(parents, s, events)[v];
      && !t.run && t.steps == s[v].steps
      && |t.processed| <= |s[v].processed| + Budget(s[v]) <= |s[v].processed| + 10
    decreases |events|
  {
    if events != [] {
      var s1 := Next(parents, s, events[0]);
      StoppedStep(parents, s, v, events[0]);
      NextKeepsInv(parents, s, events[0]);
      StopIsFinal(parents, s1, v, events[1..]);
    }
  }

  // ---------------------------------------------------------------- progress

  /** The items that arrived at a node and were not given to `process(item)`, oldest first. */
  function Unprocessed<T>(node: Node<T>): seq<T> {
    Hand(node.worker) + node.queue
  }

  /** A running worker with something to do. */
  predicate HasWork<T>(node: Node<T>) {
    node.run && node.worker != Parked && node.worker != Crashed && Unprocessed(node) != []
  }

  /** How many moves of its own a worker with something to do is at most away from `process(item)`. */
  function Distance<T>(node: Node<T>, size: nat): (d: nat)
    ensures d <= size + 7
  {
    match node.worker
    case InHand(_, _) => 1
    case Popping(_) => 2
    case QuitTest => 3
    case EmptyTest => 4
    case LoopTest => 5
    case Tail => 6
    case Waiting(_) => 6
    case GoingToWait => 7
    case Forwarding(_, next) => 7 + if next < size then size - next else 0
    case _ => 0
  }

  /** The step neither stops the node nor lets its worker fail. */
  predicate Harmless<T>(v: nat, e: Event<T>) {
    e != StopRun(v) && !(e.Work? && e.v == v && e.fails)
  }

  /** An own step of the worker of v that changes anything. */
  ghost predicate Moves<T>(parents: Topology, s: State<T>, v: nat, e: Event<T>)
    requires |s| == |parents| && v < |s|
  {
    e.Work? && e.v == v && Next(parents, s, e)[v] != s[v]
  }

  /** From node to after, the worker either gave the oldest item to `process(item)` or came nearer to
      it by its move; `moved` is 1 for a move and 0 for a step of others. */
  ghost predicate Nears<T>(node: Node<T>, after: Node<T>, size: nat, moved: nat) {
    if after.processed == node.processed then HasWork(after) && Distance(after, size) + moved <= Distance(node, size)
    else Unprocessed(node) != [] && after.processed == node.processed + [Unprocessed(node)[0]]
  }

  lemma AloneNears<T>(node: Node<T>, size: nat, timedOut: bool)
    requires NodeOk(node, size) && HasWork(node)
    ensures var after := WorkAlone(node, timedOut, false);
            Nears(node, after, size, if after != node then 1 else 0)
  {
  }

  lemma WorkNears<T>(parents: Topology, s: State<T>, v: nat, timedOut: bool)
    requires Inv(parents, s) && v < |s| && HasWork(s[v])
    ensures var after := Work1(parents, s, v, timedOut, false)[v];
            Nears(s[v], after, |s|, if after != s[v] then 1 else 0)
  {
    assert NodeOk(s[v], |s|);
    AloneNears(s[v], |s|, timedOut);
    if s[v].worker.Forwarding? && NextChild(parents, v, s[v].worker.next) < |s| {
      var c := NextChild(parents, v, s[v].worker.next);
      assert IsChild(parents, v, c);
    }
  }

  lemma PushedNears<T>(node: Node<T>, size: nat, item: T)
    requires HasWork(node)
    ensures Nears(node, Pushed(node, item), size, 0)
  {
  }

  lemma OtherWorkNears<T>(parents: Topology, s: State<T>, v: nat, u: nat, timedOut: bool, fails: bool)
    requires |s| == |parents| && v < |s| && u < |s| && u != v && HasWork(s[v])
    ensures Nears(s[v], Work1(parents, s, u, timedOut, fails)[v], |s|, 0)
  {
    if s[u].processed != [] { PushedNears(s[v], |s|, s[u].processed[|s[u].processed| - 1]); }
  }

  lemma OthersNear<T>(parents: Topology, s: State<T>, v: nat, e: Event<T>)
    requires Inv(parents, s) && v < |s| && HasWork(s[v])
    requires Harmless(v, e) && !(e.Work? && e.v == v)
    ensures Nears(s[v], Next(parents, s, e)[v], |s|, 0)
  {
    match e
    case Produce(item) => PushedNears(s[v], |s|, item);
    case Work(u, timedOut, fails) => if u < |s| { OtherWorkNears(parents, s, v, u, timedOut, fails); }
    case _ =>
  }

  lemma StepNears<T>(parents: Topology, s: State<T>, v: nat, e: Event<T>)
    requires Inv(parents, s) && v < |s| && HasWork(s[v]) && Harmless(v, e)
    ensures Nears(s[v], Next(parents, s, e)[v], |s|, if Moves(parents, s, v, e) then 1 else 0)
  {
    if e.Work? && e.v == v {
      WorkNears(parents, s, v, e.timedOut);
    } else {
      OthersNear(parents, s, v, e);
    }
  }

  /** The own moves of the worker of v in a run. */
  ghost function MovesIn<T>(parents: Topology, s: State<T>, v: nat, events: seq<Event<T>>): nat
    requires |s| == |parents| > 0 && v < |s|
    decreases |events|
  {
    if events == [] then 0
    else
      (if Moves(parents, s, v, events[0]) then 1 else 0)
      + MovesIn(parents, Next(parents, s, events[0]), v, events[1..])
  }

  /** Nothing is taken back from the two records of a node. */
  ghost predicate Extends<T>(node: Node<T>, after: Node<T>) {
    node.processed <= after.processed && node.history <= after.history
  }

  lemma AloneOnlyAdds<T>(node: Node<T>, timedOut: bool, fails: bool)
    ensures Extends(node, WorkAlone(node, timedOut, fails))
  {
  }

  lemma WorkOnlyAdds<T>(parents: Topology, s: State<T>, v: nat, u: nat, timedOut: bool, fails: bool)
    requires |s| == |parents| && v < |s| && u < |s|
    ensures Extends(s[v], Work1(parents, s, u, timedOut, fails)[v])
  {
    AloneOnlyAdds(s[v], timedOut, fails);
  }

  lemma StepOnlyAdds<T>(parents: Topology, s: State<T>, v: nat, e: Event<T>)
    requires |s| == |parents| > 0 && v < |s|
    ensures Extends(s[v], Next(parents, s, e)[v])
  {
    match e
    case Work(u, timedOut, fails) => if u < |s| { WorkOnlyAdds(parents, s, v, u, timedOut, fails); }
    case _ =>
  }

  lemma {:induction false} RunOnlyAdds<T>(parents: Topology, s: State<T>, v: nat, events: seq<Event<T>>)
    requires |s| == |parents| > 0 && v < |s|
    ensures Extends(s[v], Exec(parents, s, events)[v])
    decreases |events|
  {
    if events != [] {
      StepOnlyAdds(parents, s, v, events[0]);
      RunOnlyAdds(parents, Next(parents, s, events[0]), v, events[1..]);
    }
  }

  /** Progress, in every continuation without stop or failure at v, whatever producers, other workers
      and timeouts do: once the worker of v has made more moves than its distance, the oldest of its
      waiting items has been given to `process(item)`. That includes an item pushed between the test
      for emptiness and the wait, whose notification was lost. */
  lemma {:induction false} WaitingItemIsProcessed<T>(parents: Topology, s: State<T>, v: nat, events: seq<Event<T>>)
    requires Inv(parents, s) && v < |s| && HasWork(s[v])
    requires forall e :: e in events ==> Harmless(v, e)
    requires MovesIn(parents, s, v, events) > Distance(s[v], |s|)
    ensures s[v].processed + [Unprocessed(s[v])[0]] <= Exec(parents, s, events)[v].processed
    decreases |events|
  {
    assert events != [];
    var e, rest, t := events[0], events[1..], Next(parents, s, events[0]);
    assert Harmless(v, e);
    StepNears(parents, s, v, e);
    NextKeepsInv(parents, s, e);
    if t[v].processed == s[v].processed {
      SameOldest(parents, s, v, e);
      WaitingItemIsProcessed(parents, t, v, rest);
    } else {
      RunOnlyAdds(parents, t, v, rest);
    }
  }

  /** As long as nothing is processed, the oldest waiting item stays the same. */
  lemma SameOldest<T>(parents: Topology, s: State<T>, v: nat, e: Event<T>)
    requires Inv(parents, s) && Inv(parents, Next(parents, s, e)) && v < |s| && Unprocessed(s[v]) != []
    requires Next(parents, s, e)[v].processed == s[v].processed
    ensures Unprocessed(Next(parents, s, e)[v]) != []
    ensures Unprocessed(Next(parents, s, e)[v])[0] == Unprocessed(s[v])[0]
  {
    var t := Next(parents, s, e);
    assert NodeOk(s[v], |s|) && NodeOk(t[v], |s|);
    OldestInHistory(s[v], |s|);
    StepOnlyAdds(parents, s, v, e);
    assert t[v].history[|s[v].processed|] == s[v].history[|s[v].processed|];
    OldestInHistory(t[v], |s|);
  }

  lemma OldestInHistory<T>(node: Node<T>, size: nat)
    requires NodeOk(node, size)
    ensures |node.history| > |node.processed| <==> Unprocessed(node) != []
    ensures Unprocessed(node) != [] ==> Unprocessed(node)[0] == node.history[|node.processed|]
  {
    assert node.history == node.processed + Unprocessed(node);
  }

  /** A worker that was created is stuck only while it waits without a signal and has time left, and
      while a pusher holds the lock it needs. */
  lemma StuckIff<T>(parents: Topology, s: State<T>, v: nat, timedOut: bool, fails: bool)
    requires Inv(parents, s) && v < |s| && s[v].worker != Parked
    ensures var worker := s[v].worker;
            !Moves(parents, s, v, Work(v, timedOut, fails)) <==>
              || (worker == Waiting(false) && !timedOut)
              || (worker.Popping? && s[v].pushing)
              || (worker.Forwarding? && NextChild(parents, v, worker.next) < |s|
                  && s[NextChild(parents, v, worker.next)].pushing)
  {
    assert NodeOk(s[v], |s|);
    if s[v].worker.Forwarding? && NextChild(parents, v, s[v].worker.next) < |s| {
      assert IsChild(parents, v, NextChild(parents, v, s[v].worker.next));
    }
  }

  /** The notification of a pusher ends that. */
  lemma NotifyWakes<T>(parents: Topology, s: State<T>, v: nat)
    requires |s| == |parents| && v < |s| && s[v].pushing
    ensures var after := Next(parents, s, Notify(v))[v];
      && !after.pushing && after.processed == s[v].processed && after.queue == s[v].queue
      && after.worker == if s[v].worker.Waiting? then Waiting(true) else s[v].worker
  {
  }

  /** In a step() with something to do: signalled, or past the wait. */
  predicate Busy<T>(node: Node<T>) {
    && node.run && !node.quit
    && (node.worker == Waiting(true) || node.worker.QuitTest? || node.worker.Popping? || node.worker.InHand?)
  }

  lemma BusyStep<T>(parents: Topology, s: State<T>, v: nat, e: Event<T>)
    requires Inv(parents, s) && v < |s| && Busy(s[v]) && Harmless(v, e) && !(e.Work? && e.timedOut)
    ensures var after := Next(parents, s, e)[v];
            after.steps == s[v].steps && (Busy(after) || |after.processed| > |s[v].processed|)
  {
    assert NodeOk(s[v], |s|);
    if e.Work? && e.v == v {
      assert Next(parents, s, e)[v] == WorkAlone(s[v], false, false);
    } else {
      OthersKeepWorker(parents, s, v, e);
    }
  }

  /** A signalled worker gives its item to `process(item)` in the `step()` that it waited in. */
  lemma {:induction false} SignalledInSameStep<T>(parents: Topology, s: State<T>, v: nat, events: seq<Event<T>>)
    requires Inv(parents, s) && v < |s| && Busy(s[v])
    requires forall e :: e in events ==> Harmless(v, e) && !(e.Work? && e.timedOut)
    ensures var t := Exec(parents, s, events)[v];
            |t.processed| > |s[v].processed| || (Busy(t) && t.steps == s[v].steps)
    decreases |events|
  {
    if events != [] {
      var next := Next(parents, s, events[0]);
      assert events[0] in events;
      BusyStep(parents, s, v, events[0]);
      NextKeepsInv(parents, s, events[0]);
      RunOnlyAdds(parents, next, v, events[1..]);
      StepOnlyAdds(parents, s, v, events[0]);
      if Busy(next[v]) { SignalledInSameStep(parents, next, v, events[1..]); }
    }
  }

  /** What others do to a node: they push, signal, stop and start it. */
  ghost predicate Untouched<T>(node: Node<T>, after: Node<T>, started: bool) {
    && after.processed == node.processed && after.steps == node.steps
    && (after.worker == node.worker || (node.worker.Waiting? && after.worker == Waiting(true))
        || (started && node.worker == Parked && after.worker == LoopTest))
  }

  lemma OthersKeepWorker<T>(parents: Topology, s: State<T>, v: nat, e: Event<T>)
    requires Inv(parents, s) && v < |s| && !(e.Work? && e.v == v)
    ensures Untouched(s[v], Next(parents, s, e)[v], e == Start(v))
    ensures e != StopRun(v) ==> Next(parents, s, e)[v].run == s[v].run
    ensures s[v].run ==> Next(parents, s, e)[v].quit == s[v].quit
  {
    if e.Work? && e.v < |s| { OtherWorkKeepsWorker(parents, s, v, e.v, e.timedOut, e.fails); }
  }

  lemma OtherWorkKeepsWorker<T>(parents: Topology, s: State<T>, v: nat, u: nat, timedOut: bool, fails: bool)
    requires |s| == |parents| && v < |s| && u < |s| && u != v
    ensures var after := Work1(parents, s, u, timedOut, fails)[v];
            Untouched(s[v], after, false) && after.run == s[v].run && after.quit == s[v].quit
  {
  }

  // ---------------------------------------------------------------- how a worker ends and begins

  /** A `process` call of v returns in the next own step: after the timeout, with every child served,
      or at the end of the step. */
  ghost predicate CallReturns<T>(parents: Topology, s: State<T>, v: nat, timedOut: bool)
    requires |s| == |parents| && v < |s|
  {
    match s[v].worker
    case Waiting(_) => timedOut
    case Forwarding(_, next) => next <= |s| && NextChild(parents, v, next) == |s|
    case Tail => true
    case _ => false
  }

  /** A worker ends in exactly two ways: it finds `m_run` cleared where it tests it, or a `process`
      call fails. */
  lemma EndsIff<T>(parents: Topology, s: State<T>, v: nat, timedOut: bool, fails: bool)
    requires Inv(parents, s) && v < |s| && s[v].worker != Parked
    ensures Next(parents, s, Work(v, timedOut, fails))[v].worker == Parked <==>
              (s[v].worker == LoopTest && !s[v].run) || (fails && CallReturns(parents, s, v, timedOut))
  {
    assert NodeOk(s[v], |s|);
  }

  lemma {:induction false} ParkedStays<T>(parents: Topology, s: State<T>, v: nat, events: seq<Event<T>>)
    requires Inv(parents, s) && v < |s| && s[v].worker == Parked && Start(v) !in events
    ensures var t := Exec(parents, s, events)[v];
            t.worker == Parked && t.processed == s[v].processed && t.steps == s[v].steps
    decreases |events|
  {
    if events != [] {
      var e := events[0];
      if !(e.Work? && e.v == v) { OthersKeepWorker(parents, s, v, e); }
      NextKeepsInv(parents, s, e);
      ParkedStays(parents, Next(parents, s, e), v, events[1..]);
    }
  }

  /** A call that fails ends the worker: in every continuation without another `start()` it processes
      nothing more. */
  lemma FailureIsFinal<T>(parents: Topology, s: State<T>, v: nat, timedOut: bool, events: seq<Event<T>>)
    requires Inv(parents, s) && v < |s| && CallReturns(parents, s, v, timedOut) && Start(v) !in events
    ensures var t := Exec(parents, Next(parents, s, Work(v, timedOut, true)), events)[v];
            t.worker == Parked && t.processed == s[v].processed && t.steps == s[v].steps
  {
    var e := Work(v, timedOut, true);
    assert NodeOk(s[v], |s|);
    EndsIff(parents, s, v, timedOut, true);
    NextKeepsInv(parents, s, e);
    ParkedStays(parents, Next(parents, s, e), v, events);
  }

  /** `start()` gives a parked node a worker again and leaves a node alone that has one. */
  lemma StartRevives<T>(parents: Topology, s: State<T>, v: nat)
    requires Inv(parents, s) && v < |s|
    ensures var t := Next(parents, s, Start(v));
      && t == s[v := s[v].(worker := t[v].worker)]
      && t[v].worker == if s[v].worker == Parked then LoopTest else s[v].worker
  {
  }

  /** `steps` counts how often the worker found `m_run` set at the head of its loop. */
  lemma StepsAreCounted<T>(parents: Topology, s: State<T>, v: nat, e: Event<T>)
    requires Inv(parents, s) && v < |s|
    ensures var after := Next(parents, s, e)[v];
            after.steps == s[v].steps + if s[v].worker == LoopTest && after.worker == EmptyTest then 1 else 0
  {
    assert NodeOk(s[v], |s|);
    if !(e.Work? && e.v == v) { OthersKeepWorker(parents, s, v, e); }
  }

  lemma {:induction false} RunStays<T>(parents: Topology, s: State<T>, v: nat, events: seq<Event<T>>)
    requires Inv(parents, s) && v < |s| && s[v].run && StopRun(v) !in events
    ensures Exec(parents, s, events)[v].run
    decreases |events|
  {
    if events != [] {
      var e := events[0];
      if !(e.Work? && e.v == v) { OthersKeepWorker(parents, s, v, e); }
      NextKeepsInv(parents, s, e);
      RunStays(parents, Next(parents, s, e), v, events[1..]);
    }
  }

  /** In every run from the start, a node that was never stopped may run, and one that was never
      started has no worker and has processed nothing. */
  lemma UntilStartAndStop<T>(parents: Topology, events: seq<Event<T>>, v: nat)
    requires IsTree(parents) && v < |parents|
    ensures StopRun(v) !in events ==> Run(parents, events)[v].run
    ensures Start(v) !in events ==>
      Run(parents, events)[v].worker == Parked && Run(parents, events)[v].processed == []
  {
    var s: State<T> := Init(parents);
    if StopRun(v) !in events { RunStays(parents, s, v, events); }
    if Start(v) !in events { ParkedStays(parents, s, v, events); }
  }

  /** From node to after, exactly a push takes the lock, only a release frees it, and with the lock
      held nothing is pushed or popped. */
  ghost predicate LockStep<T>(node: Node<T>, after: Node<T>, released: bool) {
    && (after.pushing <==> after.history != node.history || (node.pushing && !released))
    && (node.pushing ==> after.history == node.history && after.queue == node.queue)
  }

  /** In every reachable state a push takes the lock of the node and holds it until it has notified,
      and nobody else pushes or pops meanwhile. */
  lemma LockIsHeld<T>(parents: Topology, s: State<T>, v: nat, e: Event<T>)
    requires Inv(parents, s) && v < |s|
    ensures LockStep(s[v], Next(parents, s, e)[v], e == Notify(v))
  {
    if e.Produce? && !s[0].pushing { PushLocks(s[0], e.item); }
    if e.Work? && e.v < |s| { WorkKeepsLock(parents, s, v, e.v, e.timedOut, e.fails); }
  }

  lemma PushLocks<T>(node: Node<T>, item: T)
    requires !node.pushing
    ensures LockStep(node, Pushed(node, item), false)
  {
    assert |Pushed(node, item).history| == |node.history| + 1;
  }

  lemma AloneKeepsLock<T>(node: Node<T>, timedOut: bool, fails: bool)
    ensures LockStep(node, WorkAlone(node, timedOut, fails), false)
  {
  }

  lemma WorkKeepsLock<T>(parents: Topology, s: State<T>, v: nat, u: nat, timedOut: bool, fails: bool)
    requires IsTree(parents) && |s| == |parents| && v < |s| && u < |s|
    ensures LockStep(s[v], Work1(parents, s, u, timedOut, fails)[v], false)
  {
    AloneKeepsLock(s[v], timedOut, fails);
    if s[u].processed != [] && !s[v].pushing { PushLocks(s[v], s[u].processed[|s[u].processed| - 1]); }
  }

  // ---------------------------------------------------------------- stop() ends the worker

  /** `stop()` clears one flag, sets the other and wakes a worker that waits. */
  lemma StopTakesEffect<T>(parents: Topology, s: State<T>, v: nat)
    requires Inv(parents, s) && v < |s|
    ensures var t := Next(parents, Next(parents, Next(parents, s, StopRun(v)), StopQuit(v)), StopNotify(v));
            t == s[v := s[v].(run := false, quit := true, worker :=
                          if s[v].worker.Waiting? then Waiting(true) else s[v].worker)]
  {
    var t1 := Next(parents, s, StopRun(v));
    assert t1 == s[v := s[v].(run := false)];
    var t2 := Next(parents, t1, StopQuit(v));
    assert t2 == s[v := s[v].(run := false, quit := true)];
  }

  /** How many own moves a stopped worker is at most away from its end. */
  function Remaining<T>(node: Node<T>, size: nat): (d: nat)
    ensures d == 0 ==> node.worker == Parked || node.worker == Crashed
  {
    var each := size + 3;
    match node.worker
    case LoopTest => 1
    case Tail => 2
    case QuitTest => if node.quit then 2 else 3 + Effort(10, each)
    case Waiting(_) => if node.quit then 3 else 4 + Effort(10, each)
    case GoingToWait => if node.quit then 4 else 5 + Effort(10, each)
    case EmptyTest => if node.quit then 5 else 6 + Effort(10, each)
    case Popping(n) => 2 + Effort(if n < 10 then 10 - n else 0, each)
    case InHand(_, n) => 4 + size + Effort(if n < 9 then 9 - n else 0, each)
    case Forwarding(n, next) =>
      3 + (if next < size then size - next else 0) + Effort(if n < 9 then 9 - n else 0, each)
    case _ => 0
  }

  lemma AloneRemaining<T>(node: Node<T>, size: nat, timedOut: bool, fails: bool)
    requires NodeOk(node, size) && !node.run
    ensures var after := WorkAlone(node, timedOut, fails);
            after == node || Remaining(after, size) < Remaining(node, size)
  {
    if node.worker.Popping? {
      var n := node.worker.n;
      assert Effort(10 - n, size + 3) == Effort(10 - n - 1, size + 3) + size + 3;
    }
  }

  lemma WorkRemaining<T>(parents: Topology, s: State<T>, v: nat, timedOut: bool, fails: bool)
    requires Inv(parents, s) && v < |s| && !s[v].run
    ensures var after := Work1(parents, s, v, timedOut, fails)[v];
            after == s[v] || Remaining(after, |s|) < Remaining(s[v], |s|)
  {
    assert NodeOk(s[v], |s|);
    AloneRemaining(s[v], |s|, timedOut, fails);
    if s[v].worker.Forwarding? && NextChild(parents, v, s[v].worker.next) < |s| {
      assert IsChild(parents, v, NextChild(parents, v, s[v].worker.next));
    }
  }

  lemma OthersRemaining<T>(parents: Topology, s: State<T>, v: nat, e: Event<T>)
    requires Inv(parents, s) && v < |s| && !s[v].run && !(e.Work? && e.v == v) && e != Start(v)
    ensures Remaining(Next(parents, s, e)[v], |s|) <= Remaining(s[v], |s|)
  {
    OthersKeepWorker(parents, s, v, e);
    QuitStays(parents, s, v, e);
  }

  lemma QuitStays<T>(parents: Topology, s: State<T>, v: nat, e: Event<T>)
    requires |s| == |parents| > 0 && v < |s|
    ensures s[v].quit ==> Next(parents, s, e)[v].quit
  {
  }

  /** A stopped worker ends: in every continuation without another `start()` it has ended once it has
      made as many own moves as remain to it, whatever calls fail and whatever others do. */
  lemma {:induction false} StoppedWorkerEnds<T>(parents: Topology, s: State<T>, v: nat, events: seq<Event<T>>)
    requires Inv(parents, s) && v < |s| && !s[v].run && Start(v) !in events
    ensures MovesIn(parents, s, v, events) + Remaining(Exec(parents, s, events)[v], |s|) <= Remaining(s[v], |s|)
    ensures MovesIn(parents, s, v, events) >= Remaining(s[v], |s|) ==> Exec(parents, s, events)[v].worker == Parked
    decreases |events|
  {
    assert NodeOk(s[v], |s|);
    if events != [] {
      var e := events[0];
      NextKeepsInv(parents, s, e);
      StoppedStep(parents, s, v, e);
      if e.Work? && e.v == v {
        WorkRemaining(parents, s, v, e.timedOut, e.fails);
      } else {
        OthersRemaining(parents, s, v, e);
      }
      StoppedWorkerEnds(parents, Next(parents, s, e), v, events[1..]);
    }
  }

  // ---------------------------------------------------------------- what arrives at the root

  /** The items whose producers found the lock of the root free. */
  function Offered<T>(parents: Topology, s: State<T>, events: seq<Event<T>>): seq<T>
    requires |s| == |parents| > 0
    decreases |events|
  {
    if events == [] then []
    else
      (if events[0].Produce? && !s[0].pushing then [events[0].item] else [])
      + Offered(parents, Next(parents, s, events[0]), events[1..])
  }

  lemma RootStep<T>(parents: Topology, s: State<T>, e: Event<T>)
    requires |s| == |parents| > 0
    ensures Next(parents, s, e)[0].history ==
            s[0].history + if e.Produce? && !s[0].pushing then [e.item] else []
  {
    match e
    case Work(v, timedOut, fails) => if v < |s| { WorkKeepsRoot(parents, s, v, timedOut, fails); }
    case _ =>
  }

  lemma WorkKeepsRoot<T>(parents: Topology, s: State<T>, v: nat, timedOut: bool, fails: bool)
    requires |s| == |parents| && v < |s|
    ensures Work1(parents, s, v, timedOut, fails)[0].history == s[0].history
  {
    var node := s[v];
    AloneKeepsHistory(node, timedOut, fails);
    if node.worker.Forwarding? && node.worker.next <= |s| && NextChild(parents, v, node.worker.next) < |s| {
      assert IsChild(parents, v, NextChild(parents, v, node.worker.next));
    } else {
      assert Work1(parents, s, v, timedOut, fails) == s[v := WorkAlone(node, timedOut, fails)];
    }
  }

  lemma AloneKeepsHistory<T>(node: Node<T>, timedOut: bool, fails: bool)
    ensures WorkAlone(node, timedOut, fails).history == node.history
  {
  }

  /** The history of the root is what its producers offered, in the order of the lock; the events
      themselves say what that is. */
  lemma {:induction false} RootHistory<T>(parents: Topology, s: State<T>, events: seq<Event<T>>)
    requires |s| == |parents| > 0
    ensures Exec(parents, s, events)[0].history == s[0].history + Offered(parents, s, events)
    decreases |events|
  {
    if events != [] {
      var next := Next(parents, s, events[0]);
      var first := if events[0].Produce? && !s[0].pushing then [events[0].item] else [];
      RootStep(parents, s, events[0]);
      RootHistory(parents, next, events[1..]);
      Associate(s[0].history, first, Offered(parents, next, events[1..]));
    }
  }

  // ---------------------------------------------------------------- delivery from end to end

  /** The worker of the node goes on. */
  predicate Alive<T>(node: Node<T>) {
    node.run && node.worker != Parked
  }

  /** k items at so many moves each. */
  function Effort(k: nat, each: nat): nat {
    if k == 0 then 0 else Effort(k - 1, each) + each
  }

  lemma {:induction false} EffortGrows(k: nat, h: nat, each: nat)
    requires k <= h
    ensures Effort(k, each) <= Effort(h, each)
    decreases h
  {
    if k < h { EffortGrows(k, h - 1, each); }
  }

  /** How many moves the worker is at most away from having processed h items and given them to its
      child c, when that many have arrived. */
  function Debt<T>(node: Node<T>, size: nat, c: nat, h: nat): nat {
    if |node.processed| < h then Effort(h - |node.processed| - 1, size + 8) + Distance(node, size) + size + 2
    else if |node.processed| == h && Owes(node, c) then
      1 + if node.worker.next < size then size - node.worker.next else 0
    else 0
  }

  /** A number of moves that covers every debt. */
  function Enough(size: nat, h: nat): nat {
    Effort(h, size + 8) + size + 2
  }

  lemma DebtIsBounded<T>(node: Node<T>, size: nat, c: nat, h: nat)
    ensures Debt(node, size, c, h) <= Enough(size, h)
  {
    if |node.processed| < h {
      var k := h - |node.processed|;
      assert Effort(k, size + 8) == Effort(k - 1, size + 8) + size + 8;
      EffortGrows(k, h, size + 8);
    }
  }

  /** One step of the debt: a move pays, and nothing adds to it. */
  ghost predicate Pays<T>(node: Node<T>, after: Node<T>, size: nat, c: nat, h: nat, moved: nat) {
    var (owed, left) := (Debt(node, size, c, h), Debt(after, size, c, h));
    left <= owed && (owed > 0 ==> left + moved <= owed)
  }

  lemma NearingPays<T>(node: Node<T>, after: Node<T>, size: nat, c: nat, h: nat, moved: nat)
    requires |node.processed| < h && NodeOk(node, size) && Distance(node, size) > 0 && moved <= 1
    requires Nears(node, after, size, moved)
    ensures Pays(node, after, size, c, h, moved)
  {
    if after.processed != node.processed && h > |after.processed| {
      var k := h - |node.processed| - 1;
      assert Effort(k, size + 8) == Effort(k - 1, size + 8) + size + 8;
    }
  }

  lemma AlonePays<T>(node: Node<T>, size: nat, timedOut: bool, c: nat, h: nat)
    requires NodeOk(node, size) && |node.processed| >= h
    ensures Pays(node, WorkAlone(node, timedOut, false), size, c, h, if node.worker.Forwarding? then 1 else 0)
  {
  }

  /** What the worker owes when it has processed everything is paid by serving its children. */
  lemma WorkPays<T>(parents: Topology, s: State<T>, v: nat, timedOut: bool, c: nat, h: nat)
    requires Inv(parents, s) && v < |s| && |s[v].processed| >= h
    ensures var after := Work1(parents, s, v, timedOut, false)[v];
            Pays(s[v], after, |s|, c, h, if after != s[v] then 1 else 0)
  {
    assert NodeOk(s[v], |s|);
    AlonePays(s[v], |s|, timedOut, c, h);
    if s[v].worker.Forwarding? && NextChild(parents, v, s[v].worker.next) < |s| {
      assert IsChild(parents, v, NextChild(parents, v, s[v].worker.next));
    }
  }

  /** Steps of others change neither what a node processed nor what it owes. */
  ghost predicate SameDebt<T>(node: Node<T>, after: Node<T>) {
    && after.processed == node.processed
    && (after.worker == node.worker || (node.worker.Waiting? && after.worker.Waiting?))
  }

  lemma OthersKeepDebt<T>(parents: Topology, s: State<T>, v: nat, e: Event<T>)
    requires Inv(parents, s) && v < |s| && !(e.Work? && e.v == v) && Alive(s[v])
    ensures SameDebt(s[v], Next(parents, s, e)[v])
  {
    if e.Work? && e.v < |s| { OtherWorkKeepsDebt(parents, s, v, e.v, e.timedOut, e.fails); }
  }

  lemma OtherWorkKeepsDebt<T>(parents: Topology, s: State<T>, v: nat, u: nat, timedOut: bool, fails: bool)
    requires |s| == |parents| && v < |s| && u < |s| && u != v
    ensures SameDebt(s[v], Work1(parents, s, u, timedOut, fails)[v])
  {
  }

  lemma StepPays<T>(parents: Topology, s: State<T>, v: nat, e: Event<T>, c: nat, h: nat)
    requires Inv(parents, s) && v < |s| && Alive(s[v]) && |s[v].history| >= h && Harmless(v, e)
    ensures Pays(s[v], Next(parents, s, e)[v], |s|, c, h, if Moves(parents, s, v, e) then 1 else 0)
  {
    assert NodeOk(s[v], |s|);
    OldestInHistory(s[v], |s|);
    if |s[v].processed| < h {
      StepNears(parents, s, v, e);
      NearingPays(s[v], Next(parents, s, e)[v], |s|, c, h, if Moves(parents, s, v, e) then 1 else 0);
    } else if e.Work? && e.v == v {
      WorkPays(parents, s, v, e.timedOut, c, h);
    } else {
      OthersKeepDebt(parents, s, v, e);
    }
  }

  lemma AloneStaysAlive<T>(node: Node<T>, size: nat, timedOut: bool)
    requires NodeOk(node, size) && Alive(node)
    ensures Alive(WorkAlone(node, timedOut, false))
  {
  }

  lemma StaysAlive<T>(parents: Topology, s: State<T>, v: nat, e: Event<T>)
    requires Inv(parents, s) && v < |s| && Alive(s[v]) && Harmless(v, e)
    ensures Alive(Next(parents, s, e)[v])
  {
    assert NodeOk(s[v], |s|);
    if e.Work? && e.v == v {
      AloneStaysAlive(s[v], |s|, e.timedOut);
    } else {
      OthersKeepDebt(parents, s, v, e);
    }
  }

  /** In a run without stop or failure at v the debt never grows, and every move pays until nothing is
      owed. */
  lemma {:induction false} DebtIsPaid<T>(parents: Topology, s: State<T>, v: nat, events: seq<Event<T>>, c: nat, h: nat)
    requires Inv(parents, s) && v < |s| && Alive(s[v]) && |s[v].history| >= h
    requires forall e :: e in events ==> Harmless(v, e)
    ensures Alive(Exec(parents, s, events)[v])
    ensures Debt(Exec(parents, s, events)[v], |s|, c, h) <= Debt(s[v], |s|, c, h)
    ensures Debt(Exec(parents, s, events)[v], |s|, c, h) == 0 ||
            MovesIn(parents, s, v, events) + Debt(Exec(parents, s, events)[v], |s|, c, h) <= Debt(s[v], |s|, c, h)
    decreases |events|
  {
    if events != [] {
      assert Harmless(v, events[0]);
      StepPays(parents, s, v, events[0], c, h);
      StaysAlive(parents, s, v, events[0]);
      StepOnlyAdds(parents, s, v, events[0]);
      NextKeepsInv(parents, s, events[0]);
      DebtIsPaid(parents, Next(parents, s, events[0]), v, events[1..], c, h);
    }
  }

  /** A node that owes nothing has given h items to its child. */
  lemma PaidMeansGiven<T>(parents: Topology, s: State<T>, c: nat, h: nat)
    requires Inv(parents, s) && 0 < c < |s| && |s[parents[c]].history| >= h
    requires Debt(s[parents[c]], |s|, c, h) == 0
    ensures |s[c].history| >= h
  {
    assert Linked(parents, s, c) && NodeOk(s[parents[c]], |s|);
  }

  lemma {:induction false} ExecConcat<T>(parents: Topology, s: State<T>, a: seq<Event<T>>, b: seq<Event<T>>)
    requires |s| == |parents| > 0
    ensures Exec(parents, s, a + b) == Exec(parents, Exec(parents, s, a), b)
    decreases |a|
  {
    if a == [] {
      assert a + b == b;
    } else {
      assert (a + b)[1..] == a[1..] + b;
      ExecConcat(parents, Next(parents, s, a[0]), a[1..], b);
    }
  }

  /** Stretches of a run, the last one last. */
  datatype Stretches<T> = Nothing | After(before: Stretches<T>, events: seq<Event<T>>)

  function Joined<T>(run: Stretches<T>): seq<Event<T>> {
    if run == Nothing then [] else Joined(run.before) + run.events
  }

  /** One stretch for each node on the way from the root to v, in which its worker makes enough moves. */
  ghost predicate TurnByTurn<T>(parents: Topology, s: State<T>, v: nat, run: Stretches<T>, h: nat)
    requires IsTree(parents) && |s| == |parents| && v < |s|
  {
    && run.After?
    && MovesIn(parents, Exec(parents, s, Joined(run.before)), v, run.events) >= Enough(|s|, h)
    && (v > 0 ==> TurnByTurn(parents, s, parents[v], run.before, h))
  }

  /** The stretch of v itself: of h items that arrived at it before ... */
  ghost predicate Stretch<T>(parents: Topology, t: State<T>, v: nat, events: seq<Event<T>>, h: nat) {
    && Inv(parents, t) && v < |t| && Alive(t[v]) && |t[v].history| >= h
    && (forall e :: e in events ==> Harmless(v, e))
    && MovesIn(parents, t, v, events) >= Enough(|t|, h)
  }

  /** ... all are processed after it ... */
  lemma StretchProcesses<T>(parents: Topology, t: State<T>, v: nat, events: seq<Event<T>>, h: nat)
    requires Stretch(parents, t, v, events, h)
    ensures |Exec(parents, t, events)[v].processed| >= h
  {
    DebtIsBounded(t[v], |t|, 0, h);
    DebtIsPaid(parents, t, v, events, 0, h);
  }

  /** ... and handed on to each child. */
  lemma StretchGives<T>(parents: Topology, t: State<T>, v: nat, events: seq<Event<T>>, h: nat, c: nat)
    requires Stretch(parents, t, v, events, h) && IsChild(parents, v, c)
    ensures |Exec(parents, t, events)[c].history| >= h
  {
    ExecKeepsInv(parents, t, events);
    RunOnlyAdds(parents, t, v, events);
    DebtIsBounded(t[v], |t|, c, h);
    DebtIsPaid(parents, t, v, events, c, h);
    PaidMeansGiven(parents, Exec(parents, t, events), c, h);
  }

  /** All workers on the way from the root to v go on, at first and through the events. */
  ghost predicate OpenPath<T>(parents: Topology, s: State<T>, v: nat, events: seq<Event<T>>)
    requires IsTree(parents) && |s| == |parents| && v < |s|
  {
    && Alive(s[v])
    && (forall e :: e in events ==> Harmless(v, e))
    && (v > 0 ==> OpenPath(parents, s, parents[v], events))
  }

  lemma {:induction false} OpenPathOfPart<T>(parents: Topology, s: State<T>, v: nat, a: seq<Event<T>>, b: seq<Event<T>>)
    requires IsTree(parents) && |s| == |parents| && v < |s| && OpenPath(parents, s, v, a + b)
    ensures OpenPath(parents, s, v, a) && forall e :: e in b ==> Harmless(v, e)
    decreases v
  {
    assert forall e :: e in a || e in b ==> e in a + b;
    if v > 0 { OpenPathOfPart(parents, s, parents[v], a, b); }
  }

  /** Before the stretch of v, h items have arrived at it. */
  lemma {:induction false} StretchBegins<T>(parents: Topology, s: State<T>, v: nat, run: Stretches<T>, h: nat)
    requires Inv(parents, s) && v < |s| && TurnByTurn(parents, s, v, run, h) && |s[0].history| >= h
    requires OpenPath(parents, s, v, Joined(run))
    ensures Stretch(parents, Exec(parents, s, Joined(run.before)), v, run.events, h)
    decreases v
  {
    var past := Joined(run.before);
    OpenPathOfPart(parents, s, v, past, run.events);
    ExecKeepsInv(parents, s, past);
    DebtIsPaid(parents, s, v, past, 0, 0);
    if v == 0 {
      RunOnlyAdds(parents, s, 0, past);
    } else {
      var p, before := parents[v], run.before;
      StretchBegins(parents, s, p, before, h);
      ExecConcat(parents, s, Joined(before.before), before.events);
      StretchGives(parents, Exec(parents, s, Joined(before.before)), p, before.events, h, v);
    }
  }

  lemma ProcessedIsPrefix<T>(parents: Topology, t: State<T>, v: nat)
    requires Inv(parents, t) && v < |t|
    ensures t[v].processed <= t[0].history
  {
    RootIsNodePlusTransit(parents, t, v);
    assert NodeOk(t[v], |t|);
    Regroup(t[v].processed, Hand(t[v].worker), t[v].queue, Transit(parents, t, v));
  }

  lemma ShorterPrefix<T>(a: seq<T>, b: seq<T>, all: seq<T>)
    requires a <= all && b <= all && |a| <= |b|
    ensures a <= b
  {
  }

  /** Delivery from end to end: without stop or failure on the way from the root to v, after a run in
      which the workers on that way make enough moves one after the other, v has processed all that
      was pushed at the root before, in order, whatever else happens in between. */
  lemma DeliveredEndToEnd<T>(parents: Topology, s: State<T>, v: nat, run: Stretches<T>)
    requires Inv(parents, s) && v < |s| && TurnByTurn(parents, s, v, run, |s[0].history|)
    requires OpenPath(parents, s, v, Joined(run))
    ensures s[0].history <= Exec(parents, s, Joined(run))[v].processed
  {
    var past, h := Joined(run.before), |s[0].history|;
    StretchBegins(parents, s, v, run, h);
    StretchProcesses(parents, Exec(parents, s, past), v, run.events, h);
    ExecConcat(parents, s, past, run.events);
    ExecKeepsInv(parents, s, Joined(run));
    RunOnlyAdds(parents, s, 0, Joined(run));
    ProcessedIsPrefix(parents, Exec(parents, s, Joined(run)), v);
    ShorterPrefix(s[0].history, Exec(parents, s, Joined(run))[v].processed, Exec(parents, s, Joined(run))[0].history);
  }
}

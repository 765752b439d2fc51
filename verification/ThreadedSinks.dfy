/** The sinks as objects: a queue changed in place, the loop of one `step()`, and the fan-out of a
    collection. What one step does is a composition of the micro-steps of the interleaved machine,
    with items arriving on the way. */
module ThreadedSinks {
  import opened Sinks

  /** While one item is processed: what arrives, and what `process(item)` returns. */
  datatype Turn<T> = Turn(arrived: seq<T>, result: int)

  /** What happens around one `step()`: items that come just before the wait and during it, a stop
      during it, whether it runs into the timeout, the turns of the loop, and what `process()`
      returns. */
  datatype Surroundings<T> = Surroundings(
    before: seq<T>, during: seq<T>, stopped: bool, late: bool, turns: seq<Turn<T>>, tail: int)

  /** `internal_get` once for each item. */
  function Arrive<T>(node: Node<T>, items: seq<T>): Node<T>
    decreases |items|
  {
    if items == [] then node
    else Arrive(Signal(Pushed(node, items[0]).(pushing := false)), items[1..])
  }

  function StopNode<T>(node: Node<T>): Node<T> {
    Signal(node.(run := false, quit := true))
  }

  /** The worker after the wait. It can only return without timeout once it was signalled. */
  function AfterWait<T>(node: Node<T>, env: Surroundings<T>): Node<T> {
    var waiting := Arrive(WorkAlone(Arrive(node, env.before), false, false), env.during);
    var woken := if env.stopped then StopNode(waiting) else waiting;
    WorkAlone(woken, env.late || woken.worker == Waiting(false), env.tail != 0)
  }

  /** What happens in turn n; after the given turns nothing arrives and nothing fails. */
  function TurnOf<T>(turns: seq<Turn<T>>, n: nat): Turn<T> {
    if n < |turns| then turns[n] else Turn([], 0)
  }

  /** One turn of the loop, for the item that is popped as number n of this step. */
  function OneTurn<T>(node: Node<T>, turn: Turn<T>): Node<T> {
    var held := Arrive(WorkAlone(node, false, false), turn.arrived);
    WorkAlone(WorkAlone(held, false, false), false, turn.result != 0)
  }

  function Drain<T>(node: Node<T>, turns: seq<Turn<T>>, n: nat): Node<T>
    decreases BATCH - n
  {
    var after := OneTurn(node, TurnOf(turns, n));
    if after.worker == Popping(n + 1) && n < BATCH then Drain(after, turns, n + 1) else after
  }

  /** `step` up to its loop, as a composition of micro-steps. */
  function Begin<T>(node: Node<T>, env: Surroundings<T>): Node<T> {
    var tested := WorkAlone(node, false, false);
    var ready := if tested.worker == GoingToWait then AfterWait(tested, env) else tested;
    if ready.worker == QuitTest then WorkAlone(ready, false, false) else ready
  }

  /** The whole of `step`. */
  function StepOf<T>(node: Node<T>, env: Surroundings<T>): Node<T> {
    var begun := Begin(node, env);
    if begun.worker != Popping(0) then begun
    else
      var drained := Drain(begun, env.turns, 0);
      if drained.worker == Tail then WorkAlone(drained, false, env.tail != 0) else drained
  }

  lemma {:induction false} ArriveOk<T>(node: Node<T>, items: seq<T>)
    requires NodeOk(node, 0) && !node.pushing
    ensures var after := Arrive(node, items);
            && NodeOk(after, 0) && !after.pushing
            && after.queue == node.queue + items && after.processed == node.processed
            && after.run == node.run && after.quit == node.quit && after.steps == node.steps
            && after.worker == if node.worker.Waiting? && items != [] then Waiting(true) else node.worker
    decreases |items|
  {
    if items != [] {
      PushedOk(node, 0, items[0]);
      ArriveOk(Signal(Pushed(node, items[0]).(pushing := false)), items[1..]);
    }
  }

  /** One turn processes exactly the item at the front. */
  lemma TurnMeaning<T>(node: Node<T>, turn: Turn<T>, n: nat)
    requires NodeOk(node, 0) && !node.pushing && node.worker == Popping(n)
    ensures var after := OneTurn(node, turn);
            && NodeOk(after, 0) && !after.pushing
            && after.processed == node.processed + [node.queue[0]]
            && after.queue == node.queue[1..] + turn.arrived
            && after.run == node.run && after.quit == node.quit
            && after.worker == if turn.result != 0 then Parked
                               else if after.queue != [] && n + 1 < BATCH then Popping(n + 1) else Tail
  {
    var popped := WorkAlone(node, false, false);
    WorkAloneOk(node, 0, false, false);
    ArriveOk(popped, turn.arrived);
    var held := Arrive(popped, turn.arrived);
    WorkAloneOk(held, 0, false, false);
    WorkAloneOk(WorkAlone(held, false, false), 0, false, turn.result != 0);
  }

  lemma {:induction false} DrainOk<T>(node: Node<T>, turns: seq<Turn<T>>, n: nat)
    requires NodeOk(node, 0) && !node.pushing && node.worker == Popping(n)
    ensures NodeOk(Drain(node, turns, n), 0) && !Drain(node, turns, n).pushing
    ensures node.processed <= Drain(node, turns, n).processed
    decreases BATCH - n
  {
    var after := OneTurn(node, TurnOf(turns, n));
    TurnMeaning(node, TurnOf(turns, n), n);
    if after.worker == Popping(n + 1) {
      DrainOk(after, turns, n + 1);
      assert Drain(node, turns, n) == Drain(after, turns, n + 1);
    }
  }

  /** No turn from n on and before `last` fails. */
  predicate NoneFails<T>(turns: seq<Turn<T>>, n: nat, last: nat)
    decreases last - n
  {
    n >= last || (TurnOf(turns, n).result == 0 && NoneFails(turns, n + 1, last))
  }

  lemma {:induction false} NoneFailsAt<T>(turns: seq<Turn<T>>, n: nat, last: nat, i: nat)
    requires NoneFails(turns, n, last) && n <= i < last
    ensures TurnOf(turns, i).result == 0
    decreases last - n
  {
    if n < i { NoneFailsAt(turns, n + 1, last, i); }
  }

  /** From node to after, by the turns n up to `last`: each but the last one succeeded, each took one
      item, and the last one failed, or left the queue empty, or was the tenth. */
  ghost predicate Drained<T>(node: Node<T>, after: Node<T>, turns: seq<Turn<T>>, n: nat, last: nat) {
    && n <= last < 10 && |after.processed| == |node.processed| + last - n + 1
    && NoneFails(turns, n, last)
    && after.worker == (if TurnOf(turns, last).result != 0 then Parked else Tail)
    && (TurnOf(turns, last).result == 0 ==> after.queue == [] || last + 1 == 10)
  }

  lemma DrainedOnce<T>(node: Node<T>, after: Node<T>, turns: seq<Turn<T>>, n: nat)
    requires n < BATCH && |after.processed| == |node.processed| + 1
    requires after.worker == if TurnOf(turns, n).result != 0 then Parked else Tail
    requires TurnOf(turns, n).result == 0 ==> after.queue == [] || n + 1 == BATCH
    ensures Drained(node, after, turns, n, n)
  {
  }

  lemma DrainedMore<T>(node: Node<T>, between: Node<T>, after: Node<T>, turns: seq<Turn<T>>, n: nat, last: nat)
    requires |between.processed| == |node.processed| + 1 && TurnOf(turns, n).result == 0
    requires Drained(between, after, turns, n + 1, last)
    ensures Drained(node, after, turns, n, last)
  {
  }

  lemma DrainStep<T>(node: Node<T>, turns: seq<Turn<T>>, n: nat) returns (after: Node<T>)
    requires NodeOk(node, 0) && !node.pushing && node.worker == Popping(n)
    ensures NodeOk(after, 0) && !after.pushing && |after.processed| == |node.processed| + 1
    ensures n < BATCH && after.worker == if TurnOf(turns, n).result != 0 then Parked
                         else if after.queue != [] && n + 1 < BATCH then Popping(n + 1) else Tail
    ensures Drain(node, turns, n) ==
            if after.worker == Popping(n + 1) then Drain(after, turns, n + 1) else after
  {
    after := OneTurn(node, TurnOf(turns, n));
    TurnMeaning(node, TurnOf(turns, n), n);
  }

  /** The loop goes on until a call fails, the queue is seen empty, or ten items are done. */
  lemma {:induction false} DrainMeaning<T>(node: Node<T>, turns: seq<Turn<T>>, n: nat) returns (last: nat)
    requires NodeOk(node, 0) && !node.pushing && node.worker == Popping(n)
    ensures Drained(node, Drain(node, turns, n), turns, n, last)
    decreases BATCH - n
  {
    var after := DrainStep(node, turns, n);
    if after.worker == Popping(n + 1) {
      last := DrainMeaning(after, turns, n + 1);
      DrainedMore(node, after, Drain(after, turns, n + 1), turns, n, last);
    } else {
      last := n;
      DrainedOnce(node, after, turns, n);
    }
  }

  lemma WaitMeaning<T>(node: Node<T>, env: Surroundings<T>)
    requires NodeOk(node, 0) && !node.pushing && node.worker == GoingToWait
    ensures var after := AfterWait(node, env);
            && NodeOk(after, 0) && !after.pushing
            && after.processed == node.processed && after.queue == node.queue + env.before + env.during
            && after.worker == if env.late || (env.during == [] && !env.stopped)
                               then (if env.tail != 0 then Parked else LoopTest) else QuitTest
  {
    ArriveOk(node, env.before);
    var about := Arrive(node, env.before);
    WorkAloneOk(about, 0, false, false);
    var waiting := WorkAlone(about, false, false);
    ArriveOk(waiting, env.during);
    var signalled := Arrive(waiting, env.during);
    var woken := if env.stopped then StopNode(signalled) else signalled;
    assert NodeOk(woken, 0);
    WorkAloneOk(woken, 0, env.late || woken.worker == Waiting(false), env.tail != 0);
    assert node.queue + env.before + env.during == (node.queue + env.before) + env.during;
  }

  /** When one `step()` does not come to its loop: the wait timed out, or `m_quit` is set. */
  predicate StaysOut<T>(node: Node<T>, env: Surroundings<T>) {
    || node.quit
    || (node.queue == [] && (env.late || env.stopped || env.during == []))
  }

  /** When the wait of one `step()` times out. */
  predicate TimesOut<T>(node: Node<T>, env: Surroundings<T>) {
    node.queue == [] && (env.late || (env.during == [] && !env.stopped))
  }

  /** What one `step()` from node to after returns: after a timeout what `process()` returns, zero
      when `m_quit` is set, the value of the `process(item)` that failed, and what `process()` returns
      when none did. */
  ghost predicate StepReturns<T>(node: Node<T>, after: Node<T>, env: Surroundings<T>, result: int) {
    if TimesOut(node, env) then result == env.tail
    else if StaysOut(node, env) then result == 0
    else
      exists last: nat :: && last < 10 && NoneFails(env.turns, 0, last)
                          && |after.processed| == |node.processed| + last + 1
                          && result == if TurnOf(env.turns, last).result != 0
                                       then TurnOf(env.turns, last).result else env.tail
  }

  lemma BeginMeaning<T>(node: Node<T>, env: Surroundings<T>)
    requires NodeOk(node, 0) && !node.pushing && node.worker == EmptyTest
    ensures var begun := Begin(node, env);
            && NodeOk(begun, 0) && !begun.pushing && begun.processed == node.processed
            && (StaysOut(node, env) ==>
                  begun.worker == if TimesOut(node, env) && env.tail != 0 then Parked else LoopTest)
            && (!StaysOut(node, env) ==> begun.worker == Popping(0))
  {
    var ready := WorkAlone(node, false, false);
    WorkAloneOk(node, 0, false, false);
    if ready.worker == GoingToWait {
      WaitMeaning(ready, env);
      WaitKeepsQuit(ready, env);
      ready := AfterWait(ready, env);
    }
    WorkAloneOk(ready, 0, false, false);
  }

  /** One `step()` loses nothing and keeps the order: the history stays the processed items followed
      by the queue. */
  lemma StepOk<T>(node: Node<T>, env: Surroundings<T>)
    requires NodeOk(node, 0) && !node.pushing && node.worker == EmptyTest
    ensures NodeOk(StepOf(node, env), 0) && node.processed <= StepOf(node, env).processed
    ensures StepOf(node, env).worker == LoopTest || StepOf(node, env).worker == Parked
  {
    var begun := Begin(node, env);
    BeginMeaning(node, env);
    if !StaysOut(node, env) {
      var drained := Drain(begun, env.turns, 0);
      var last := DrainMeaning(begun, env.turns, 0);
      DrainOk(begun, env.turns, 0);
      WorkAloneOk(drained, 0, false, env.tail != 0);
    }
  }

  /** It processes none exactly when it stays out of its loop, otherwise at most ten; when it
      processes fewer without a failure, the queue was seen empty. */
  lemma StepMeaning<T>(node: Node<T>, env: Surroundings<T>)
    requires NodeOk(node, 0) && !node.pushing && node.worker == EmptyTest
    ensures StaysOut(node, env) ==> |StepOf(node, env).processed| == |node.processed|
    ensures !StaysOut(node, env) ==>
      exists last: nat :: && last < 10
                          && |StepOf(node, env).processed| == |node.processed| + last + 1
                          && (forall i :: 0 <= i < last ==> TurnOf(env.turns, i).result == 0)
                          && (TurnOf(env.turns, last).result == 0 ==> StepOf(node, env).queue == [] || last + 1 == 10)
  {
    var begun := Begin(node, env);
    BeginMeaning(node, env);
    if !StaysOut(node, env) {
      var last := DrainMeaning(begun, env.turns, 0);
      forall i | 0 <= i < last ensures TurnOf(env.turns, i).result == 0 { NoneFailsAt(env.turns, 0, last, i); }
    }
  }

  /** The worker goes back to the head of its loop exactly when what the step returns is zero. */
  lemma StepEnds<T>(node: Node<T>, env: Surroundings<T>)
    requires NodeOk(node, 0) && !node.pushing && node.worker == EmptyTest
    ensures exists result: int ::
              && StepReturns(node, StepOf(node, env), env, result)
              && StepOf(node, env).worker == if result != 0 then Parked else LoopTest
  {
    var after := StepOf(node, env);
    var begun := Begin(node, env);
    var result := if TimesOut(node, env) then env.tail else 0;
    BeginMeaning(node, env);
    if !StaysOut(node, env) {
      var last := DrainMeaning(begun, env.turns, 0);
      result := if TurnOf(env.turns, last).result != 0 then TurnOf(env.turns, last).result else env.tail;
      assert NoneFails(env.turns, 0, last) && |after.processed| == |node.processed| + last + 1;
    }
    assert StepReturns(node, after, env, result);
  }

  lemma WaitKeepsQuit<T>(node: Node<T>, env: Surroundings<T>)
    requires NodeOk(node, 0) && !node.pushing && node.worker == GoingToWait
    ensures AfterWait(node, env).quit == (node.quit || env.stopped)
  {
    ArriveOk(node, env.before);
    var about := Arrive(node, env.before);
    WorkAloneOk(about, 0, false, false);
    ArriveOk(WorkAlone(about, false, false), env.during);
  }

  lemma {:induction false} NoneFailsMore<T>(turns: seq<Turn<T>>, n: nat, last: nat)
    requires NoneFails(turns, n, last) && TurnOf(turns, last).result == 0
    ensures NoneFails(turns, n, last + 1)
    decreases last - n
  {
    if n < last { NoneFailsMore(turns, n + 1, last); }
  }

  /** There is only one first failure. */
  lemma FirstFailure<T>(turns: seq<Turn<T>>, a: nat, b: nat)
    requires NoneFails(turns, 0, a) && TurnOf(turns, a).result != 0
    requires NoneFails(turns, 0, b) && TurnOf(turns, b).result != 0
    ensures a == b
  {
    FailureEnds(turns, a, b);
    FailureEnds(turns, b, a);
  }

  lemma FailureEnds<T>(turns: seq<Turn<T>>, a: nat, b: nat)
    requires NoneFails(turns, 0, b) && TurnOf(turns, a).result != 0
    ensures b <= a
  {
    if a < b { NoneFailsAt(turns, 0, b, a); }
  }

  class ThreadedSink<T> {
    var items: seq<T>
    var run: bool
    var quit: bool
    /** All items pushed, all items given to `process(item)`, where the worker is, and its steps. */
    ghost var history: seq<T>
    ghost var processed: seq<T>
    ghost var worker: Worker<T>
    ghost var steps: nat

    ghost function Now(): Node<T>
      reads this
    {
      Node(history, items, processed, false, run, quit, worker, steps)
    }

    ghost predicate Valid()
      reads this
    {
      NodeOk(Now(), 0)
    }

    constructor ()
      ensures Valid() && Now() == Fresh()
    {
      items, run, quit := [], true, false;
      history, processed, worker, steps := [], [], Parked, 0;
    }

    method InternalGet(item: T)
      requires Valid()
      modifies this`items, this`history, this`worker
      ensures Valid() && Now() == Signal(Pushed(old(Now()), item).(pushing := false))
    {
      PushedOk(Now(), 0, item);
      items := items + [item];
      history := history + [item];
      worker := if worker.Waiting? then Waiting(true) else worker;
    }

    /** Several producers, one after the other. */
    method Receive(arrived: seq<T>)
      requires Valid()
      modifies this`items, this`history, this`worker
      ensures Valid() && Now() == Arrive(old(Now()), arrived)
    {
      for k := 0 to |arrived|
        invariant Valid() && Arrive(Now(), arrived[k..]) == Arrive(old(Now()), arrived)
      {
        assert arrived[k..][1..] == arrived[k + 1..];
        InternalGet(arrived[k]);
      }
    }

    method Stop()
      modifies this`run, this`quit, this`worker
      ensures Now() == StopNode(old(Now()))
      ensures old(Valid()) ==> Valid()
    {
      run, quit := false, true;
      worker := if worker.Waiting? then Waiting(true) else worker;
    }

    /** The front item, taken under the lock. */
    method Pop() returns (item: T)
      requires Valid() && worker.Popping?
      modifies this`items, this`worker
      ensures Valid() && Now() == WorkAlone(old(Now()), false, false)
      ensures old(items) != [] && item == old(items)[0]
    {
      WorkAloneOk(Now(), 0, false, false);
      item := items[0];
      worker := InHand(item, worker.n);
      items := items[1..];
    }

    /** A step of the worker that only moves on. */
    ghost method Tick(timedOut: bool, fails: bool)
      requires Valid() && !worker.LoopTest? && !worker.Popping? && !worker.InHand?
      modifies this`worker
      ensures Valid() && Now() == WorkAlone(old(Now()), timedOut, fails)
    {
      WorkAloneOk(Now(), 0, timedOut, fails);
      worker := WorkAlone(Now(), timedOut, fails).worker;
    }

    /** The wait for an item: whether it timed out. */
    method Await(env: Surroundings<T>) returns (timedOut: bool)
      requires Valid() && worker == GoingToWait
      modifies this
      ensures Valid() && Now() == AfterWait(old(Now()), env)
      ensures timedOut <==> worker != QuitTest
    {
      WaitMeaning(Now(), env);
      ArriveOk(Now(), env.before);
      Receive(env.before);
      Tick(false, false);
      ArriveOk(Now(), env.during);
      Receive(env.during);
      if env.stopped { Stop(); }
      timedOut := env.late || (env.during == [] && !env.stopped);
      Tick(timedOut, env.tail != 0);
    }

    /** The loop of `step`; n is the number of turns that succeeded. */
    method DrainLoop(turns: seq<Turn<T>>) returns (result: int, n: nat)
      requires Valid() && worker == Popping(0)
      modifies this
      ensures Valid() && Now() == Drain(old(Now()), turns, 0)
      ensures worker == if result != 0 then Parked else Tail
      ensures NoneFails(turns, 0, n) && (result != 0 ==> result == TurnOf(turns, n).result)
    {
      n := 0;
      var going := true;
      result := 0;
      while going
        invariant Valid() && n <= BATCH && NoneFails(turns, 0, n)
        invariant going ==> worker == Popping(n)
        invariant (if going then Drain(Now(), turns, n) else Now()) == Drain(old(Now()), turns, 0)
        invariant !going ==> worker == if result != 0 then Parked else Tail
        invariant result != 0 ==> !going && result == TurnOf(turns, n).result
        decreases BATCH - n, going
      {
        TurnMeaning(Now(), TurnOf(turns, n), n);
        result := ProcessOne(TurnOf(turns, n));
        if result == 0 {
          NoneFailsMore(turns, 0, n);
          n := n + 1;
        }
        going := result == 0 && items != [] && n < BATCH;
      }
    }

    /** The loop of `step`: the result is that of the last call of `process(item)`, the failing one if
        there is any. */
    method DrainItems(turns: seq<Turn<T>>) returns (result: int)
      requires Valid() && worker == Popping(0)
      modifies this
      ensures Valid() && Now() == Drain(old(Now()), turns, 0)
      ensures worker == if result != 0 then Parked else Tail
      ensures exists last: nat :: Drained(old(Now()), Now(), turns, 0, last) && result == TurnOf(turns, last).result
    {
      ghost var last := DrainMeaning(Now(), turns, 0);
      var n;
      result, n := DrainLoop(turns);
      if result != 0 { FirstFailure(turns, n, last); }
    }

    /** `process(item)` and the tests after it. */
    method Handle(item: T, result: int)
      requires Valid() && worker.InHand? && worker.item == item
      modifies this`processed, this`worker
      ensures Valid() && Now() == WorkAlone(WorkAlone(old(Now()), false, false), false, result != 0)
    {
      WorkAloneOk(Now(), 0, false, false);
      processed := processed + [item];
      worker := Forwarding(worker.n, 0);
      Tick(false, result != 0);
    }

    /** One turn of the loop. */
    method ProcessOne(turn: Turn<T>) returns (result: int)
      requires Valid() && worker.Popping?
      modifies this
      ensures Valid() && Now() == OneTurn(old(Now()), turn) && result == turn.result
    {
      var item := Pop();
      ArriveOk(Now(), turn.arrived);
      Receive(turn.arrived);
      result := turn.result;
      Handle(item, result);
    }

    /** `step` up to its loop: whether it goes into it, and the result when it does not. */
    method BeginStep(env: Surroundings<T>) returns (going: bool, result: int)
      requires Valid() && worker == EmptyTest
      modifies this
      ensures Valid() && Now() == Begin(old(Now()), env)
      ensures going <==> worker == Popping(0)
      ensures going <==> !StaysOut(old(Now()), env)
      ensures !going ==> worker == if result != 0 then Parked else LoopTest
      ensures !going ==> result == if TimesOut(old(Now()), env) then env.tail else 0
    {
      BeginMeaning(Now(), env);
      Tick(false, false);
      if items == [] {
        WaitMeaning(Now(), env);
        var timedOut := Await(env);
        if timedOut { return false, env.tail; }
      }
      Tick(false, false);
      return !quit, 0;
    }

    method Step(env: Surroundings<T>) returns (result: int)
      requires Valid() && worker == EmptyTest
      modifies this
      ensures Valid() && Now() == StepOf(old(Now()), env)
      ensures worker == if result != 0 then Parked else LoopTest
      ensures StepReturns(old(Now()), Now(), env, result)
    {
      var going;
      BeginMeaning(Now(), env);
      going, result := BeginStep(env);
      if !going { return; }
      ghost var begun := Now();
      result := DrainItems(env.turns);
      ghost var last: nat :| Drained(begun, Now(), env.turns, 0, last) && result == TurnOf(env.turns, last).result;
      assert NoneFails(env.turns, 0, last);
      if result == 0 {
        Tick(false, env.tail != 0);
        result := env.tail;
      }
    }
  }

  lemma {:induction false} ArriveTwice<T>(node: Node<T>, a: seq<T>, b: seq<T>)
    ensures Arrive(Arrive(node, a), b) == Arrive(node, a + b)
    decreases |a|
  {
    if a == [] {
      assert a + b == b;
    } else {
      assert (a + b)[1..] == a[1..] + b;
      ArriveTwice(Signal(Pushed(node, a[0]).(pushing := false)), a[1..], b);
    }
  }

  /** The item as often as the sink is among the first k. */
  function Copies<T>(sinks: seq<ThreadedSink<T>>, k: nat, sink: ThreadedSink<T>, item: T): seq<T>
    requires k <= |sinks|
  {
    if k == 0 then [] else Copies(sinks, k - 1, sink, item) + if sinks[k - 1] == sink then [item] else []
  }

  /** A collection hands an item on to all of its sinks. */
  class Collection<T> {
    const sinks: seq<ThreadedSink<T>>

    constructor (sinks: seq<ThreadedSink<T>>)
      ensures this.sinks == sinks
    {
      this.sinks := sinks;
    }

    /** The sinks when the first k of them are served. */
    ghost predicate Served(k: nat, item: T, start: map<ThreadedSink<T>, Node<T>>)
      reads sinks
    {
      k <= |sinks| &&
      forall sink :: sink in sinks ==>
        sink in start && sink.Valid() && sink.Now() == Arrive(start[sink], Copies(sinks, k, sink, item))
    }

    method Forward(k: nat, item: T, ghost start: map<ThreadedSink<T>, Node<T>>)
      requires k < |sinks| && Served(k, item, start)
      modifies sinks[k]
      ensures Served(k + 1, item, start)
    {
      var next := sinks[k];
      assert next in sinks;
      ArriveTwice(start[next], Copies(sinks, k, next, item), [item]);
      next.Receive([item]);
      assert next.Now() == Arrive(start[next], Copies(sinks, k + 1, next, item));
      forall sink | sink in sinks
        ensures sink.Valid() && sink.Now() == Arrive(start[sink], Copies(sinks, k + 1, sink, item))
      {
        if sink != next {
          assert Copies(sinks, k + 1, sink, item) == Copies(sinks, k, sink, item);
        }
      }
    }

    /** A sink gets the item as often as it is listed. */
    method Process(item: T) returns (result: int)
      requires forall sink :: sink in sinks ==> sink.Valid()
      modifies sinks
      ensures result == 0
      ensures forall sink :: sink in sinks ==>
        sink.Valid() && sink.Now() == Arrive(old(sink.Now()), Copies(sinks, |sinks|, sink, item))
    {
      ghost var start := map sink | sink in sinks :: sink.Now();
      for k := 0 to |sinks|
        invariant Served(k, item, start)
      {
        Forward(k, item, start);
      }
      result := 0;
    }
  }
}

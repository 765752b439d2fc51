/** The life of a runner: one controlling thread that starts, joins and waits, callers of `stop`, and
    the workers. Each write of `stop` and each step of a worker between two accesses of a shared member
    is an event; `start`, `join` and `wait` are one event each. What the hooks return or throw is part
    of the event. A run is any sequence of events; an event that would block changes nothing. */
module ThreadRunner {
  import opened Wrappers

  datatype State = Error | Stopped | Initial | Initialising | Running | Finalising

  datatype Outcome = Returned(value: int) | Threw

  /** `m_run_future`: not valid, or valid and perhaps fulfilled. */
  datatype Future = NoFuture | Pending | Ready(value: int)

  /** What the worker does next. */
  datatype Phase =
    | Spawned                 // exec() takes the future
    | Entering                // run() says Initialising
    | InPre                   // pre_run() runs
    | Starting                // says Running
    | AtTest                  // reads m_run
    | InStep                  // step() runs
    | InCustom                // custom_run() runs
    | Leaving                 // says Finalising
    | AtCheck                 // reads m_exit_code
    | InPost                  // post_run() runs
    | Ending(value: int)      // the guard sets the last state
    | Promising(value: int)   // exec() fulfils the promise
    | Finished(value: int)

  /** States in the order in which they were set. */
  datatype Trace = Silent | Said(before: Trace, state: State)

  const BEGUN: Trace := Said(Silent, Initialising)
  const RAN: Trace := Said(BEGUN, Running)
  const FINALISED: Trace := Said(RAN, Finalising)

  /** `trace` are the states that the worker set, `seen` the exit code at the finalising check, and
      `steps` the calls of step() it began. */
  datatype Worker = Worker(phase: Phase, clean: bool, trace: Trace, seen: Option<int>, steps: nat)

  /** The members that controller and worker share. */
  datatype Shared = Shared(custom: bool, run: bool, quit: bool, exitCode: int, state: State, future: Future)

  /** `handle` is the worker that `m_thread` stands for, `waited` what `wait()` last returned. */
  datatype Runner = Runner(shared: Shared, handle: Option<nat>, waited: Option<int>, workers: seq<Worker>)

  datatype Event =
    | Start | Join | Wait
    | StopRun              // `stop` clears m_run ...
    | StopQuit             // ... then sets m_quit ...
    | StopCode(code: int)  // ... then writes the exit code
    | Work(w: nat, outcome: Outcome)

  const NEW_WORKER: Worker := Worker(Spawned, false, Silent, None, 0)

  function New(custom: bool): Runner {
    Runner(Shared(custom, true, false, 0, Initial, NoFuture), None, None, [])
  }

  /** The order of the enumeration: Error, Stopped, Initial come first. */
  predicate AfterInitial(s: State) {
    s == Initialising || s == Running || s == Finalising
  }

  /** The shared members and one worker. */
  datatype View = View(shared: Shared, worker: Worker)

  /** The worker sets the state. */
  function Say(v: View, state: State, phase: Phase): View {
    View(v.shared.(state := state), v.worker.(phase := phase, trace := Said(v.worker.trace, state)))
  }

  function Go(v: View, phase: Phase): View {
    v.(worker := v.worker.(phase := phase))
  }

  /** A hook that makes the worker leave its loop when it returns anything but zero. */
  function HookDone(v: View, outcome: Outcome, onward: Phase): View {
    if outcome == Threw then Go(v, Ending(-1))
    else if outcome.value == 0 then Go(v, onward)
    else Go(v.(shared := v.shared.(exitCode := outcome.value)), Leaving)
  }

  /** One step of a worker. */
  function Advance(v: View, outcome: Outcome): View {
    match v.worker.phase
    case Spawned => Go(v.(shared := v.shared.(future := Pending)), Entering)
    case Entering => Say(v, Initialising, InPre)
    case InPre =>
      if outcome == Threw then Go(v, Ending(-1))
      else if outcome.value != 0 then Go(v, Ending(outcome.value))
      else Go(v, Starting)
    case Starting => Say(v, Running, if v.shared.custom then InCustom else AtTest)
    case AtTest =>
      if v.shared.run then v.(worker := v.worker.(phase := InStep, steps := v.worker.steps + 1))
      else Go(v, Leaving)
    case InStep => HookDone(v, outcome, AtTest)
    case InCustom => HookDone(v, outcome, Leaving)
    case Leaving => Say(v, Finalising, AtCheck)
    case AtCheck =>
      var code := v.shared.exitCode;
      v.(worker := v.worker.(phase := InPost, clean := code == 0, seen := Some(code)))
    case InPost => Go(v, if outcome == Threw then Ending(-1) else Ending(outcome.value + v.shared.exitCode))
    case Ending(value) => Say(v, if v.worker.clean then Stopped else Error, Promising(value))
    case Promising(value) => Go(v.(shared := v.shared.(future := Ready(value))), Finished(value))
    case Finished(_) => v
  }

  /** A whole call of `stop`. */
  function StopShared(s: Shared, code: int): Shared {
    s.(run := false, quit := true, exitCode := code)
  }

  /** Joining the thread, then waiting for the future, would return at once. */
  predicate JoinReturns(r: Runner) {
    && (r.handle.Some? ==> r.handle.value < |r.workers| && r.workers[r.handle.value].phase.Finished?)
    && r.shared.future != Pending
  }

  function Next(r: Runner, e: Event): Runner {
    match e
    case Start =>
      if AfterInitial(r.shared.state) || r.handle.Some? then r
      else r.(handle := Some(|r.workers|), workers := r.workers + [NEW_WORKER])
    case StopRun => r.(shared := r.shared.(run := false))
    case StopQuit => if r.shared.run then r else r.(shared := r.shared.(quit := true))
    case StopCode(code) => if r.shared.quit then r.(shared := r.shared.(exitCode := code)) else r
    case Join => if JoinReturns(r) then r.(handle := None) else r
    case Wait =>
      if r.shared.future == NoFuture then r.(waited := Some(-1))
      else if JoinReturns(r) then
        r.(handle := None, waited := Some(r.shared.future.value), shared := r.shared.(future := NoFuture))
      else r
    case Work(w, outcome) =>
      if w < |r.workers| then
        var after := Advance(View(r.shared, r.workers[w]), outcome);
        r.(shared := after.shared, workers := r.workers[w := after.worker])
      else r
  }

  function Exec(r: Runner, events: seq<Event>): Runner {
    if events == [] then r else Next(Exec(r, events[..|events| - 1]), events[|events| - 1])
  }

  lemma ExecOne(r: Runner, events: seq<Event>, e: Event)
    ensures Exec(r, events + [e]) == Next(Exec(r, events), e)
  {
    assert (events + [e])[..|events|] == events;
  }

  lemma {:induction false} ExecConcat(r: Runner, a: seq<Event>, b: seq<Event>)
    ensures Exec(r, a + b) == Exec(Exec(r, a), b)
  {
    if b == [] {
      assert a + b == a;
    } else {
      ExecConcat(r, a, b[..|b| - 1]);
      assert (a + b)[..|a + b| - 1] == a + b[..|b| - 1];
    }
  }

  /** What a worker has said so far, and whether its check came, follow from where it is. */
  predicate Fits(k: Worker) {
    && k.clean == (k.seen == Some(0))
    && match k.phase
       case Spawned => k.trace == Silent && k.seen == None
       case Entering => k.trace == Silent && k.seen == None
       case InPre => k.trace == BEGUN && k.seen == None
       case Starting => k.trace == BEGUN && k.seen == None
       case AtTest => k.trace == RAN && k.seen == None
       case InStep => k.trace == RAN && k.seen == None
       case InCustom => k.trace == RAN && k.seen == None
       case Leaving => k.trace == RAN && k.seen == None
       case AtCheck => k.trace == FINALISED && k.seen == None
       case InPost => k.trace == FINALISED && k.seen != None
       case Ending(_) => IsWay(k.trace) && (k.seen != None <==> k.trace == FINALISED)
       case Promising(_) => HasEnded(k)
       case Finished(_) => HasEnded(k)
  }

  /** Initialising, then perhaps Running, then perhaps Finalising. */
  predicate IsWay(trace: Trace) {
    trace == BEGUN || trace == RAN || trace == FINALISED
  }

  /** One last state after the way, decided by the finalising check. */
  predicate HasEnded(k: Worker) {
    && k.trace.Said?
    && IsWay(k.trace.before)
    && (k.seen != None <==> k.trace.before == FINALISED)
    && k.trace.state == if k.seen == Some(0) then Stopped else Error
  }

  /** Only the latest worker can be alive, and then the handle stands for it; the shared state is the
      one that it set last, and the future is its future. */
  ghost predicate Inv(r: Runner) {
    && (forall w :: 0 <= w < |r.workers| ==> Fits(r.workers[w]))
    && (forall w :: 0 <= w < |r.workers| - 1 ==> r.workers[w].phase.Finished?)
    && (r.handle.Some? ==> r.handle.value == |r.workers| - 1)
    && (r.workers == [] ==> r.shared.state == Initial && r.shared.future == NoFuture)
    && (r.workers != [] ==> IsCurrent(View(r.shared, r.workers[|r.workers| - 1]), r.handle == None))
  }

  predicate IsCurrent(v: View, joined: bool) {
    var s, k := v.shared, v.worker;
    && (joined ==> k.phase.Finished?)
    && (k.trace.Said? ==> s.state == k.trace.state)
    && (k.trace == Silent ==> !AfterInitial(s.state))
    && (s.future == Pending <==> k.phase != Spawned && !k.phase.Finished?)
    && (s.future.Ready? && k.phase != Spawned ==> k.phase == Finished(s.future.value))
  }

  lemma AdvanceFits(v: View, outcome: Outcome)
    requires Fits(v.worker)
    ensures Fits(Advance(v, outcome).worker)
  {
  }

  lemma AdvanceIsCurrent(v: View, joined: bool, outcome: Outcome)
    requires IsCurrent(v, joined) && Fits(v.worker)
    ensures IsCurrent(Advance(v, outcome), joined)
  {
  }

  /** A step of any worker but the latest changes nothing, as it is finished. */
  lemma WorkKeepsInv(r: Runner, w: nat, outcome: Outcome)
    requires Inv(r) && w < |r.workers|
    ensures Inv(Next(r, Work(w, outcome)))
  {
    var v := View(r.shared, r.workers[w]);
    AdvanceFits(v, outcome);
    if w == |r.workers| - 1 {
      AdvanceIsCurrent(v, r.handle == None, outcome);
    }
  }

  lemma StartKeepsInv(r: Runner)
    requires Inv(r)
    ensures Inv(Next(r, Start))
  {
    assert Fits(NEW_WORKER);
  }

  lemma NextKeepsInv(r: Runner, e: Event)
    requires Inv(r)
    ensures Inv(Next(r, e))
  {
    match e
    case Start => StartKeepsInv(r);
    case Work(w, outcome) => if w < |r.workers| { WorkKeepsInv(r, w, outcome); }
    case _ =>
  }

  lemma {:induction false} ExecKeepsInv(r: Runner, events: seq<Event>)
    requires Inv(r)
    ensures Inv(Exec(r, events))
  {
    if events != [] {
      ExecKeepsInv(r, events[..|events| - 1]);
      NextKeepsInv(Exec(r, events[..|events| - 1]), events[|events| - 1]);
    }
  }

  lemma AliveIsLast(r: Runner, w: nat)
    requires Inv(r) && w < |r.workers| && !r.workers[w].phase.Finished?
    ensures w == |r.workers| - 1 && r.handle == Some(w)
  {
  }

  /** In every run two workers are never alive together. */
  lemma OneWorkerAlive(custom: bool, events: seq<Event>, v: nat, w: nat)
    requires v < |Exec(New(custom), events).workers| && w < |Exec(New(custom), events).workers|
    requires !Exec(New(custom), events).workers[v].phase.Finished?
    requires !Exec(New(custom), events).workers[w].phase.Finished?
    ensures v == w && Exec(New(custom), events).handle == Some(w)
  {
    ExecKeepsInv(New(custom), events);
    AliveIsLast(Exec(New(custom), events), v);
    AliveIsLast(Exec(New(custom), events), w);
  }

  /** In every run a worker that is done has gone through a nonempty part of Initialising, Running,
      Finalising from the front, then set one last state: Stopped exactly when it came to the
      finalising check and the exit code was zero there. */
  lemma EveryLife(custom: bool, events: seq<Event>, w: nat)
    requires w < |Exec(New(custom), events).workers|
    requires Exec(New(custom), events).workers[w].phase.Finished?
    ensures var k := Exec(New(custom), events).workers[w];
            && k.trace.Said? && IsWay(k.trace.before)
            && (k.trace.before == FINALISED <==> k.seen != None)
            && k.trace.state == if k.seen == Some(0) then Stopped else Error
  {
    ExecKeepsInv(New(custom), events);
    var k := Exec(New(custom), events).workers[w];
    assert Fits(k);
  }

  /** In every run `start` adds a worker exactly when no thread waits to be joined: a runner can be
      started again after every join. */
  lemma StartIff(custom: bool, events: seq<Event>)
    ensures var r := Exec(New(custom), events);
            Next(r, Start) != r <==> r.handle == None
  {
    ExecKeepsInv(New(custom), events);
    var r := Exec(New(custom), events);
    if r.workers != [] {
      assert Fits(r.workers[|r.workers| - 1]);
    }
    assert |Next(r, Start).workers| == |r.workers| + 1 || Next(r, Start) == r;
  }

  /** In every run, once the latest worker has finished, `join` releases the thread and changes nothing
      else, and the runner can be started again. */
  lemma JoinAllowsRestart(custom: bool, events: seq<Event>)
    requires var r := Exec(New(custom), events);
             r.workers != [] && r.workers[|r.workers| - 1].phase.Finished?
    ensures var r := Exec(New(custom), events);
            var joined := Next(r, Join);
            && joined == r.(handle := None)
            && Next(joined, Start) == joined.(handle := Some(|r.workers|), workers := r.workers + [NEW_WORKER])
  {
    ExecKeepsInv(New(custom), events);
    FinishedCanBeJoined(Exec(New(custom), events));
  }

  /** The same after `wait`, which takes the result with it. */
  lemma WaitAllowsRestart(custom: bool, events: seq<Event>)
    requires var r := Exec(New(custom), events);
             r.workers != [] && r.workers[|r.workers| - 1].phase.Finished? && r.shared.future != NoFuture
    ensures var r := Exec(New(custom), events);
            var waited := Next(r, Wait);
            && waited.handle == None && waited.workers == r.workers && waited.shared == r.shared.(future := NoFuture)
            && |Next(waited, Start).workers| == |r.workers| + 1
  {
    ExecKeepsInv(New(custom), events);
    FinishedCanBeJoined(Exec(New(custom), events));
  }

  lemma FinishedCanBeJoined(r: Runner)
    requires Inv(r) && r.workers != [] && r.workers[|r.workers| - 1].phase.Finished?
    ensures JoinReturns(r) && !AfterInitial(r.shared.state)
  {
    assert Fits(r.workers[|r.workers| - 1]);
  }

  /** And before that `join` blocks. */
  lemma JoinBlocksOnTheLiving(custom: bool, events: seq<Event>)
    requires var r := Exec(New(custom), events);
             r.workers != [] && !r.workers[|r.workers| - 1].phase.Finished?
    ensures var r := Exec(New(custom), events);
            r.handle == Some(|r.workers| - 1) && Next(r, Join) == r
  {
    ExecKeepsInv(New(custom), events);
    AliveIsLast(Exec(New(custom), events), |Exec(New(custom), events).workers| - 1);
  }

  /** In every run, what `wait` returns from a valid future is what the latest worker returned. */
  lemma WaitReturnsTheResult(custom: bool, events: seq<Event>)
    requires var r := Exec(New(custom), events);
             r.shared.future != NoFuture && JoinReturns(r)
    ensures var r := Exec(New(custom), events);
            && r.workers != []
            && r.workers[|r.workers| - 1].phase == Finished(Next(r, Wait).waited.value)
  {
    ExecKeepsInv(New(custom), events);
    ResultOfWait(Exec(New(custom), events));
  }

  lemma ResultOfWait(r: Runner)
    requires Inv(r) && r.shared.future != NoFuture && JoinReturns(r)
    ensures r.workers != [] && r.workers[|r.workers| - 1].phase == Finished(Next(r, Wait).waited.value)
  {
  }

  /** `wait` would not block. */
  predicate WaitReturns(r: Runner) {
    r.shared.future == NoFuture || JoinReturns(r)
  }

  /** `wait` right after `start` can come before the worker has made its future: it then returns -1
      at once, with the worker still to run. */
  lemma WaitCanComeTooEarly(custom: bool)
    ensures var r := Exec(New(custom), [Start, Wait]);
            r.waited == Some(-1) && r.workers == [NEW_WORKER]
  {
    assert [Start, Wait][..1] == [Start] && [Start][..0] == [];
    assert Exec(New(custom), [Start]) == Next(New(custom), Start);
  }

  /** In every run, `wait` returns while a worker is alive exactly when that worker has not made its
      future yet and no earlier result is left to be fetched. */
  lemma WaitIsEarlyIff(custom: bool, events: seq<Event>)
    requires var r := Exec(New(custom), events);
             r.workers != [] && !r.workers[|r.workers| - 1].phase.Finished?
    ensures var r := Exec(New(custom), events);
            WaitReturns(r) <==> r.workers[|r.workers| - 1].phase == Spawned && r.shared.future == NoFuture
  {
    ExecKeepsInv(New(custom), events);
  }

  /** In every run, a caller who sees a state after Initial finds the future made, so `wait` blocks. */
  lemma SeenRunningMeansWaitBlocks(custom: bool, events: seq<Event>)
    ensures var r := Exec(New(custom), events);
            r.shared.state == Initialising || r.shared.state == Running || r.shared.state == Finalising ==>
              r.shared.future == Pending && !WaitReturns(r)
  {
    ExecKeepsInv(New(custom), events);
    if AfterInitial(Exec(New(custom), events).shared.state) {
      RunningMeansPending(Exec(New(custom), events));
    }
  }

  lemma RunningMeansPending(r: Runner)
    requires Inv(r) && AfterInitial(r.shared.state)
    ensures r.workers != [] && r.shared.future == Pending && !WaitReturns(r)
  {
    assert Fits(r.workers[|r.workers| - 1]);
  }

  lemma {:induction false} FutureIsKept(r: Runner, events: seq<Event>)
    requires Inv(r) && r.workers != [] && r.shared.future != NoFuture
    requires Start !in events && Wait !in events
    ensures |Exec(r, events).workers| == |r.workers| && Exec(r, events).shared.future != NoFuture
  {
    if events != [] {
      var front := events[..|events| - 1];
      assert forall e :: e in front ==> e in events;
      FutureIsKept(r, front);
      FutureStep(Exec(r, front), events[|events| - 1]);
    }
  }

  lemma FutureStep(r: Runner, e: Event)
    requires e != Start && e != Wait && r.shared.future != NoFuture
    ensures |Next(r, e).workers| == |r.workers| && Next(r, e).shared.future != NoFuture
  {
  }

  /** And when it returns after that, without another start or wait in between, it returns the result
      of the worker whose state was seen. */
  lemma WaitAfterSeenRunning(custom: bool, past: seq<Event>, events: seq<Event>)
    requires AfterInitial(Exec(New(custom), past).shared.state)
    requires Start !in events && Wait !in events
    requires WaitReturns(Exec(Exec(New(custom), past), events))
    ensures var (r, s) := (Exec(New(custom), past), Exec(Exec(New(custom), past), events));
            && r.workers != [] && |s.workers| == |r.workers|
            && s.workers[|r.workers| - 1].phase == Finished(Next(s, Wait).waited.value)
  {
    var r := Exec(New(custom), past);
    SeenRunningMeansWaitBlocks(custom, past);
    ExecKeepsInv(New(custom), past);
    FutureIsKept(r, events);
    ExecKeepsInv(r, events);
    ResultOfWait(Exec(r, events));
  }

  /** The calls of step() begun by all workers. */
  function StepsBegun(workers: seq<Worker>): nat {
    if workers == [] then 0 else StepsBegun(workers[..|workers| - 1]) + workers[|workers| - 1].steps
  }

  lemma {:induction false} StepsOfUpdate(workers: seq<Worker>, w: nat, k: Worker)
    requires w < |workers| && k.steps == workers[w].steps
    ensures StepsBegun(workers[w := k]) == StepsBegun(workers)
  {
    var front := workers[..|workers| - 1];
    if w < |workers| - 1 {
      StepsOfUpdate(front, w, k);
      assert workers[w := k][..|workers| - 1] == front[w := k];
    } else {
      assert workers[w := k][..|workers| - 1] == front;
    }
  }

  lemma StoppedNext(r: Runner, e: Event)
    requires !r.shared.run
    ensures !Next(r, e).shared.run && StepsBegun(Next(r, e).workers) == StepsBegun(r.workers)
  {
    match e
    case Start =>
      assert (r.workers + [NEW_WORKER])[..|r.workers|] == r.workers;
    case Work(w, outcome) =>
      if w < |r.workers| {
        StepsOfUpdate(r.workers, w, Advance(View(r.shared, r.workers[w]), outcome).worker);
      }
    case _ =>
  }

  /** Once `stop` was called no worker, present or started later, begins another step(), whatever
      happens: nothing sets `m_run` again. */
  lemma {:induction false} StopIsForGood(r: Runner, events: seq<Event>)
    requires !r.shared.run
    ensures !Exec(r, events).shared.run && StepsBegun(Exec(r, events).workers) == StepsBegun(r.workers)
  {
    if events != [] {
      StopIsForGood(r, events[..|events| - 1]);
      StoppedNext(Exec(r, events[..|events| - 1]), events[|events| - 1]);
    }
  }

  /** In every run `m_quit` is set only after `m_run` was cleared, so a worker that sees the first will
      see the second. */
  lemma {:induction false} QuitMeansStopped(custom: bool, events: seq<Event>)
    ensures Exec(New(custom), events).shared.quit ==> !Exec(New(custom), events).shared.run
  {
    if events != [] {
      var r, e := Exec(New(custom), events[..|events| - 1]), events[|events| - 1];
      QuitMeansStopped(custom, events[..|events| - 1]);
      if e.Work? && e.w < |r.workers| { AdvanceKeepsFlags(View(r.shared, r.workers[e.w]), e.outcome); }
    }
  }

  lemma AdvanceKeepsFlags(v: View, outcome: Outcome)
    ensures Advance(v, outcome).shared.run == v.shared.run && Advance(v, outcome).shared.quit == v.shared.quit
  {
  }

  /** The exit code after the events if only `stop` writes it. */
  function LastCode(r: Runner, events: seq<Event>): int {
    if events == [] then r.shared.exitCode
    else
      var front, e := events[..|events| - 1], events[|events| - 1];
      if e.StopCode? && Exec(r, front).shared.quit then e.code else LastCode(r, front)
  }

  /** After the loop no hook writes the exit code any more ... */
  predicate PastLoop(p: Phase) {
    ReadsCode(p) || p.Ending? || p.Promising? || p.Finished?
  }

  /** ... and until the result is formed it still matters. */
  predicate ReadsCode(p: Phase) {
    p == Leaving || p == AtCheck || p == InPost
  }

  lemma PastLoopStays(v: View, outcome: Outcome)
    requires PastLoop(v.worker.phase)
    ensures PastLoop(Advance(v, outcome).worker.phase)
    ensures Advance(v, outcome).shared.exitCode == v.shared.exitCode
    ensures ReadsCode(Advance(v, outcome).worker.phase) ==> ReadsCode(v.worker.phase)
  {
  }

  /** As long as it matters, in every interleaving, the exit code is the one that the latest `stop`
      wrote, or else the one with which the worker left its loop. */
  lemma {:induction false} CodeIsLastWritten(r: Runner, w: nat, events: seq<Event>)
    requires Inv(r) && w + 1 == |r.workers| && PastLoop(r.workers[w].phase)
    ensures w < |Exec(r, events).workers| && PastLoop(Exec(r, events).workers[w].phase)
    ensures ReadsCode(Exec(r, events).workers[w].phase) ==>
      |Exec(r, events).workers| == |r.workers| && Exec(r, events).shared.exitCode == LastCode(r, events)
  {
    if events != [] {
      var front, e := events[..|events| - 1], events[|events| - 1];
      CodeIsLastWritten(r, w, front);
      ExecKeepsInv(r, front);
      CodeStep(Exec(r, front), w, e);
    }
  }

  lemma CodeStep(r: Runner, w: nat, e: Event)
    requires Inv(r) && w < |r.workers| && PastLoop(r.workers[w].phase)
    ensures w < |Next(r, e).workers| && PastLoop(Next(r, e).workers[w].phase)
    ensures ReadsCode(Next(r, e).workers[w].phase) ==>
      && ReadsCode(r.workers[w].phase) && |Next(r, e).workers| == |r.workers|
      && Next(r, e).shared.exitCode == if e.StopCode? && r.shared.quit then e.code else r.shared.exitCode
  {
    if e.Work? && e.w == w { PastLoopStays(View(r.shared, r.workers[w]), e.outcome); }
  }

  lemma SeenStep(r: Runner, w: nat, e: Event)
    requires Inv(r) && w < |r.workers| && r.workers[w].seen != None
    ensures w < |Next(r, e).workers| && Next(r, e).workers[w].seen == r.workers[w].seen
  {
    assert Fits(r.workers[w]);
  }

  /** What the finalising check saw is never seen again. */
  lemma {:induction false} SeenStays(r: Runner, w: nat, events: seq<Event>)
    requires Inv(r) && w < |r.workers| && r.workers[w].seen != None
    ensures w < |Exec(r, events).workers| && Exec(r, events).workers[w].seen == r.workers[w].seen
  {
    if events != [] {
      var front := events[..|events| - 1];
      SeenStays(r, w, front);
      ExecKeepsInv(r, front);
      SeenStep(Exec(r, front), w, events[|events| - 1]);
    }
  }

  /** What comes after the finalising check, `post_run()` with any outcome and any stop, does not
      change the last state. */
  lemma PostRunComesTooLate(custom: bool, past: seq<Event>, w: nat, events: seq<Event>)
    requires w < |Exec(New(custom), past).workers| && Exec(New(custom), past).workers[w].seen != None
    ensures w < |Exec(Exec(New(custom), past), events).workers|
    ensures var (r, s) := (Exec(New(custom), past), Exec(Exec(New(custom), past), events));
            s.workers[w].phase.Promising? || s.workers[w].phase.Finished? ==>
              s.workers[w].trace.Said? && (s.workers[w].trace.state == Stopped <==> r.workers[w].seen == Some(0))
  {
    ExecKeepsInv(New(custom), past);
    SeenDecides(Exec(New(custom), past), w, events);
  }

  lemma SeenDecides(r: Runner, w: nat, events: seq<Event>)
    requires Inv(r) && w < |r.workers| && r.workers[w].seen != None
    ensures w < |Exec(r, events).workers|
    ensures var k := Exec(r, events).workers[w];
            k.phase.Promising? || k.phase.Finished? ==>
              k.trace.Said? && (k.trace.state == Stopped <==> r.workers[w].seen == Some(0))
  {
    SeenStays(r, w, events);
    ExecKeepsInv(r, events);
    assert Fits(Exec(r, events).workers[w]);
  }

  lemma CheckStep(r: Runner, w: nat, outcome: Outcome)
    requires w < |r.workers| && r.workers[w].phase == AtCheck
    ensures var checked := Next(r, Work(w, outcome));
            |checked.workers| == |r.workers| && checked.workers[w].seen == Some(r.shared.exitCode)
  {
  }

  /** The result of the worker is fixed, if it is not returned yet. */
  predicate HasValue(k: Worker, value: int) {
    k.phase == Ending(value) || k.phase == Promising(value) || k.phase == Finished(value)
  }

  /** The states that the worker set, without the last one. */
  function Way(k: Worker): Trace {
    if k.phase.Ending? || k.trace == Silent then k.trace else k.trace.before
  }

  lemma ValueStep(r: Runner, w: nat, e: Event, value: int)
    requires Inv(r) && w < |r.workers| && HasValue(r.workers[w], value)
    ensures w < |Next(r, e).workers| && HasValue(Next(r, e).workers[w], value)
    ensures Way(Next(r, e).workers[w]) == Way(r.workers[w])
    ensures Next(r, e).workers[w].steps == r.workers[w].steps && Next(r, e).workers[w].seen == r.workers[w].seen
  {
    assert Fits(r.workers[w]);
  }

  /** Once the result is fixed it is what the worker returns, and only the last state is still to come. */
  lemma {:induction false} ValueStays(r: Runner, w: nat, events: seq<Event>, value: int)
    requires Inv(r) && w < |r.workers| && HasValue(r.workers[w], value)
    ensures w < |Exec(r, events).workers| && HasValue(Exec(r, events).workers[w], value)
    ensures Way(Exec(r, events).workers[w]) == Way(r.workers[w])
    ensures Exec(r, events).workers[w].steps == r.workers[w].steps
    ensures Exec(r, events).workers[w].seen == r.workers[w].seen
  {
    if events != [] {
      var front := events[..|events| - 1];
      ValueStays(r, w, front, value);
      ExecKeepsInv(r, front);
      ValueStep(Exec(r, front), w, events[|events| - 1], value);
    }
  }

  /** From then on: nothing but the given value, the given way and one last state. */
  ghost predicate IsLeft(k: Worker, value: int, way: Trace, steps: nat, last: State) {
    && HasValue(k, value) && k.steps == steps
    && (k.phase.Ending? ==> k.trace == way)
    && (!k.phase.Ending? ==> k.trace == Said(way, last))
  }

  lemma LeftAtOnce(r: Runner, w: nat, e: Event, events: seq<Event>, value: int)
    requires Inv(r) && w < |r.workers| && Next(r, e).workers[w].phase == Ending(value)
    ensures w < |Exec(Next(r, e), events).workers|
    ensures var k := Next(r, e).workers[w];
            IsLeft(Exec(Next(r, e), events).workers[w], value, k.trace, k.steps,
                   if k.seen == Some(0) then Stopped else Error)
  {
    NextKeepsInv(r, e);
    ValueStays(Next(r, e), w, events, value);
    ExecKeepsInv(Next(r, e), events);
    assert Fits(Exec(Next(r, e), events).workers[w]);
  }

  /** In every run, when `pre_run()` fails the worker begins no step, says nothing but Initialising and
      Error, and returns the value of `pre_run()`, or -1 when that throws. */
  lemma FailedPreRunEnds(custom: bool, past: seq<Event>, w: nat, pre: Outcome, events: seq<Event>)
    requires w < |Exec(New(custom), past).workers| && Exec(New(custom), past).workers[w].phase == InPre
    requires pre != Returned(0)
    ensures var r := Exec(New(custom), past);
            var s := Exec(Next(r, Work(w, pre)), events);
            && w < |s.workers|
            && IsLeft(s.workers[w], if pre == Threw then -1 else pre.value,
                      Said(Silent, Initialising), r.workers[w].steps, Error)
  {
    var r := Exec(New(custom), past);
    ExecKeepsInv(New(custom), past);
    assert Fits(r.workers[w]);
    LeftAtOnce(r, w, Work(w, pre), events, if pre == Threw then -1 else pre.value);
  }

  /** In every run, a worker whose hook throws returns -1 and goes on with nothing; its last state is
      Error unless `post_run()` threw after a check that saw zero. */
  lemma ThrowingHookEnds(custom: bool, past: seq<Event>, w: nat, events: seq<Event>)
    requires w < |Exec(New(custom), past).workers|
    requires var phase := Exec(New(custom), past).workers[w].phase;
             phase == InPre || phase == InStep || phase == InCustom || phase == InPost
    ensures var r := Exec(New(custom), past);
            var s := Exec(Next(r, Work(w, Threw)), events);
            && w < |s.workers|
            && IsLeft(s.workers[w], -1, r.workers[w].trace, r.workers[w].steps,
                      if r.workers[w].phase == InPost && r.workers[w].seen == Some(0) then Stopped else Error)
  {
    var r := Exec(New(custom), past);
    ExecKeepsInv(New(custom), past);
    assert Fits(r.workers[w]);
    LeftAtOnce(r, w, Work(w, Threw), events, -1);
  }

  /** `steps` counts how often the worker found `m_run` set at its test. */
  lemma StepsAreCounted(r: Runner, w: nat, e: Event)
    requires w < |r.workers|
    ensures w < |Next(r, e).workers|
    ensures var k, after := r.workers[w], Next(r, e).workers[w];
            after.steps == k.steps + if k.phase == AtTest && after.phase == InStep then 1 else 0
    ensures r.workers[w].phase == AtTest ==>
            (Next(r, e).workers[w].phase == InStep <==> e.Work? && e.w == w && r.shared.run)
  {
  }

  /** In every run and every interleaving, a worker past its loop ends in Stopped exactly when zero was
      the last code written before its finalising check, by a failing hook or by `stop`. */
  lemma EndsByLastCode(custom: bool, past: seq<Event>, w: nat, before: seq<Event>, outcome: Outcome, after: seq<Event>)
    requires w + 1 == |Exec(New(custom), past).workers| && PastLoop(Exec(New(custom), past).workers[w].phase)
    requires var atCheck := Exec(Exec(New(custom), past), before);
             w < |atCheck.workers| && atCheck.workers[w].phase == AtCheck
    ensures var r := Exec(New(custom), past);
            var s := Exec(Next(Exec(r, before), Work(w, outcome)), after);
            && w < |s.workers|
            && (s.workers[w].phase.Promising? || s.workers[w].phase.Finished? ==>
                  s.workers[w].trace.Said? && (s.workers[w].trace.state == Stopped <==> LastCode(r, before) == 0))
  {
    var r := Exec(New(custom), past);
    ExecKeepsInv(New(custom), past);
    ExecKeepsInv(r, before);
    CodeIsLastWritten(r, w, before);
    CheckStep(Exec(r, before), w, outcome);
    NextKeepsInv(Exec(r, before), Work(w, outcome));
    SeenDecides(Next(Exec(r, before), Work(w, outcome)), w, after);
  }

  /** In particular a failed step is hidden exactly when the last stop before the check, wherever it
      comes, writes zero; without a stop the failure decides. */
  lemma StopOverwritesFailure(custom: bool, past: seq<Event>, w: nat, failure: int,
                              before: seq<Event>, outcome: Outcome, after: seq<Event>)
    requires w < |Exec(New(custom), past).workers| && failure != 0
    requires Exec(New(custom), past).workers[w].phase == InStep
    requires var atCheck := Exec(Next(Exec(New(custom), past), Work(w, Returned(failure))), before);
             w < |atCheck.workers| && atCheck.workers[w].phase == AtCheck
    ensures var failed := Next(Exec(New(custom), past), Work(w, Returned(failure)));
            var s := Exec(Next(Exec(failed, before), Work(w, outcome)), after);
            && failed.shared.exitCode == failure
            && w < |s.workers|
            && (s.workers[w].phase.Promising? || s.workers[w].phase.Finished? ==>
                  s.workers[w].trace.Said? && (s.workers[w].trace.state == Stopped <==> LastCode(failed, before) == 0))
  {
    ExecKeepsInv(New(custom), past);
    ExecOne(New(custom), past, Work(w, Returned(failure)));
    EndsByLastCode(custom, past + [Work(w, Returned(failure))], w, before, outcome, after);
  }

  lemma Then(r: Runner, events: seq<Event>, e: Event) returns (more: seq<Event>)
    ensures more == events + [e] && Exec(r, more) == Next(Exec(r, events), e)
  {
    more := events + [e];
    ExecOne(r, events, e);
  }

  /** A runner whose only worker has the handle. */
  function Alone(run: bool, quit: bool, code: int, state: State, worker: Worker): Runner {
    Runner(Shared(false, run, quit, code, state, Pending), Some(0), None, [worker])
  }

  lemma ToTheLoop() returns (events: seq<Event>)
    ensures Exec(New(false), events) == Alone(true, false, 0, Running, Worker(AtTest, false, RAN, None, 0))
  {
    var go := Work(0, Returned(0));
    events := Then(New(false), [], Start);
    events := Then(New(false), events, go);
    events := Then(New(false), events, go);
    events := Then(New(false), events, go);
    events := Then(New(false), events, go);
  }

  lemma ThroughTheCheck() returns (events: seq<Event>)
    ensures StopRun in events
    ensures Exec(New(false), events) ==
            Alone(false, false, 0, Finalising, Worker(InPost, true, FINALISED, Some(0), 0))
  {
    var go := Work(0, Returned(0));
    events := ToTheLoop();
    events := Then(New(false), events, StopRun);
    events := Then(New(false), events, go);
    events := Then(New(false), events, go);
    events := Then(New(false), events, go);
  }

  lemma CodeIsLate() returns (events: seq<Event>)
    ensures StopRun in events && StopCode(5) in events
    ensures Exec(New(false), events) ==
            Alone(false, true, 5, Finalising, Worker(InPost, true, FINALISED, Some(0), 0))
  {
    events := ThroughTheCheck();
    events := Then(New(false), events, StopQuit);
    events := Then(New(false), events, StopCode(5));
  }

  /** So a call of `stop` need not decide: here the worker sees `m_run` cleared and is through its
      check before the code 5 is written. It ends in Stopped, and its result is 5. */
  lemma StopCodeCanComeTooLate() returns (events: seq<Event>)
    ensures StopRun in events && StopCode(5) in events
    ensures Exec(New(false), events) ==
            Alone(false, true, 5, Stopped, Worker(Promising(5), true, Said(FINALISED, Stopped), Some(0), 0))
  {
    var go := Work(0, Returned(0));
    events := CodeIsLate();
    events := Then(New(false), events, go);
    events := Then(New(false), events, go);
  }

  /** In every run and every interleaving, the result of `run` is that of post_run() plus the last code
      written before post_run() returned, and -1 if it throws. */
  lemma ResultIsByLastCode(custom: bool, past: seq<Event>, w: nat, during: seq<Event>, post: Outcome)
    requires w + 1 == |Exec(New(custom), past).workers| && PastLoop(Exec(New(custom), past).workers[w].phase)
    requires var r := Exec(Exec(New(custom), past), during);
             w < |r.workers| && r.workers[w].phase == InPost
    ensures var r := Exec(New(custom), past);
            var ended := Next(Exec(r, during), Work(w, post));
            && w < |ended.workers|
            && ended.workers[w].phase == Ending(if post == Threw then -1 else post.value + LastCode(r, during))
  {
    var r := Exec(New(custom), past);
    ExecKeepsInv(New(custom), past);
    CodeIsLastWritten(r, w, during);
    ResultStep(Exec(r, during), w, post);
  }

  lemma ResultStep(r: Runner, w: nat, post: Outcome)
    requires w < |r.workers| && r.workers[w].phase == InPost
    ensures var ended := Next(r, Work(w, post));
            && |ended.workers| == |r.workers|
            && ended.workers[w].phase == Ending(if post == Threw then -1 else post.value + r.shared.exitCode)
  {
  }

  /** One turn of the loop: the calls of `stop` before the test, and what step() does if it is called. */
  datatype Round = Round(stops: seq<int>, outcome: Outcome)

  /** What surrounds one life of a worker: its hooks, and the calls of `stop` in the loop, before the
      finalising check, and during post_run(). */
  datatype Surroundings = Surroundings(
    pre: Outcome, rounds: seq<Round>, custom: Outcome, late: seq<int>, during: seq<int>, post: Outcome)

  function Stops(v: View, codes: seq<int>): View
    decreases |codes|
  {
    if codes == [] then v else Stops(v.(shared := StopShared(v.shared, codes[0])), codes[1..])
  }

  function Turn(v: View, round: Round): View {
    var tested := Advance(Stops(v, round.stops), Threw);
    if tested.worker.phase == InStep then Advance(tested, round.outcome) else tested
  }

  /** The loop, until it is left or the surroundings say no more. */
  function Loop(v: View, rounds: seq<Round>): View
    decreases |rounds|
  {
    if rounds == [] || v.worker.phase != AtTest then v else Loop(Turn(v, rounds[0]), rounds[1..])
  }

  /** From Running to the end of the loop, or of the custom one. */
  function Main(v: View, env: Surroundings): View {
    if v.worker.phase == InCustom then Advance(v, env.custom) else Loop(v, env.rounds)
  }

  /** From the end of the loop to the finalising check. */
  function Checked(v: View, late: seq<int>): View {
    Advance(Stops(Advance(v, Threw), late), Threw)
  }

  /** From Running to the end of post_run(). */
  function Body(v: View, env: Surroundings): View {
    var ran := Main(v, env);
    if ran.worker.phase != Leaving then ran
    else Advance(Stops(Checked(ran, env.late), env.during), env.post)
  }

  /** `run` up to the return of pre_run(). */
  function Prepared(v: View, pre: Outcome): View {
    Advance(Advance(v, Threw), pre)
  }

  /** `run` as a composition of single steps. */
  function Life(v: View, env: Surroundings): View {
    var prepared := Prepared(v, env.pre);
    var ran := if prepared.worker.phase == Starting then Body(Advance(prepared, Threw), env) else prepared;
    if ran.worker.phase.Ending? then Advance(ran, Threw) else ran
  }

  lemma {:induction false} StopsOnly(v: View, codes: seq<int>)
    ensures var after := Stops(v, codes);
            && after.worker == v.worker
            && after.shared == if codes == [] then v.shared else StopShared(v.shared, codes[|codes| - 1])
    decreases |codes|
  {
    if codes != [] { StopsOnly(v.(shared := StopShared(v.shared, codes[0])), codes[1..]); }
  }

  /** Nothing disturbs a round: it is not stopped and step() returns zero. */
  predicate Quiet(round: Round) {
    round.stops == [] && round.outcome == Returned(0)
  }

  lemma TurnEnds(v: View, round: Round)
    requires v.worker.phase == AtTest && Fits(v.worker)
    ensures var after := Turn(v, round);
            && Fits(after.worker)
            && after.worker.phase in {AtTest, Leaving, Ending(-1)}
            && (after.worker.phase == AtTest <==> v.shared.run && Quiet(round))
            && (after.worker.phase == AtTest ==> after.shared == v.shared)
  {
    StopsOnly(v, round.stops);
    var tested := Advance(Stops(v, round.stops), Threw);
    AdvanceFits(Stops(v, round.stops), Threw);
    AdvanceFits(tested, round.outcome);
  }

  lemma {:induction false} LoopEnds(v: View, rounds: seq<Round>)
    requires v.worker.phase == AtTest && Fits(v.worker)
    ensures var after := Loop(v, rounds);
            && Fits(after.worker)
            && after.worker.phase in {AtTest, Leaving, Ending(-1)}
            && (after.worker.phase == AtTest <==>
                  rounds == [] || (v.shared.run && forall k :: 0 <= k < |rounds| ==> Quiet(rounds[k])))
    decreases |rounds|
  {
    if rounds != [] {
      var next := Turn(v, rounds[0]);
      TurnEnds(v, rounds[0]);
      if next.worker.phase == AtTest {
        LoopEnds(next, rounds[1..]);
        assert rounds == [rounds[0]] + rounds[1..];
      }
    }
  }

  lemma BodyEnds(v: View, env: Surroundings)
    requires (v.worker.phase == AtTest || v.worker.phase == InCustom) && Fits(v.worker)
    ensures var after := Body(v, env);
            && Fits(after.worker)
            && (after.worker.phase == AtTest || after.worker.phase.Ending?)
            && (after.worker.phase == AtTest <==>
                  v.worker.phase == AtTest && Loop(v, env.rounds).worker.phase == AtTest)
  {
    if v.worker.phase == AtTest { LoopEnds(v, env.rounds); } else { AdvanceFits(v, env.custom); }
    var ran := Main(v, env);
    if ran.worker.phase == Leaving {
      AdvanceFits(ran, Threw);
      StopsOnly(Advance(ran, Threw), env.late);
      AdvanceFits(Stops(Advance(ran, Threw), env.late), Threw);
      var checked := Checked(ran, env.late);
      StopsOnly(checked, env.during);
      AdvanceFits(Stops(checked, env.during), env.post);
    }
  }

  /** A worker stays in its loop exactly when pre_run() succeeded, the runner has no loop of its own,
      and no round so far was stopped or failed; otherwise it comes to its last state. */
  lemma LifeEnds(v: View, env: Surroundings)
    requires v.worker.phase == Entering && Fits(v.worker)
    ensures var after := Life(v, env);
            && Fits(after.worker)
            && (after.worker.phase == AtTest || after.worker.phase.Promising?)
            && (after.worker.phase == AtTest <==>
                  && env.pre == Returned(0) && !v.shared.custom
                  && (env.rounds == [] ||
                      (v.shared.run && forall k :: 0 <= k < |env.rounds| ==> Quiet(env.rounds[k]))))
  {
    var entered := Advance(v, Threw);
    AdvanceFits(v, Threw);
    var prepared := Advance(entered, env.pre);
    AdvanceFits(entered, env.pre);
    if prepared.worker.phase == Starting {
      var running := Advance(prepared, Threw);
      AdvanceFits(prepared, Threw);
      BodyEnds(running, env);
      if running.worker.phase == AtTest { LoopEnds(running, env.rounds); }
      AdvanceFits(Body(running, env), Threw);
    } else {
      AdvanceFits(prepared, Threw);
    }
  }

  /** The last of the codes, or the one before them. */
  function LastOf(code: int, codes: seq<int>): int {
    if codes == [] then code else codes[|codes| - 1]
  }

  lemma LeavingEnds(v: View, late: seq<int>, during: seq<int>, post: Outcome)
    requires v.worker.phase == Leaving
    ensures var ended := Advance(Advance(Stops(Checked(v, late), during), post), Threw);
            && ended.shared.state == (if LastOf(v.shared.exitCode, late) == 0 then Stopped else Error)
            && ended.worker.phase ==
                 Promising(if post == Threw then -1
                           else post.value + LastOf(LastOf(v.shared.exitCode, late), during))
  {
    StopsOnly(Advance(v, Threw), late);
    StopsOnly(Checked(v, late), during);
  }

  /** A life that comes to the end of its loop ends in Stopped if zero is the last code before the check,
      the last of the late stops, or else what the loop left; otherwise in Error. The result adds the last code
      before post_run() returned. */
  lemma LifeIsDecidedByTheCode(v: View, env: Surroundings)
    requires v.worker.phase == Entering && env.pre == Returned(0)
    requires Main(Advance(Prepared(v, env.pre), Threw), env).worker.phase == Leaving
    ensures var left := Main(Advance(Prepared(v, env.pre), Threw), env).shared.exitCode;
            && Life(v, env).shared.state == (if LastOf(left, env.late) == 0 then Stopped else Error)
            && Life(v, env).worker.phase ==
                 Promising(if env.post == Threw then -1
                           else env.post.value + LastOf(LastOf(left, env.late), env.during))
  {
    var ran := Main(Advance(Prepared(v, env.pre), Threw), env);
    LeavingEnds(ran, env.late, env.during, env.post);
    StopsOnly(Advance(ran, Threw), env.late);
    StopsOnly(Checked(ran, env.late), env.during);
    PostEnds(Stops(Checked(ran, env.late), env.during), env.post);
  }

  lemma PostEnds(v: View, post: Outcome)
    requires v.worker.phase == InPost
    ensures Advance(v, post).worker.phase.Ending?
  {
  }

  /** The runner after its worker w came to the view v. */
  function At(r: Runner, w: nat, v: View): Runner
    requires w < |r.workers|
  {
    r.(shared := v.shared, workers := r.workers[w := v.worker])
  }

  lemma OneMore(r: Runner, w: nat, v: View, events: seq<Event>, outcome: Outcome) returns (more: seq<Event>)
    requires w < |r.workers| && Exec(r, events) == At(r, w, v)
    ensures Exec(r, more) == At(r, w, Advance(v, outcome))
  {
    more := events + [Work(w, outcome)];
    assert more[..|more| - 1] == events;
  }

  lemma {:induction false} MoreStops(r: Runner, w: nat, v: View, events: seq<Event>, codes: seq<int>)
      returns (more: seq<Event>)
    requires w < |r.workers| && Exec(r, events) == At(r, w, v)
    ensures Exec(r, more) == At(r, w, Stops(v, codes))
    decreases |codes|
  {
    more := events;
    if codes != [] {
      ExecOne(r, events, StopRun);
      ExecOne(r, events + [StopRun], StopQuit);
      ExecOne(r, events + [StopRun] + [StopQuit], StopCode(codes[0]));
      more := events + [StopRun] + [StopQuit] + [StopCode(codes[0])];
      more := MoreStops(r, w, v.(shared := StopShared(v.shared, codes[0])), more, codes[1..]);
    }
  }

  lemma {:induction false} MoreRounds(r: Runner, w: nat, v: View, events: seq<Event>, rounds: seq<Round>)
      returns (more: seq<Event>)
    requires w < |r.workers| && Exec(r, events) == At(r, w, v)
    ensures Exec(r, more) == At(r, w, Loop(v, rounds))
    decreases |rounds|
  {
    more := events;
    if rounds != [] && v.worker.phase == AtTest {
      var stopped := Stops(v, rounds[0].stops);
      more := MoreStops(r, w, v, more, rounds[0].stops);
      more := OneMore(r, w, stopped, more, Threw);
      var tested := Advance(stopped, Threw);
      if tested.worker.phase == InStep {
        more := OneMore(r, w, tested, more, rounds[0].outcome);
      }
      more := MoreRounds(r, w, Turn(v, rounds[0]), more, rounds[1..]);
    }
  }

  lemma BodyIsARun(r: Runner, w: nat, v: View, events: seq<Event>, env: Surroundings) returns (more: seq<Event>)
    requires w < |r.workers| && Exec(r, events) == At(r, w, v)
    ensures Exec(r, more) == At(r, w, Body(v, env))
  {
    var ran := Main(v, env);
    if v.worker.phase == InCustom {
      more := OneMore(r, w, v, events, env.custom);
    } else {
      more := MoreRounds(r, w, v, events, env.rounds);
    }
    if ran.worker.phase == Leaving {
      var said, checked := Advance(ran, Threw), Checked(ran, env.late);
      more := OneMore(r, w, ran, more, Threw);
      more := MoreStops(r, w, said, more, env.late);
      more := OneMore(r, w, Stops(said, env.late), more, Threw);
      more := MoreStops(r, w, checked, more, env.during);
      more := OneMore(r, w, Stops(checked, env.during), more, env.post);
    }
  }

  /** What `run` does is one of the runs of the interleaved system, so all that holds in those holds
      of it. */
  lemma LifeIsARun(r: Runner, w: nat, env: Surroundings) returns (events: seq<Event>)
    requires w < |r.workers|
    ensures Exec(r, events) == At(r, w, Life(View(r.shared, r.workers[w]), env))
  {
    var v := View(r.shared, r.workers[w]);
    assert r.workers[w := v.worker] == r.workers;
    events := OneMore(r, w, v, [], Threw);
    var entered := Advance(v, Threw);
    events := OneMore(r, w, entered, events, env.pre);
    var ran := Advance(entered, env.pre);
    if ran.worker.phase == Starting {
      events := OneMore(r, w, ran, events, Threw);
      var running := Advance(ran, Threw);
      events := BodyIsARun(r, w, running, events, env);
      ran := Body(running, env);
    }
    if ran.worker.phase.Ending? {
      events := OneMore(r, w, ran, events, Threw);
    }
  }

  /** A life in which no hook fails and nobody calls `stop`, and that leaves its loop: the custom one, or
      the other because of an earlier stop. */
  predicate Untroubled(v: View, env: Surroundings) {
    && env.pre == Returned(0) && env.late == [] && env.during == [] && env.post == Returned(0)
    && if v.shared.custom then env.custom == Returned(0)
       else !v.shared.run && env.rounds != [] && env.rounds[0].stops == []
  }

  /** Nothing resets the exit code, so such a life takes over what an earlier one left: it ends in
      Stopped exactly if that is zero, and the code is its result. */
  lemma UntroubledLifeInheritsTheCode(v: View, env: Surroundings)
    requires v.worker.phase == Entering && Untroubled(v, env)
    ensures Life(v, env).shared.state == if v.shared.exitCode == 0 then Stopped else Error
    ensures Life(v, env).worker.phase == Promising(v.shared.exitCode)
  {
    LeavesAtOnce(Advance(Prepared(v, env.pre), Threw), env);
    LifeIsDecidedByTheCode(v, env);
  }

  lemma LeavesAtOnce(v: View, env: Surroundings)
    requires Untroubled(v, env) && v.worker.phase == if v.shared.custom then InCustom else AtTest
    ensures Main(v, env).worker.phase == Leaving && Main(v, env).shared.exitCode == v.shared.exitCode
  {
    if !v.shared.custom {
      assert Turn(v, env.rounds[0]) == Advance(v, Threw);
      assert Loop(v, env.rounds) == Loop(Advance(v, Threw), env.rounds[1..]);
      assert Loop(Advance(v, Threw), env.rounds[1..]) == Advance(v, Threw);
    }
  }

  /** A custom loop that returns the given value, with hooks that return zero. */
  function Returning(value: int): Surroundings {
    Surroundings(Returned(0), [], Returned(value), [], [], Returned(0))
  }

  lemma CustomLife(v: View, value: int)
    requires v.worker.phase == Entering && v.shared.custom && value != 0
    ensures Life(v, Returning(value)) ==
            View(v.shared.(exitCode := value, state := Error),
                 Worker(Promising(value), false, Said(LongTrace(v.worker.trace), Error), Some(value), v.worker.steps))
  {
    var running := Advance(Prepared(v, Returned(0)), Threw);
    var left := Advance(running, Returned(value));
    var ended := Advance(Advance(Advance(left, Threw), Threw), Returned(0));
    assert Body(running, Returning(value)) == ended;
  }

  function LongTrace(trace: Trace): Trace {
    Said(Said(Said(trace, Initialising), Running), Finalising)
  }

  /** A custom runner whose first worker failed, was waited for, and whose second one enters run(). */
  function Restarted(value: int): Runner {
    Runner(Shared(true, true, false, value, Error, Pending), Some(1), Some(value),
           [Worker(Finished(value), false, Said(FINALISED, Error), Some(value), 0),
            Worker(Entering, false, Silent, None, 0)])
  }

  lemma FailOnce(value: int) returns (events: seq<Event>)
    requires value != 0
    ensures Exec(New(true), events) ==
            Runner(Shared(true, true, false, value, Error, Pending), Some(0), None,
                   [Worker(Promising(value), false, Said(FINALISED, Error), Some(value), 0)])
  {
    events := Then(New(true), [], Start);
    events := Then(New(true), events, Work(0, Threw));
    var r := Exec(New(true), events);
    var life := LifeIsARun(r, 0, Returning(value));
    CustomLife(View(r.shared, r.workers[0]), value);
    ExecConcat(New(true), events, life);
    events := events + life;
  }

  lemma FailAndRestart(value: int) returns (events: seq<Event>)
    requires value != 0
    ensures Exec(New(true), events) == Restarted(value)
  {
    events := FailOnce(value);
    events := Then(New(true), events, Work(0, Threw));
    events := Then(New(true), events, Wait);
    events := Then(New(true), events, Start);
    events := Then(New(true), events, Work(1, Threw));
  }

  /** A run: the first worker returns a failure and is waited for; all hooks of the second one return
      zero, yet it ends in Error with the failure as its result. */
  lemma FailureIsInherited(value: int) returns (past: seq<Event>, events: seq<Event>)
    requires value != 0
    ensures Exec(New(true), past) == Restarted(value)
    ensures var r := Restarted(value);
            var s := Exec(r, events);
            && s == At(r, 1, Life(View(r.shared, r.workers[1]), Returning(0)))
            && s.shared.state == Error && s.workers[1].phase == Promising(value)
  {
    past := FailAndRestart(value);
    var r := Restarted(value);
    events := LifeIsARun(r, 1, Returning(0));
    UntroubledLifeInheritsTheCode(View(r.shared, r.workers[1]), Returning(0));
  }

  datatype TurnEnd = Again | Left | Failed

  /** The number that stands for the outcome of `run`. */
  function Value(o: Outcome): int {
    if o == Threw then -1 else o.value
  }

  lemma {:induction false} LoopKeepsClean(v: View, rounds: seq<Round>)
    ensures Loop(v, rounds).worker.clean == v.worker.clean
    decreases |rounds|
  {
    if rounds != [] && v.worker.phase == AtTest {
      StopsOnly(v, rounds[0].stops);
      LoopKeepsClean(Turn(v, rounds[0]), rounds[1..]);
    }
  }

  class ThreadRunner {
    const custom: bool
    var run: bool
    var quit: bool
    var exitCode: int
    var state: State
    var future: Future
    /** The worker inside `run`, as the interleaved system describes it. */
    ghost var worker: Worker

    function Members(): Shared
      reads this
    {
      Shared(custom, run, quit, exitCode, state, future)
    }

    ghost function Now(): View
      reads this
    {
      View(Members(), worker)
    }

    constructor (custom: bool)
      ensures Members() == New(custom).shared && worker == NEW_WORKER
    {
      this.custom := custom;
      run, quit, exitCode := true, false, 0;
      state, future := Initial, NoFuture;
      worker := NEW_WORKER;
    }

    method Stop(code: int)
      modifies this`run, this`quit, this`exitCode
      ensures Members() == StopShared(old(Members()), code)
    {
      run := false;
      quit := true;
      exitCode := code;
    }

    /** The controller gets its turn. */
    method Interrupt(codes: seq<int>)
      modifies this`run, this`quit, this`exitCode
      ensures Now() == Stops(old(Now()), codes)
    {
      for k := 0 to |codes|
        invariant Stops(Now(), codes[k..]) == Stops(old(Now()), codes)
      {
        assert codes[k..][1..] == codes[k + 1..];
        Stop(codes[k]);
      }
    }

    method SetState(next: State)
      modifies this`state
      ensures state == next
    {
      state := next;
    }

    /** One turn of the loop. */
    method OneTurn(round: Round) returns (end: TurnEnd)
      requires worker.phase == AtTest
      modifies this
      ensures Now() == Turn(old(Now()), round)
      ensures worker.phase == match end case Again => AtTest case Left => Leaving case Failed => Ending(-1)
    {
      StopsOnly(Now(), round.stops);
      Interrupt(round.stops);
      ghost var tested := Advance(Now(), Threw);
      worker := tested.worker;
      if !run { return Left; }
      worker := Advance(tested, round.outcome).worker;
      if round.outcome == Threw { return Failed; }
      if round.outcome.value != 0 {
        exitCode := round.outcome.value;
        return Left;
      }
      end := Again;
    }

    /** The loop of `run`; Again when the surroundings end inside it. */
    method RunLoop(rounds: seq<Round>) returns (end: TurnEnd)
      requires worker.phase == AtTest
      modifies this
      ensures Now() == Loop(old(Now()), rounds)
      ensures worker.phase == match end case Again => AtTest case Left => Leaving case Failed => Ending(-1)
    {
      var k := 0;
      end := Again;
      while end == Again && k < |rounds|
        invariant k <= |rounds|
        invariant worker.phase == match end case Again => AtTest case Left => Leaving case Failed => Ending(-1)
        invariant Loop(Now(), rounds[k..]) == Loop(old(Now()), rounds)
      {
        assert rounds[k..][1..] == rounds[k + 1..];
        end := OneTurn(rounds[k]);
        k := k + 1;
      }
    }

    /** From the end of the loop to the finalising check. */
    method Check(late: seq<int>) returns (clean: bool)
      requires worker.phase == Leaving
      modifies this
      ensures Now() == Checked(old(Now()), late)
      ensures clean == worker.clean && worker.phase == InPost
    {
      worker := Advance(Now(), Threw).worker;
      SetState(Finalising);
      StopsOnly(Now(), late);
      Interrupt(late);
      worker := Advance(Now(), Threw).worker;
      clean := exitCode == 0;
    }

    /** From the end of the loop to the result. */
    method Finish(late: seq<int>, during: seq<int>, post: Outcome) returns (result: Outcome, clean: bool)
      requires worker.phase == Leaving
      modifies this
      ensures Now() == Advance(Stops(Checked(old(Now()), late), during), post)
      ensures clean == worker.clean && worker.phase == Ending(Value(result))
    {
      clean := Check(late);
      StopsOnly(Now(), during);
      Interrupt(during);
      worker := Advance(Now(), post).worker;
      result := if post == Threw then Threw else Returned(post.value + exitCode);
    }

    /** What `run` does inside its try block from Running on; nothing when the surroundings end in
        the loop. */
    method Attempt(env: Surroundings) returns (result: Option<Outcome>, clean: bool)
      requires worker.phase == if custom then InCustom else AtTest
      requires !worker.clean
      modifies this
      ensures Now() == Body(old(Now()), env)
      ensures result == None ==> worker.phase == AtTest
      ensures result != None ==> clean == worker.clean && worker.phase == Ending(Value(result.value))
    {
      clean := false;
      if custom {
        worker := Advance(Now(), env.custom).worker;
        if env.custom == Threw { return Some(Threw), clean; }
        if env.custom.value != 0 { exitCode := env.custom.value; }
      } else {
        LoopKeepsClean(Now(), env.rounds);
        var end := RunLoop(env.rounds);
        if end == Again { return None, clean; }
        if end == Failed { return Some(Threw), clean; }
      }
      var outcome;
      outcome, clean := Finish(env.late, env.during, env.post);
      result := Some(outcome);
    }

    method Prepare(pre: Outcome)
      requires worker.phase == Entering
      modifies this
      ensures Now() == Advance(Advance(old(Now()), Threw), pre)
      ensures worker.clean == old(worker.clean)
      ensures worker.phase == if pre == Returned(0) then Starting else Ending(Value(pre))
    {
      worker := Advance(Now(), Threw).worker;
      SetState(Initialising);
      worker := Advance(Now(), pre).worker;
    }

    method BeginRunning()
      requires worker.phase == Starting
      modifies this
      ensures Now() == Advance(old(Now()), Threw)
      ensures worker.phase == (if custom then InCustom else AtTest) && worker.clean == old(worker.clean)
    {
      worker := Advance(Now(), Threw).worker;
      SetState(Running);
    }

    /** The guard of `run`, on every way out. */
    method Leave(clean: bool)
      requires worker.phase.Ending? && clean == worker.clean
      modifies this
      ensures Now() == Advance(old(Now()), Threw)
    {
      worker := Advance(Now(), Threw).worker;
      if clean { SetState(Stopped); } else { SetState(Error); }
    }

    /** `run`: the result, or nothing when the surroundings end in the loop. The guard sets the last
        state on every way out; an exception makes the result -1. */
    method Run(env: Surroundings) returns (result: Option<int>)
      requires worker.phase == Entering && !worker.clean
      modifies this
      ensures Now() == Life(old(Now()), env)
      ensures result == if worker.phase.Promising? then Some(worker.phase.value) else None
    {
      Prepare(env.pre);
      var attempt, clean := Some(env.pre), false;
      if env.pre == Returned(0) {
        BeginRunning();
        attempt, clean := Attempt(env);
        if attempt == None { return None; }
      }
      Leave(clean);
      result := Some(Value(attempt.value));
    }

    /** The promise of the worker is made, then kept. */
    method MakePromise()
      requires worker.phase == Spawned
      modifies this`future, this`worker
      ensures Now() == Advance(old(Now()), Threw)
    {
      worker := Advance(Now(), Threw).worker;
      future := Pending;
    }

    method KeepPromise(value: int)
      requires worker.phase == Promising(value)
      modifies this`future, this`worker
      ensures Now() == Advance(old(Now()), Threw)
    {
      worker := Advance(Now(), Threw).worker;
      future := Ready(value);
    }

    /** The body of the thread. */
    method Exec(env: Surroundings)
      requires worker == NEW_WORKER
      modifies this
      ensures var ran := Life(Advance(old(Now()), Threw), env);
              Now() == if ran.worker.phase.Promising? then Advance(ran, Threw) else ran
    {
      MakePromise();
      var value := Run(env);
      if value != None { KeepPromise(value.value); }
    }
  }
}

# A verified model of libmuonpi's stateful algorithms

libmuonpi is a C++ support library for detector stations. This project models the parts of it that
keep state or pack data, and proves what they promise. Where the code does something else than its
comments say, the model follows the code, a lemma gives a case in which they differ, and another
says exactly when they agree.

| file | what it models |
|---|---|
| `Sinks.dfy` | threaded sinks in a tree of collections, as an interleaved machine of micro-steps |
| `ThreadedSinks.dfy` | the same sinks as objects: the queue changed in place, the loop of one `step()`, the fan-out |
| `ThreadRunner.dfy` | the life of a runner: controller and workers interleaved, and `run()` as an object's method |
| `Triangle.dfy`, `UpperMatrix.dfy` | the triangular matrix: layout and permutations, and the vector changed in place |
| `Geohash.dfy` | the geohash by direct quantisation, and the bisection loop that computes it |
| `Coordinates.dfy` | earth-centred and local coordinates, and the straight distance |
| `Mqtt.dfy` | the MQTT link: back-off, retry counter, callbacks, registry of subscriptions |
| `Routing.dfy` | dispatch of HTTP requests over the tree of path handlers |
| `Message.dfy` | constructor and parser of delimited messages |
| `Statistics.dfy`, `DataSeries.dfy` | statistics of a window, their caches, and the measurement of rates |
| `Histogram.dfy` | histograms with bins of one width |
| `Reals.dfy`, `Wrappers.dfy` | sums and products of reals, and the option type, shared by the others |

`dafny verify dfyconfig.toml` checks everything.

## How the model is built

Each component has a description on values (functions, or a state machine with `Next` and `Exec`)
and, where the source changes things in place, a class or a loop whose methods are proved equal to
that description. What the source promises is proved of the description as lemmas: about every
input, every run, or every interleaving.

A run is a sequence of events. An event that is not enabled, because a lock is taken or a call would
block, changes nothing, so the sequences of events are exactly the interleavings. What threads,
clocks, the broker, hooks and library calls decide is part of the event. The state machines of sinks
and runner hold records (`history`, `steps`, `trace`, `seen`) that no step reads.

Assumptions:

- Sinks and runner: micro-steps are atomic and sequentially consistent; a timed wait returns without
  timeout only after a notification; the children of a collection are fixed, and in the tree they
  are distinct; a producer holds the lock until it has notified. Any worker may be started when
  parked, which includes all that `start()` allows. `process` may fail at any sink, collections
  included. The constructor of a sink starts its worker, and `pre_run()` of a sink does nothing.
- Runner: one controlling thread calls `start`, `join` and `wait`; any thread may call `stop`, whose
  three writes are separate steps. In `return post_run() + m_exit_code` the exit code is read after
  `post_run()` returned.
- MQTT: a callback, a call of the interface, and a stretch of `connect()` between two waits are each
  atomic, so no callback comes between the broker call and the new promise. The library reports the
  loss of a session before it reports the success of the next one; asking for a new connection ends
  the session. A call that waits for the status inside `check_connection` is one event at the end of
  that wait. Giving a value to a fulfilled promise throws after the other effects of the callback.
- Matrix: fewer than 2^32 columns, so that no product of indices wraps. `blank` is the
  value-initialised element. At uppermatrix.h:149 and 156 `position(m_columns, 0)` breaks the range
  that `position` asserts; the triangular number that its formula gives is used there.
- Geohash: reals instead of doubles are exact, because all boundaries are dyadic fractions of 90 and
  180 at most 30 levels deep. NaN is not modelled.
- Coordinates: an angle is a sine and a cosine whose squares add up to one; the conversions between
  geodetic and earth-centred coordinates and the square root are arbitrary functions.
- Routing: callbacks and the base64 decoder are pure functions, and a callback is always set. An
  authorization field shorter than six characters makes `substr` throw.
- Message: `*m_iterator` is read before it is compared with the end; at the end that reads the
  terminating zero of the string, which changes neither test.
- Statistics and histogram: reals instead of floating point. Square root, power and division by zero
  are arbitrary functions of their arguments, and an infinite or undefined result is just a value of
  theirs. Counters do not overflow, except in `integral()`, whose 32-bit accumulator is modelled.
- `std::sort` of the median gives the only ascending order there is; it is modelled by insertion.
- A calculation behind a cache captures the series in the source; here the window is its parameter.
  The calculations that ask other caches are methods, and hand their result to their own cache.

What differs from the comments in the source:

- `swap_last` does not exchange two indices unless the first is the last but one, and `remove_index`
  does not delete the elements of the index unless it is one of the last two
  (`SwapIsIndexExchangeIff`, `RemoveDeletesTheIndexIff`, `RemoveKeepsTheWrongElement`).
- Two slashes at the end of a target, such as "/a//", can make routing reject a request that its
  non-empty segments would route; one slash at the end never matters (`EmptySegmentsMatterIff`,
  `DoubleSlashIsRejected`, `OneSlashIsDropped`).
- A replayed subscription that the MQTT library refuses goes unnoticed (`AcceptanceCanBeLost`,
  `AllAcceptedIff`).
- `wait()` directly after `start()` can return -1 while the worker has yet to run
  (`WaitCanComeTooEarly`, `WaitIsEarlyIff`); it cannot once `state()` showed the worker on its way
  (`WaitAfterSeenRunning`).
- How a worker ends follows the last exit code written before its finalising check, by a failing hook
  or by `stop`, and nothing else (`EndsByLastCode`): a later `stop(0)` hides a failed step
  (`StopOverwritesFailure`), a `stop(5)` whose code is written late ends in Stopped
  (`StopCodeCanComeTooLate`), and so does an exception in `post_run()` (`PostRunComesTooLate`).
  Nothing resets the exit code, so a runner started again after a failure ends in Error although its
  hooks succeed (`FailureIsInherited`, `UntroubledLifeInheritsTheCode`).
- The number of retries bounds one call of `connect()` only while no successful callback resets the
  counter (`ConnectIsBounded`, `ResetsMakeItUnbounded`).
- The geometric mean multiplies onto zero (`GeometricProductOfTwo`, `GeometricProductIff`), `rms` adds
  squares in an integer (`RmsOfOneHalf`, `RmsIsExactIff`), and `median` looks past the middle of an even
  number of values and throws for two (`MedianIff`).
- The histogram's `mean` and `mode` leave out the lower bound, and are right exactly if it is zero
  (`MeanHoldsIff`, `Histogram.Mode`); `reset(n)` keeps bounds and width (`ResizeIsSafeIff`).
- The fields of a message come back only if none is empty or holds the delimiter (`RoundTripIff`).

## Model

| member | source | states |
|---|---|---|
| Sinks.NextKeepsInv | include/muonpi/sink/base.h:144-220 | every micro-step of any producer, worker or stopper keeps: pushed = processed, in hand, queued at each node; a child got what its parent processed, up to the item under way; a worker that goes to pop finds an item |
| Sinks.ForwardKeepsInv | include/muonpi/sink/base.h:213-220 | handing an item to the next child keeps that invariant for the node, the child and all siblings |
| Sinks.EveryInterleaving | include/muonpi/sink/base.h:144-183 | in every interleaving, at each node the items pushed are those processed, in hand and queued, in lock order, and `front`/`pop` never run on an empty queue, even when a push or stop falls between the emptiness test and the wait |
| Sinks.Conservation | include/muonpi/sink/base.h:144-220 | in any tree and interleaving, what a node processed, holds and queues followed by what is under way on its path to the root is exactly what was pushed at the root, so each node has an ordered prefix without duplicates |
| Sinks.QuietMeansDelivered | include/muonpi/sink/base.h:207-220 | when nothing is queued or in hand anywhere, every node has processed everything pushed at the root |
| Sinks.StopIsFinal | include/muonpi/sink/base.h:152-183 | once `m_run` is cleared, in every continuation with restarts, no further `step()` begins and at most the rest of one batch, never more than ten items, is processed |
| Sinks.NextChild | include/muonpi/sink/base.h:216-218 | the fan-out loop takes the children in order and skips none |
| Sinks.WaitingItemIsProcessed | include/muonpi/sink/base.h:152-183 | in every continuation without stop or failure at a node, its oldest waiting item is given to `process` before its worker has made more than a bounded number of moves, also an item whose notification fell between the emptiness test and the wait |
| Sinks.StuckIff | include/muonpi/sink/base.h:157-169 | a worker is stuck exactly while it waits without a signal and has time left, and while a pusher holds the lock that it needs |
| Sinks.NotifyWakes | include/muonpi/sink/base.h:145-150 | the notification of a pusher signals a waiting worker and frees the lock |
| Sinks.SignalledInSameStep | include/muonpi/sink/base.h:157-173 | a signalled worker that is not stopped gives its item to `process` in the same `step()`, in every continuation without timeouts and failures of it |
| Sinks.LockIsHeld | include/muonpi/sink/base.h:147-169 | the lock of a node is taken by exactly a push and held until that push has notified; meanwhile nobody pushes or pops |
| Sinks.EndsIff | include/muonpi/sink/base.h:152-183 | a worker ends exactly where it finds `m_run` cleared, or where a call of `process` fails: after the timeout, with all children served, or at the end of the step |
| Sinks.FailureIsFinal | include/muonpi/sink/base.h:173-176 | after such a failure, in every continuation without another start, the node processes nothing more and begins no step |
| Sinks.UntilStartAndStop | src/threadrunner.cpp:173-181 | in every run a node that was never started processes nothing, and `m_run` stays set until a stop |
| Sinks.StopTakesEffect | src/threadrunner.cpp:18-25 | the three steps of `stop()` clear `m_run`, set `m_quit` and wake a worker that waits |
| Sinks.StoppedWorkerEnds | include/muonpi/sink/base.h:152-183 | once `m_run` is cleared, in every continuation without another start, the worker has ended when it has made a bounded number of its own moves |
| Sinks.RootHistory | include/muonpi/sink/base.h:144-150 | in every run, what was pushed at the root are the items of those producers that found its lock free, in that order |
| Sinks.DeliveredEndToEnd | include/muonpi/sink/base.h:144-220 | without stop or failure on the way from the root to a node, after a run in which the workers on that way make a bounded number of moves one after the other, the node has processed all that was pushed at the root before, in order, whatever happens in between |
| ThreadedSinks.StepOk | include/muonpi/sink/base.h:152-183 | one whole `step()` with arrivals during it loses, duplicates and reorders nothing |
| ThreadedSinks.StepMeaning | include/muonpi/sink/base.h:152-183 | a `step()` processes nothing exactly when the wait timed out or `m_quit` is set, otherwise one to ten items, up to the first failure, and fewer than ten without failure only if the queue was seen empty |
| ThreadedSinks.StepEnds | include/muonpi/sink/base.h:152-183 | the worker goes back to the head of its loop exactly if what the step returns is zero |
| ThreadedSinks.BeginMeaning | include/muonpi/sink/base.h:157-162 | a step goes to its loop exactly unless `m_quit` is set or the wait timed out, and the failure of `process()` after a timeout ends the worker |
| ThreadedSinks.DrainMeaning | include/muonpi/sink/base.h:164-178 | which turn of the drain loop is the last one, and why |
| ThreadedSinks.WaitMeaning | include/muonpi/sink/base.h:157-159 | the wait ends in a timeout exactly if it is late or neither item nor stop came during it; items that came before or during it are queued in order |
| ThreadedSinks.ThreadedSink.InternalGet | include/muonpi/sink/base.h:145-150 | the item is last in the queue and in the history, and a waiting worker is signalled |
| ThreadedSinks.ThreadedSink.DrainItems | include/muonpi/sink/base.h:164-178 | the do-while loop over the queue is the drain of the machine; the result is the value of the last call of `process(item)`, the first that fails if one does |
| ThreadedSinks.ThreadedSink.Step | include/muonpi/sink/base.h:153-183 | the method that changes the queue in place does the composition of micro-steps and returns the value of the failing `process(item)`, otherwise that of `process()`, and zero if `m_quit` is set before the loop |
| ThreadedSinks.Collection.Process | include/muonpi/sink/base.h:214-220 | each of the sinks gets the item at the end of its queue, as often as it is listed, and the result is zero |
| ThreadRunner.NextKeepsInv | src/threadrunner.cpp:18-181 | every step of controller, worker or caller of `stop` keeps: only the latest worker can be alive and the handle stands for it, its state is the shared state, the future is its future, pending exactly from its first step to its last |
| ThreadRunner.OneWorkerAlive | src/threadrunner.cpp:27-36 | in every run of start, stop, join, wait and workers, two workers are never alive together |
| ThreadRunner.EveryLife | src/threadrunner.cpp:76-132 | in every run a finished worker went through Initialising, perhaps Running, perhaps Finalising, in this order, then set one last state: Stopped exactly if it came to the check and the exit code was zero there, otherwise Error |
| ThreadRunner.FailedPreRunEnds | src/threadrunner.cpp:90-94 | in every run, a worker whose `pre_run()` fails begins no step, sets nothing but Initialising and Error, and returns that value, or -1 if it throws |
| ThreadRunner.ThrowingHookEnds | src/threadrunner.cpp:125-131 | in every run, a worker whose hook throws returns -1 and goes on with nothing; its last state is Error, unless `post_run()` threw after a check that saw zero |
| ThreadRunner.StartIff | src/threadrunner.cpp:173-180 | in every run `start()` creates a worker exactly when no thread is left to be joined |
| ThreadRunner.JoinAllowsRestart | src/threadrunner.cpp:27-36 | in every run, once the latest worker has finished, `join()` releases the thread and changes nothing else, and the next `start()` creates a worker |
| ThreadRunner.WaitAllowsRestart | src/threadrunner.cpp:62-69 | the same for `wait()`, which takes the result with it |
| ThreadRunner.JoinBlocksOnTheLiving | src/threadrunner.cpp:27-36 | in every run, `join()` blocks until the latest worker has finished |
| ThreadRunner.WaitReturnsTheResult | src/threadrunner.cpp:62-69 | in every run `wait()` on a valid future returns what the latest worker returned |
| ThreadRunner.WaitCanComeTooEarly | src/threadrunner.cpp:64-66 | start, then wait: -1 at once with the worker still to run |
| ThreadRunner.WaitIsEarlyIff | src/threadrunner.cpp:62-69 | in every run, `wait()` returns while a worker is alive exactly if that worker has not made its future and no earlier result is left |
| ThreadRunner.SeenRunningMeansWaitBlocks | src/threadrunner.cpp:62-69 | in every run, a state after Initial means that the future is made and `wait()` blocks |
| ThreadRunner.WaitAfterSeenRunning | src/threadrunner.cpp:62-69 | in every run, once `state()` showed a state after Initial, the next `wait()` returns, if at all, the result of that worker |
| ThreadRunner.StopIsForGood | src/threadrunner.cpp:18-25 | after `stop()`, in every continuation with further starts, no worker begins another `step()`, as nothing sets `m_run` again |
| ThreadRunner.QuitMeansStopped | src/threadrunner.cpp:18-22 | in every run `m_quit` is set only after `m_run` was cleared |
| ThreadRunner.CodeIsLastWritten | src/threadrunner.cpp:18-25 | in every interleaving after the loop, until the result is formed, the exit code is the one the latest `stop` wrote, or the one with which the loop was left |
| ThreadRunner.EndsByLastCode | src/threadrunner.cpp:110-124 | in every run and interleaving, a worker past its loop ends in Stopped exactly if zero was the last code written before its finalising check |
| ThreadRunner.StopOverwritesFailure | src/threadrunner.cpp:110-124 | after a failed step, with any stops anywhere before the check, the failure is hidden exactly if the last code they wrote is zero |
| ThreadRunner.StopCodeCanComeTooLate | src/threadrunner.cpp:20-22 | a run of `stop(5)` whose worker is through its check before the code is written: Stopped, with result 5 |
| ThreadRunner.PostRunComesTooLate | src/threadrunner.cpp:122-131 | in every run, nothing after the check, neither the outcome of `post_run()` nor a stop, changes the last state |
| ThreadRunner.ResultIsByLastCode | src/threadrunner.cpp:124-131 | in every run, the result is that of `post_run()` plus the last code written before it returned, or -1 |
| ThreadRunner.LifeIsDecidedByTheCode | src/threadrunner.cpp:76-132 | for `run()` with its surroundings: the last state by the last stop before the check, or else what the loop left; the result by the last stop before `post_run()` returned |
| ThreadRunner.UntroubledLifeInheritsTheCode | src/threadrunner.cpp:110-124 | a life in which no hook fails and nobody stops ends in Stopped exactly if the exit code it found was zero, and that code is its result |
| ThreadRunner.FailureIsInherited | src/threadrunner.cpp:76-132 | a run: a worker fails and is waited for, the runner is started again, all hooks return zero, and it ends in Error with the old failure as result |
| ThreadRunner.LifeEnds | src/threadrunner.cpp:76-132 | a worker stays in its loop exactly when `pre_run()` returned zero, there is no custom loop and no round was stopped or failed; otherwise it reaches its last state |
| ThreadRunner.LifeIsARun | src/threadrunner.cpp:76-132 | what `run()` does with its surroundings is one of the runs of the interleaved system |
| ThreadRunner.ThreadRunner.RunLoop | src/threadrunner.cpp:110-117 | the loop over `step()` is the loop of the description, left by a stop, a failure or an exception |
| ThreadRunner.ThreadRunner.Check | src/threadrunner.cpp:119-122 | Finalising is set, stops arrive, and `clean` is what the exit code says then |
| ThreadRunner.ThreadRunner.Run | src/threadrunner.cpp:76-132 | the method with its exits and its guard does the composition of single steps and returns the value that the promise gets |
| ThreadRunner.ThreadRunner.Exec | src/threadrunner.cpp:134-141 | the future is made before `run()` and fulfilled with its result after it |
| Triangle.PositionFormula | include/muonpi/analysis/uppermatrix.h:88-98 | the row-by-row place of a pair is the closed formula in the source |
| Triangle.PositionInjective | include/muonpi/analysis/uppermatrix.h:88-98 | two pairs share a place exactly if they are the same unordered pair |
| Triangle.PositionIsBijective | include/muonpi/analysis/uppermatrix.h:88-98 | `position` is symmetric and a bijection from the unordered pairs below n onto the places below n(n-1)/2, with `PairAt` as inverse |
| Triangle.SwappedMultiset | include/muonpi/analysis/uppermatrix.h:172-190 | `swap_last` loses and duplicates no element |
| Triangle.SwappedCell | include/muonpi/analysis/uppermatrix.h:172-190 | what each pair holds after both loops, as one permutation `SwapSource` of the old pairs, the 3-cycle included |
| Triangle.SwapKeepsOthers | include/muonpi/analysis/uppermatrix.h:172-190 | pairs that avoid both indices stay |
| Triangle.SwapIsIndexExchangeIff | include/muonpi/analysis/uppermatrix.h:172-190 | it is the exchange of two indices exactly when `first` is the last but one |
| Triangle.RemovedCell | include/muonpi/analysis/uppermatrix.h:140-162 | what each surviving pair holds after `remove_index`, by the permutation `RemoveSource` |
| Triangle.RemoveKeeps | include/muonpi/analysis/uppermatrix.h:140-162 | the last index: all other pairs stay; the last but one: the last index takes its name; always: pairs without the removed and the last two indices stay |
| Triangle.RemoveDeletesTheIndexIff | include/muonpi/analysis/uppermatrix.h:152-161 | only elements of the removed index disappear, and all of them do, exactly when it is one of the last two |
| Triangle.RemoveKeepsTheWrongElement | include/muonpi/analysis/uppermatrix.h:152-161 | three columns, index 0: the element of (2,0) survives in the place of that of (2,1) |
| Triangle.VisitsAreThePairs | include/muonpi/analysis/uppermatrix.h:206-214 | the places visited for an index are the n-1 pairs that contain it, each once |
| Triangle.AfterVisitsCell | include/muonpi/analysis/uppermatrix.h:206-214 | after the visits below y, exactly the elements of the pairs of the index with smaller ones went through the callback, each once |
| UpperMatrix.Matrix.constructor | include/muonpi/analysis/uppermatrix.h:115-120 | n columns and n(n-1)/2 initial elements |
| UpperMatrix.Matrix.Increase | include/muonpi/analysis/uppermatrix.h:164-170 | one more index, its pairs hold the initial element, all other pairs keep theirs |
| UpperMatrix.Matrix.At | include/muonpi/analysis/uppermatrix.h:125-129 | the element of the unordered pair |
| UpperMatrix.Matrix.Emplace | include/muonpi/analysis/uppermatrix.h:131-138 | exactly the cell of the unordered pair changes; nothing does without cells |
| UpperMatrix.Matrix.Reset | include/muonpi/analysis/uppermatrix.h:192-197 | no columns and no elements |
| UpperMatrix.Matrix.SwapLast | include/muonpi/analysis/uppermatrix.h:172-190 | both in-place loops together do the permutation of `Triangle.Swapped`; nothing happens from the last index on; without columns a nonzero index throws |
| UpperMatrix.Matrix.RemoveIndex | include/muonpi/analysis/uppermatrix.h:140-162 | swap, shrink and swap back do `Triangle.Removed`, the length stays the triangular number, an index out of range changes nothing |
| UpperMatrix.Matrix.Iterate | include/muonpi/analysis/uppermatrix.h:205-214 | the callback is applied once to each cell of a pair with the index, in order, and to no other |
| Geohash.Bisect | include/muonpi/gnss.h:232-252 | comparing with the middle of a cell gives the next bit of the cell number, and the half kept is the next cell |
| Geohash.CellMeaning | include/muonpi/gnss.h:231-252 | a point has a cell number exactly if it lies between the cell's boundaries, the upper end of the axis counting to the last cell |
| Geohash.ScaledFormula | include/muonpi/gnss.h:214-217 | the scaled coordinate is (v - low) * 2^k / span |
| Geohash.HashBitIsLevelBit | include/muonpi/gnss.h:226-261 | the bits of a point do not depend on how many are asked for |
| Geohash.HashIsLevelHash | include/muonpi/gnss.h:231-261 | interleaving the two quantised coordinates gives, character by character, the bits of the bisection levels |
| Geohash.BisectInTurn | include/muonpi/gnss.h:226-262 | the loop with its bounds, bit counter and index computes those characters |
| Geohash.FromGeodetic | include/muonpi/gnss.h:210-263 | the result is the interleaving of the directly quantised longitude and latitude, its characters have the values of the five-bit groups; min(precision, 12) characters for -180 <= lon <= 180 and -90 <= lat <= 90, none otherwise |
| Geohash.QuantisedDegrees | include/muonpi/gnss.h:210-217 | the cell numbers are floor((lon+180)*2^k/360) and floor((lat+90)*2^k/180), at most 2^k-1 |
| Geohash.AlphabetIsByValue | include/muonpi/gnss.h:68 | the 32 characters are the digits, then the letters from b to z without i, l and o, each at the place of its value |
| Geohash.CharactersAreDigits | include/muonpi/gnss.h:255-260 | each character of a hash stands for five bits of the interleaving |
| Geohash.HashOfARegion | include/muonpi/gnss.h:210-263 | all points from 45 degrees north on, and from 0 to below 45 degrees east, have the hash "u" of one character |
| Geohash.ShorterIsPrefix | include/muonpi/gnss.h:210-263 | a shorter hash of a point is a prefix of a longer one |
| Geohash.SameHashIffSameCell | include/muonpi/gnss.h:210-263 | two points share a hash exactly if they share the cell on both axes |
| Coordinates.MutualInverses | include/muonpi/gnss.h:143-173 | both conversions at one reference undo each other, for every reference |
| Coordinates.AxesAreEastNorthUp | include/muonpi/gnss.h:143-173 | the local axes: a point on the vertical of the reference has only a height, the first axis is horizontal towards growing longitudes, the second climbs towards the pole |
| Coordinates.EnuKeepsLength | include/muonpi/gnss.h:161-173 | the squared length of local coordinates is the squared distance from the reference |
| Coordinates.EnuKeepsDistances | include/muonpi/gnss.h:161-173 | the distance of any two points is kept |
| Coordinates.GeodeticRoundTrip | include/muonpi/gnss.h:155-179 | geodetic to local and back is geodetic to earth-centred and back |
| Coordinates.DistanceIsSymmetric | include/muonpi/gnss.h:203-208 | `straight_distance` is the root of the squared earth-centred distance, symmetric, and of zero exactly for one point |
| Mqtt.ConnectedMeansSubscribed | src/link/mqtt.cpp:93-142 | in every run, whenever the status is Connected a session is open and every registered topic was requested in it |
| Mqtt.AcceptanceIsLostIff | src/link/mqtt.cpp:104-109 | that the library also accepted the requests is lost exactly by a replay in which it refuses a registered topic |
| Mqtt.AllAcceptedIff | src/link/mqtt.cpp:93-109 | in every run, while Connected all registered topics are accepted exactly if the latest replay since the last shutdown refused none registered then |
| Mqtt.AcceptedWithoutRefusals | src/link/mqtt.cpp:93-109 | a run in which no replay refuses a registered topic keeps all of them accepted |
| Mqtt.AcceptanceCanBeLost | src/link/mqtt.cpp:93-109 | a run that connects, registers a topic, loses the session and reconnects with a refused replay: Connected, registered, not accepted |
| Mqtt.ConnectIsBounded | src/link/mqtt.cpp:288-326 | entered with t tries and no resetting callback: at most R-t broker calls and future waits, R-t+1 status waits, t+...+R seconds of back-off |
| Mqtt.ResetsMakeItUnbounded | src/link/mqtt.cpp:102-104 | with successful callbacks that reset the counter one call makes any number of broker calls |
| Mqtt.ConnectTerminates | src/link/mqtt.cpp:288-326 | such a call makes at most a fixed number of steps, whatever else happens |
| Mqtt.GivenUpMeansNoAttempt | src/link/mqtt.cpp:306-310 | after giving up, no call asks the broker again until a successful callback resets the counter |
| Mqtt.BoundsAreReached | src/link/mqtt.cpp:288-326 | all four bounds are attained: a run in which the broker never accepts makes exactly that many calls and waits |
| Mqtt.RefusalGoesOn | src/link/mqtt.cpp:93-128 | in every run in which the broker never accepts, a refusal or a timeout sends the worker back into the back-off, and nothing else ends its wait |
| Mqtt.AnswerDecides | src/link/mqtt.cpp:100-128 | a refusal of a pending attempt makes `connect()` start again with the status Error and its tries kept; an acceptance ends it with Connected and no tries |
| Mqtt.AnswerIsFetched | src/link/mqtt.cpp:319-325 | an answer is fetched once; after a timeout the old future stays |
| Mqtt.LookingSpendsATryIff | src/link/mqtt.cpp:293-304 | a look at the connection spends one try exactly if it finds the link not connected |
| Mqtt.AttemptEnds | src/link/mqtt.cpp:302-326 | how an attempt ends in each of its branches |
| Mqtt.BecomesConnectedIff | src/link/mqtt.cpp:97-109 | the status becomes Connected exactly by a success that an attempt asked for |
| Mqtt.LeavesConnectedIff | src/link/mqtt.cpp:93-142 | it stays Connected exactly until the connection ends, an attempt begins, an awaited refusal arrives, or the link shuts down |
| Mqtt.EndOfConnection | src/link/mqtt.cpp:130-142 | a connection that ends leaves no session, and Disconnected if that was asked for, otherwise Error unless it had ended before |
| Mqtt.RegistryStep | src/link/mqtt.cpp:268-286 | a topic is registered exactly by an accepted request while Connected |
| Mqtt.Shutdown | src/link/mqtt.cpp:169-184 | what shutting down leaves of registry, session and status |
| Mqtt.MqttLink.CallbackConnected | src/link/mqtt.cpp:93-128 | with a future: status, counter, replay of every registered topic, and the promise gets true for a success and false for every other result; without one nothing but the session |
| Mqtt.MqttLink.CallbackDisconnected | src/link/mqtt.cpp:130-142 | the status after an expected or unexpected end; the invariant of the registry stays |
| Mqtt.MqttLink.Subscribe | src/link/mqtt.cpp:268-286 | a topic is registered only after a request was accepted while connected; every refusal is an exception |
| Mqtt.MqttLink.PostRun | src/link/mqtt.cpp:169-184 | clearing the registry unsubscribes each topic if connected, then disconnects; -1 if that fails |
| Mqtt.MqttLink.BackoffEnded | src/link/mqtt.cpp:293-300 | what `connect()` does after its back-off in each status |
| Mqtt.MqttLink.AttemptConnect | src/link/mqtt.cpp:302-326 | counting, giving up, asking the broker, and the next wait or the recursive call |
| Mqtt.MqttLink.AwaitEnded | src/link/mqtt.cpp:319-325 | a true future ends the call, a false one or a timeout starts it again |
| Routing.SplitRejoins | src/http_server.cpp:103-109 | splitting at slashes loses nothing but whether the target ended in one |
| Routing.SplitTarget | src/http_server.cpp:103-109 | the reading loop fills the queue with the parts |
| Routing.Handle | src/http_server.cpp:94-112 | the three overloads together compute `Route`: checks, then the descent, judged by the handlers on it |
| Routing.HandleSiblings | src/http_server.cpp:114-130 | skipping empty segments and searching gives the first match or an error |
| Routing.HandleOne | src/http_server.cpp:132-160 | authentication, then the handler's callback or its children |
| Routing.RouteIsTheDescent | src/http_server.cpp:114-160 | the descent takes a chain of handlers to a stop exactly if each is the first matching sibling for the next non-empty segment and it stops where a handler has no children or nothing more to give, no segment is left, or no sibling matches |
| Routing.HandlerRunsIff | src/http_server.cpp:114-160 | a callback runs, with what is left of the path, exactly if its handler ends such a chain and every handler on it that demands authentication accepted the user and the password that the request carries |
| Routing.FirstRefusalDecides | src/http_server.cpp:136-153 | otherwise the first handler on the chain that refuses gives the answer: no field, a field too short to decode, or the name whose credentials it rejects |
| Routing.RefusalMeaning | src/http_server.cpp:136-153 | which request passes a handler, and which refusal it gets otherwise, in terms of the field, the decoded name and password, and `authenticate` |
| Routing.HandledMeansAuthenticated | src/http_server.cpp:132-160 | a request that a handler answers was authenticated at every handler on its way that demands it |
| Routing.RouteMeaning | src/http_server.cpp:94-101 | a target is malformed exactly if it is empty, does not begin with a slash or holds two dots in a row; otherwise only an empty list of handlers is answered at once |
| Routing.CredentialsRoundTrip | src/http_server.cpp:146-148 | name and password are read back exactly if the name has no colon |
| Routing.PartsHaveNoSlash | src/http_server.cpp:106-108 | no part of a target holds a slash |
| Routing.LastPartIsEmptyIff | src/http_server.cpp:103-109 | the last part of a target is empty exactly for a single slash and for two slashes at the end |
| Routing.OneSlashIsDropped | src/http_server.cpp:103-109 | one slash at the end of a target makes no difference |
| Routing.EmptySegmentsMatterIff | src/http_server.cpp:94-130 | for a well-formed target, leaving out its empty segments changes neither handler nor error, for all handlers, exactly unless it ends in two slashes and holds anything else |
| Routing.DoubleSlashIsRejected | src/http_server.cpp:94-130 | of one segment with nothing, one slash or two slashes after it, a tree answers the first two and rejects the third |
| Message.SpansAreAllRuns | src/utility.cpp:48-73 | the spans of the parser are all maximal runs without a delimiter, in order |
| Message.AllRunsIsUnique | src/utility.cpp:48-73 | no other list of spans has that property |
| Message.TextsOfSpans | src/utility.cpp:85-88 | the texts of the spans are the recursively defined fields |
| Message.FieldsOfConcat | src/utility.cpp:25-31 | a delimiter separates for good: the fields of both sides, one after the other |
| Message.ParseOfConstruct | src/utility.cpp:25-73 | parsing a constructed message gives the concatenation of parsing each field alone |
| Message.ConstructIsJoined | src/utility.cpp:25-31 | the message is its fields with exactly one delimiter between neighbours, empty fields at the front left out |
| Message.PlainFieldsComeBack | src/utility.cpp:25-73 | fields without the delimiter come back in order, without the empty ones |
| Message.RoundTripIff | src/utility.cpp:25-73 | a field list comes back unchanged exactly if no field is empty or holds the delimiter |
| Message.RebuiltMessage | src/utility.cpp:25-73 | a message rebuilt from the fields of any text has those same fields |
| Message.MessageConstructor.AddField | src/utility.cpp:25-31 | the message is the construction from all fields added so far |
| Message.MessageParser.constructor | src/utility.cpp:38-46 | the loop ends at the end of the content with exactly the maximal runs recorded |
| Message.MessageParser.ReadField | src/utility.cpp:55-67 | one field is recorded if there is one, and what is recorded and what is left stay the fields of the content |
| Message.MessageParser.Field | src/utility.cpp:85-88 | the index operator gives the field of that number |
| Message.MessageParser.Size | src/utility.cpp:75-78 | the number of fields |
| Statistics.VarianceIdentity | include/muonpi/analysis/dataseries.h:149-160 | variance times its divisor is the sum of squares less n times the squared mean, with divisor n, or n-1 for a sample of at least two |
| Statistics.VarianceSign | include/muonpi/analysis/dataseries.h:140-160 | the variance is never negative, and zero exactly if all values are equal |
| Statistics.DeviationIsRoot | include/muonpi/analysis/dataseries.h:140-147 | for a square root that is one, the squared deviation times the divisor is the sum of squares less n times the squared mean |
| Statistics.SampleAndPopulation | include/muonpi/analysis/dataseries.h:149-160 | the variance of a sample times n-1 and that of a population times n are the same sum of squared distances from the mean |
| Statistics.NothingGivesZero | include/muonpi/analysis/dataseries.h:110-169 | every statistic of an empty window is zero |
| Statistics.MedianIff | include/muonpi/analysis/dataseries.h:121-138 | `median` throws exactly for two values; otherwise it is never below the median, and it is the median exactly for an odd number of values or when the sorted values around the upper middle are the same |
| Statistics.RmsIsExactIff | include/muonpi/analysis/dataseries.h:162-169 | the integer running total makes the mean square at most one too small, and exact exactly if every square is an integer |
| Statistics.GeometricProductIff | include/muonpi/analysis/dataseries.h:113-115 | the product from zero is zero, and the true product exactly if the window holds a zero |
| Statistics.GeometricMeanIsRootOfZero | include/muonpi/analysis/dataseries.h:113-115 | so the geometric mean is the n-th root of zero for every window of n values |
| Statistics.GeometricProductOfTwo | include/muonpi/analysis/dataseries.h:113-115 | for the value 2 alone the product is zero |
| Statistics.RmsOfOneHalf | include/muonpi/analysis/dataseries.h:162-169 | for the value 0.5 alone the rms is the root of zero |
| Statistics.HarmonicMeaning | include/muonpi/analysis/dataseries.h:115-117 | the harmonic mean times the sum of the inverses is the number of values |
| Statistics.HarmonicAtMostArithmetic | include/muonpi/analysis/dataseries.h:113-118 | for positive values the harmonic mean is at most the arithmetic mean |
| DataSeries.CachedValue.Get | include/muonpi/analysis/cachedvalue.h:35-42 | the result is the calculation for the parameters of the first call since the last mark |
| DataSeries.CachedValue.Keep | include/muonpi/analysis/cachedvalue.h:37-40 | the cache holds a calculated value and what it was calculated for |
| DataSeries.CachedValue.MarkDirty | include/muonpi/analysis/cachedvalue.h:53-56 | the next `get` calculates |
| DataSeries.Series.Add | include/muonpi/analysis/dataseries.h:206-217 | the window stays the last values added since the reset, at most as many as its capacity, and no cache is left stale |
| DataSeries.Series.Reset | include/muonpi/analysis/dataseries.h:273-280 | the window is empty and no cache is left stale |
| DataSeries.Series.ResetTo | include/muonpi/analysis/dataseries.h:282-287 | the same with another capacity |
| DataSeries.Series.Mean | include/muonpi/analysis/dataseries.h:232-241 | each mean equals recomputation on the window |
| DataSeries.Series.Variance | include/muonpi/analysis/dataseries.h:149-160 | equals recomputation on the window, though it asks the cache of the mean |
| DataSeries.Series.Stddev | include/muonpi/analysis/dataseries.h:140-147 | equals recomputation on the window, through two nested caches |
| DataSeries.Series.Rms | include/muonpi/analysis/dataseries.h:162-169 | equals recomputation on the window |
| DataSeries.Series.Median | include/muonpi/analysis/dataseries.h:121-138 | equals recomputation on the window; an exception leaves the cache as it was |
| DataSeries.Series.Current | include/muonpi/analysis/dataseries.h:267-271 | the latest value added |
| DataSeries.RateMeasurement.IncreaseCounter | include/muonpi/analysis/ratemeasurement.h:61-65 | one more event, counted once |
| DataSeries.RateMeasurement.Step | include/muonpi/analysis/ratemeasurement.h:73-83 | exactly when the interval has passed, the rate is recorded once in the series and the count starts again, otherwise nothing changes |
| DataSeries.RatesAreConserved | include/muonpi/analysis/ratemeasurement.h:61-83 | the recorded rates times the interval are the events counted less those in progress; the series holds the latest of the rates, as many as were added since its reset and fit; k rates take at least k intervals |
| Histogram.BinIsInterval | include/muonpi/analysis/histogram.h:200-209 | a value falls into bin i exactly if it lies between the edges of bin i, the upper one excluded |
| Histogram.AcceptedHasBin | include/muonpi/analysis/histogram.h:200-209 | every accepted value has a bin within the vector |
| Histogram.ResizeIsSafeIff | include/muonpi/analysis/histogram.h:252-257 | after `reset(n)` every accepted value still has a bin exactly if n did not shrink |
| Histogram.BinsCount | include/muonpi/analysis/histogram.h:191-209 | each bin holds the number of accepted values in its half-open interval |
| Histogram.TotalIsAccepted | include/muonpi/analysis/histogram.h:191-209 | the bins add up to the number of accepted values |
| Histogram.MeanIsNear | include/muonpi/analysis/histogram.h:297-309 | with the lower bound added, `mean` is within half a width of the true mean of the accepted values; it is undefined exactly if there are none |
| Histogram.MeanHoldsIff | include/muonpi/analysis/histogram.h:297-309 | `mean` as it stands is within half a width for all series of values exactly if the lower bound is zero |
| Histogram.IntegralIsExactIff | include/muonpi/analysis/histogram.h:239-243 | `integral` is the number of entries exactly while that is below 2^31 |
| Histogram.IntegralWraps | include/muonpi/analysis/histogram.h:239-243 | what it returns for the totals beyond, up to 2^32 + 2^31 |
| Histogram.PercentileMeaning | include/muonpi/analysis/histogram.h:318-332 | for a share of at most one the result is the edge of the bin in which the wanted number of accepted values is reached |
| Histogram.PercentileBeyond | include/muonpi/analysis/histogram.h:318-332 | when more entries are wanted than there are, the result is the upper bound |
| Histogram.Portion | include/muonpi/analysis/histogram.h:320-321 | the wanted number is the largest whole number not above the share of the total |
| Histogram.BinWidthMeaning | include/muonpi/analysis/histogram.h:181-189 | n widths are the distance of the bounds; without bins the division by zero decides |
| Histogram.Histogram.FromWidth | include/muonpi/analysis/histogram.h:171-179 | empty bins that reach from zero exactly to the upper bound |
| Histogram.Histogram.FromBounds | include/muonpi/analysis/histogram.h:181-189 | empty bins that reach exactly from bound to bound; without bins, fit for use exactly if the bounds accept nothing |
| Histogram.Histogram.Add | include/muonpi/analysis/histogram.h:199-209 | the bins stay the tally of all values offered since the reset |
| Histogram.Histogram.Fill | include/muonpi/analysis/histogram.h:191-197 | the same for a series of values in order |
| Histogram.Histogram.QualifiedBins | include/muonpi/analysis/histogram.h:217-231 | bin i with its two edges, though these are added up one by one |
| Histogram.Histogram.Integral | include/muonpi/analysis/histogram.h:239-243 | the sum with the wrap-around of its 32-bit accumulator |
| Histogram.Histogram.Mean | include/muonpi/analysis/histogram.h:297-309 | the loop computes the weighted mean of the middles, or nothing for zero entries |
| Histogram.Histogram.Percentile | include/muonpi/analysis/histogram.h:318-332 | the loop returns the edge of the first bin that reaches the wanted number, or the upper bound |
| Histogram.Histogram.Mode | include/muonpi/analysis/histogram.h:281-295 | the centre of the first fullest bin, less the lower bound: right exactly if that is zero |
| Histogram.Histogram.ResetBounds | include/muonpi/analysis/histogram.h:270-279 | as the constructor from bounds, with all values forgotten |
| Histogram.Histogram.ResetCount | include/muonpi/analysis/histogram.h:252-257 | only the number of bins changes, and the histogram is usable exactly if the bins still cover the accepted values |

## Left out

- Sockets, TLS, HTTP sessions, the websocket server, the HTTP client, the Influx transport and the MQTT library: their answers are inputs.
- Logging, configuration, stack traces, process readings, MAC lookup, random identifiers: nothing to prove about them.
- `base64.h`, `types.h`: byte copies; decoding is an arbitrary function in routing.
- The numerics of geodetic and earth-centred conversion, sine, cosine and root: arbitrary functions.
- Rounding of floating-point numbers outside the geohash.
- `histogram::median`, `histogram::rms`: further sums; the first divides by the count of one bin.
- `thread_runner::start_synchronuos`, `wait_for`, the state names, thread names, and joining from a destructor.
- `thread_runner::step` inside the sinks: the sinks' machine has its own `m_run` test, the runner's machine takes any result of `step()`.
- Message delivery and publishing in `mqtt.cpp`: loops over callbacks without state of their own.
- Changing the sinks of a collection while it runs, and in the tree of the interleaved machine a sink listed twice in one collection.
- ThreadedSinks.Collection.Process: only sinks with a queue of their own; `get` of another sink is not modelled.
- UpperMatrix.Matrix.SwapLast: that `position` asserts its range is not modelled; a matrix without columns throws as without assertions.
- UpperMatrix.Matrix.Iterate: the callback only changes the element it is given; a callback with other effects is not modelled.
- Histogram.Histogram.Percentile: a negative share, whose conversion to an unsigned number is undefined, is not modelled.
- Mqtt.MqttLink.Subscribe: while the status is Connecting the call waits in `check_connection`; the wait is not modelled, the event is its end.
- Mqtt.MqttLink.PostRun: the waits of each `unsubscribe` while Connecting, and the shutdown of the client library, are not modelled.
- DataSeries.RateMeasurement.Step: the inherited `add` called directly on a measurement is not modelled.
- ThreadRunner.ThreadRunner.Run: the list of rounds is finite, so a worker that is never stopped is left inside its loop; the interleaved system has no such bound.
- Statistics.VarianceIdentity: a sample of one value, whose variance divides by zero, is not modelled beyond that division.
- Statistics.VarianceSign: leaves out the sample of one value for the same reason.
- ThreadedSinks.ThreadedSink.Step: arrivals come at one place of each turn and of the wait; all other places are covered by the interleaved machine.

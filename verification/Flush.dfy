/** What flush() and the destructor may rely on, over every interleaving with the worker and with writers. */
module Flush {
  import opened SinkQueue

  // ---------------------------------------------------------------- what a returning flush means

  /** The wait predicate of flush(), for the target read when it began. */
  predicate WaitOver<R>(s: State<R>, target: nat) {
    s.written >= target || s.stopping
  }

  ghost predicate NoWrites<R>(run: seq<Step<R>>) {
    forall k :: 0 <= k < |run| ==> !run[k].Write?
  }

  predicate Handled(f: Fate) {
    f == Delivered || f == Failed || f == Overflowed
  }

  /** Accepting only ever appends. */
  lemma {:induction false} AcceptedGrows<R>(s: State<R>, run: seq<Step<R>>)
    requires Inv(s) && Legal(s, run)
    ensures s.accepted <= After(s, run).accepted
    ensures NoWrites(run) ==> After(s, run).accepted == s.accepted
    decreases |run|
  {
    if run != [] {
      StepKeepsInv(s, run[0]);
      StepAccepts(s, run[0]);
      AcceptedGrows(Next(s, run[0]), run[1..]);
    }
    hide Inv, Next, Sized, Enabled;
  }

  lemma StepAccepts<R>(s: State<R>, step: Step<R>)
    requires Inv(s) && Enabled(s, step)
    ensures s.accepted <= Next(s, step).accepted
    ensures !step.Write? ==> Next(s, step).accepted == s.accepted
  {
    if step.Write? && step.batch != [] {
      WriteDropsAtMostOne(s, step.batch);
    }
  }

  /** A flush nothing writes during is exact: on return every accepted batch is handled and the worker holds none. */
  lemma QuietFlushDrains<R>(s: State<R>, run: seq<Step<R>>)
    requires Inv(s) && Legal(s, run) && NoWrites(run)
    requires WaitOver(After(s, run), s.queued) && !After(s, run).stopping
    ensures var s' := After(s, run);
            && s'.queue == [] && s'.InWorker() == 0
            && forall i :: 0 <= i < |s'.fate| ==> Handled(s'.fate[i])
  {
    RunKeepsInv(s, run);
    AcceptedGrows(s, run);
  }

  /** With writes interleaved, of the batches accepted before the flush at most one is not handled yet on
      return: the one the worker holds. */
  lemma BusyFlushLeavesOnlyHeld<R>(s: State<R>, run: seq<Step<R>>)
    requires Inv(s) && Legal(s, run)
    requires WaitOver(After(s, run), s.queued) && !After(s, run).stopping
    ensures var s' := After(s, run);
            && s.queued <= |s'.fate|
            && forall i :: 0 <= i < s.queued ==> (Handled(s'.fate[i]) <==> !(s'.worker.Holding? && s'.worker.at == i))
  {
    RunKeepsInv(s, run);
    AcceptedGrows(s, run);
  }

  /** How many nonempty batches a run writes. */
  function Writes<R>(run: seq<Step<R>>): nat {
    if run == [] then 0 else (if run[0].Write? && run[0].batch != [] then 1 else 0) + Writes(run[1..])
  }

  /** With at most a queue's worth of writes, the first batch accepted after the flush began is not overwritten, so it
      leaves the queue only once the worker has handled everything before it. */
  lemma {:induction false} FewWritesKeepOrder<R>(s: State<R>, run: seq<Step<R>>, target: nat)
    requires Inv(s) && Legal(s, run) && target <= s.queued
    requires s.queued + Writes(run) <= target + s.capacity
    requires s.worker.Holding? && s.worker.at < target ==> s.Head() <= target
    ensures var s' := After(s, run);
            Inv(s') && (s'.worker.Holding? && s'.worker.at < target ==> s'.Head() <= target)
    decreases |run|
  {
    if run != [] {
      StepKeepsInv(s, run[0]);
      StepKeepsOrder(s, run[0], target);
      hide Inv, Next;
      FewWritesKeepOrder(Next(s, run[0]), run[1..], target);
    }
  }

  lemma StepKeepsOrder<R>(s: State<R>, step: Step<R>, target: nat)
    requires Inv(s) && Enabled(s, step) && target <= s.queued
    requires s.worker.Holding? && s.worker.at < target ==> s.Head() <= target
    ensures var s' := Next(s, step);
            && s'.capacity == s.capacity
            && s'.queued == s.queued + (if step.Write? && step.batch != [] then 1 else 0)
            && (s'.queued <= target + s.capacity && s'.worker.Holding? && s'.worker.at < target ==> s'.Head() <= target)
  {
    if step.Write? && step.batch != [] {
      WriteDropsAtMostOne(s, step.batch);
    }
  }

  /** A flush overtaken by no more writes than the queue can hold is exact. */
  lemma FewWritesDrain<R>(s: State<R>, run: seq<Step<R>>)
    requires Inv(s) && Legal(s, run) && Writes(run) <= s.capacity
    requires WaitOver(After(s, run), s.queued) && !After(s, run).stopping
    ensures var s' := After(s, run);
            s.queued <= |s'.fate| && forall i :: 0 <= i < s.queued ==> Handled(s'.fate[i])
  {
    FewWritesKeepOrder(s, run, s.queued);
    BusyFlushLeavesOnlyHeld(s, run);
  }

  // ---------------------------------------------------------------- sleeping and waking

  /** A thread in flush(): asleep on drained_cv_, or notified and about to look at the predicate again. */
  datatype Flusher = Idle | Asleep(target: nat) | Awake(target: nat)

  datatype System<R> = System(sink: State<R>, flusher: Flusher)

  datatype Event<R> = Sink(step: Step<R>) | Begin | Recheck

  predicate Possible<R>(sys: System<R>, e: Event<R>) {
    match e
    case Sink(step) => Enabled(sys.sink, step)
    case Begin => sys.flusher.Idle?
    case Recheck => sys.flusher.Awake?
  }

  /** Only the worker notifies drained_cv_: after counting a batch, and once on its way out. A write that
      drops a batch moves `written` without a notification. */
  function React<R>(sys: System<R>, e: Event<R>): System<R>
    requires Sized(sys.sink) && Possible(sys, e)
  {
    match e
    case Sink(step) =>
      System(Next(sys.sink, step),
             if (step.Notify? || step.Finish?) && sys.flusher.Asleep? then Awake(sys.flusher.target) else sys.flusher)
    case Begin => sys.(flusher := if WaitOver(sys.sink, sys.sink.queued) then Idle else Asleep(sys.sink.queued))
    case Recheck => sys.(flusher := if WaitOver(sys.sink, sys.flusher.target) then Idle else Asleep(sys.flusher.target))
  }

  /** No wakeup is lost: while a flush sleeps the worker still has a notification ahead of it. */
  ghost predicate SystemInv<R>(sys: System<R>) {
    && Inv(sys.sink)
    && (!sys.flusher.Idle? ==> sys.flusher.target <= sys.sink.queued)
    && (sys.flusher.Asleep? ==> sys.sink.queue != [] || !(sys.sink.worker.Waiting? || sys.sink.worker.Exited?))
  }

  lemma EventKeepsSystemInv<R>(sys: System<R>, e: Event<R>)
    requires SystemInv(sys) && Possible(sys, e)
    ensures SystemInv(React(sys, e))
  {
    if e.Sink? {
      StepKeepsInv(sys.sink, e.step);
      if e.step.Write? && e.step.batch != [] {
        WriteDropsAtMostOne(sys.sink, e.step.batch);
      }
    }
  }

  ghost predicate Feasible<R>(sys: System<R>, es: seq<Event<R>>)
    decreases |es|
  {
    es == [] || (Sized(sys.sink) && Possible(sys, es[0]) && Feasible(React(sys, es[0]), es[1..]))
  }

  ghost function Run<R>(sys: System<R>, es: seq<Event<R>>): System<R>
    requires Feasible(sys, es)
    decreases |es|
  {
    if es == [] then sys else Run(React(sys, es[0]), es[1..])
  }

  lemma {:induction false} RunKeepsSystemInv<R>(sys: System<R>, es: seq<Event<R>>)
    requires SystemInv(sys) && Feasible(sys, es)
    ensures SystemInv(Run(sys, es))
    decreases |es|
  {
    if es != [] {
      EventKeepsSystemInv(sys, es[0]);
      RunKeepsSystemInv(React(sys, es[0]), es[1..]);
    }
  }

  /** `states` are the ones the events lead through. */
  ghost predicate Follows<R>(states: seq<System<R>>, es: seq<Event<R>>) {
    && |states| == |es| + 1
    && forall k :: 0 <= k < |es| ==>
         Sized(states[k].sink) && Possible(states[k], es[k]) && React(states[k], es[k]) == states[k + 1]
  }

  lemma {:induction false} FollowsIsRun<R>(states: seq<System<R>>, es: seq<Event<R>>)
    requires Follows(states, es)
    ensures Feasible(states[0], es) && Run(states[0], es) == states[|es|]
    decreases |es|
  {
    if es != [] {
      assert React(states[0], es[0]) == states[1];
      assert Follows(states[1..], es[1..]);
      FollowsIsRun(states[1..], es[1..]);
    }
  }

  /** A flush begun between the counting of batch 0 and its notification, with batch 1 queued, capacity one. */
  const UNLUCKY_BEGIN: seq<Event<nat>> :=
    [Sink(Write([0])), Sink(Take), Sink(Settle(true)), Sink(Complete), Sink(Write([1])), Begin]

  const UNLUCKY_MIDDLE: System<nat> :=
    System(State(1, [[1]], false, 1, 2, 0, Notifying, [[0]], [[0], [1]], [Delivered, Queued]), Asleep(2))

  /** It wakes on that notification, but before it looks again the worker takes batch 1 and two writes overflow. */
  const UNLUCKY_END: seq<Event<nat>> :=
    [Sink(Notify), Sink(Take), Sink(Write([2])), Sink(Write([3])), Recheck]

  const WROTE: State<nat> := State(1, [[0]], false, 0, 1, 0, Waiting, [], [[0]], [Queued])

  const TOOK: State<nat> := State(1, [], false, 0, 1, 0, Holding([0], 0), [], [[0]], [Held])

  const SETTLED: State<nat> := State(1, [], false, 0, 1, 0, Settled(0), [[0]], [[0]], [Delivered])

  lemma UnluckyStart()
    ensures WriteBatch(Init<nat>(1), [0]) == WROTE && Next(WROTE, Take) == TOOK && Next(TOOK, Settle(true)) == SETTLED
  {
    assert Push(Init<nat>(1), [0]).fate == [Queued];
  }

  lemma UnluckyBegins()
    ensures Feasible(System(Init(1), Idle), UNLUCKY_BEGIN)
    ensures Run(System(Init(1), Idle), UNLUCKY_BEGIN) == UNLUCKY_MIDDLE
  {
    hide WriteBatch;
    var counted := SETTLED.(worker := Notifying, written := 1);
    UnluckyStart();
    UnluckySecond();
    FollowsIsRun([System(Init<nat>(1), Idle), System(WROTE, Idle), System(TOOK, Idle), System(SETTLED, Idle),
                  System(counted, Idle), UNLUCKY_MIDDLE.(flusher := Idle), UNLUCKY_MIDDLE], UNLUCKY_BEGIN);
  }

  lemma UnluckySecond()
    ensures WriteBatch(SETTLED.(worker := Notifying, written := 1), [1]) == UNLUCKY_MIDDLE.sink
  {
    var s := Push(SETTLED.(worker := Notifying, written := 1), [1]);
    assert s.fate == [Delivered, Queued] && s.accepted == [[0], [1]] && s.queue == [[1]];
  }

  const TOOK_ONE: State<nat> := State(1, [], false, 1, 2, 0, Holding([1], 1), [[0]], [[0], [1]], [Delivered, Held])

  const WROTE_TWO: State<nat> :=
    State(1, [[2]], false, 1, 3, 0, Holding([1], 1), [[0]], [[0], [1], [2]], [Delivered, Held, Queued])

  const WROTE_THREE: State<nat> :=
    State(1, [[3]], false, 2, 4, 1, Holding([1], 1), [[0]], [[0], [1], [2], [3]], [Delivered, Held, Overflowed, Queued])

  lemma UnluckyEnds()
    ensures Feasible(UNLUCKY_MIDDLE, UNLUCKY_END)
    ensures Run(UNLUCKY_MIDDLE, UNLUCKY_END) == System(WROTE_THREE, Idle)
  {
    var woken := UNLUCKY_MIDDLE.sink.(worker := Waiting);
    assert Next(woken, Take) == TOOK_ONE;
    UnluckyPush();
    UnluckyOverflow();
    FollowsIsRun([UNLUCKY_MIDDLE, System(woken, Awake(2)), System(TOOK_ONE, Awake(2)), System(WROTE_TWO, Awake(2)),
                  System(WROTE_THREE, Awake(2)), System(WROTE_THREE, Idle)], UNLUCKY_END);
  }

  lemma UnluckyPush()
    ensures WriteBatch(TOOK_ONE, [2]) == WROTE_TWO
  {
    assert Push(TOOK_ONE, [2]).accepted == WROTE_TWO.accepted;
    assert Push(TOOK_ONE, [2]).fate == WROTE_TWO.fate;
  }

  lemma UnluckyOverflow()
    ensures WriteBatch(WROTE_TWO, [3]) == WROTE_THREE
  {
    var d := DropOldest(WROTE_TWO);
    assert d.queue == [] && d.fate == [Delivered, Held, Overflowed];
    assert DropWhileFull(WROTE_TWO) == DropWhileFull(d) == d;
    assert Push(d, [3]).accepted == WROTE_THREE.accepted;
    assert Push(d, [3]).fate == WROTE_THREE.fate;
  }

  /** So the exception above is real: a flush can return while a batch accepted before it is still held. */
  lemma EarlyReturn()
    ensures Feasible(System(Init(1), Idle), UNLUCKY_BEGIN)
    ensures var sys := Run(System(Init(1), Idle), UNLUCKY_BEGIN);
            && sys.sink.queued == 2 && sys.flusher == Asleep(2)
            && Feasible(sys, UNLUCKY_END)
            && var sys' := Run(sys, UNLUCKY_END);
            && sys'.flusher == Idle && !sys'.sink.stopping
            && |sys'.sink.fate| > 1 && !Handled(sys'.sink.fate[1])
  {
    UnluckyBegins();
    UnluckyEnds();
  }

  // ---------------------------------------------------------------- exactly when flush keeps its promise

  /** What the sink sees of the events. */
  function SinkSteps<R>(es: seq<Event<R>>): seq<Step<R>> {
    if es == [] then [] else (if es[0].Sink? then [es[0].step] else []) + SinkSteps(es[1..])
  }

  function EventWrites<R>(es: seq<Event<R>>): nat {
    Writes(SinkSteps(es))
  }

  ghost predicate NoBegin<R>(es: seq<Event<R>>) {
    forall k :: 0 <= k < |es| ==> !es[k].Begin?
  }

  /** A flush begins with the first event and returns, of a sink nobody destroys, at the last. */
  ghost predicate Waited<R>(sys: System<R>, es: seq<Event<R>>) {
    && es != [] && es[0].Begin? && NoBegin(es[1..]) && (|es| == 1 || es[|es| - 1].Recheck?)
    && Feasible(sys, es) && Run(sys, es).flusher.Idle? && !Run(sys, es).sink.stopping
  }

  /** Every batch accepted before the flush is handled when it returns. */
  ghost predicate Drained<R>(sys: System<R>, es: seq<Event<R>>)
    requires Feasible(sys, es)
  {
    var s := Run(sys, es).sink;
    sys.sink.queued <= |s.fate| && forall i :: 0 <= i < sys.sink.queued ==> Handled(s.fate[i])
  }

  /** Another batch is left for the worker to take after its next notification. */
  predicate Another<R>(s: State<R>) {
    s.queue != [] && (!s.worker.Waiting? || |s.queue| > 1)
  }

  /** The exact condition, read off before the call: flush keeps its promise over every interleaving with up to `n`
      writes exactly when the queue can hold that many, or the worker has no second batch ahead of it. */
  lemma FlushExactly<R>(sys: System<R>, n: nat, batch: seq<R>)
    requires SystemInv(sys) && sys.flusher.Idle? && !sys.sink.stopping && batch != []
    ensures (forall es :: Waited(sys, es) && EventWrites(es) <= n ==> Drained(sys, es)) <==>
            n <= sys.sink.capacity || !Another(sys.sink)
  {
    if n <= sys.sink.capacity || !Another(sys.sink) {
      forall es | Waited(sys, es) && EventWrites(es) <= n
        ensures Drained(sys, es)
      {
        if n <= sys.sink.capacity {
          FewWritesReturnDrained(sys, es);
        } else {
          LastBatchReturnsDrained(sys, es);
        }
      }
    } else {
      var es := Overtaken(sys, batch);
    }
  }

  lemma {:induction false} SinkStepsAreRun<R>(sys: System<R>, es: seq<Event<R>>)
    requires Feasible(sys, es)
    ensures Legal(sys.sink, SinkSteps(es)) && After(sys.sink, SinkSteps(es)) == Run(sys, es).sink
    decreases |es|
  {
    if es != [] {
      var rest := SinkSteps(es[1..]);
      SinkStepsAreRun(React(sys, es[0]), es[1..]);
      if es[0].Sink? {
        assert ([es[0].step] + rest)[1..] == rest;
      } else {
        assert [] + rest == rest;
      }
    }
  }

  lemma {:induction false} IdleNeverRechecks<R>(sys: System<R>, es: seq<Event<R>>)
    requires Feasible(sys, es) && NoBegin(es) && sys.flusher.Idle? && es != [] && es[|es| - 1].Recheck?
    ensures false
    decreases |es|
  {
    if |es| > 1 {
      IdleNeverRechecks(React(sys, es[0]), es[1..]);
    }
  }

  /** The wait is over for the target read at the beginning. */
  lemma {:induction false} ReturnMeansOver<R>(sys: System<R>, es: seq<Event<R>>)
    requires Feasible(sys, es) && NoBegin(es) && es != [] && es[|es| - 1].Recheck?
    requires !sys.flusher.Idle? && Run(sys, es).flusher.Idle?
    ensures WaitOver(Run(sys, es).sink, sys.flusher.target)
    decreases |es|
  {
    var sys' := React(sys, es[0]);
    if |es| > 1 {
      if sys'.flusher.Idle? {
        IdleNeverRechecks(sys', es[1..]);
      }
      ReturnMeansOver(sys', es[1..]);
    }
  }

  lemma FewWritesReturnDrained<R>(sys: System<R>, es: seq<Event<R>>)
    requires SystemInv(sys) && Waited(sys, es) && EventWrites(es) <= sys.sink.capacity
    ensures Drained(sys, es)
  {
    var sys', rest := React(sys, Begin), es[1..];
    if rest == [] {
      assert Run(sys, es) == sys';
    } else if sys'.flusher.Idle? {
      IdleNeverRechecks(sys', rest);
    } else {
      ReturnMeansOver(sys', rest);
    }
    SinkStepsAreRun(sys, es);
    hide Legal, After, Feasible, Run, Inv;
    FewWritesDrain(sys.sink, SinkSteps(es));
  }

  ghost predicate AllHandled<R>(s: State<R>, target: nat) {
    target <= |s.fate| && forall i :: 0 <= i < target ==> Handled(s.fate[i])
  }

  /** Of the batches below `target` at most the last is still queued, and then the worker is waiting for it. */
  ghost predicate LastQueued<R>(s: State<R>, target: nat) {
    target <= |s.fate| && forall i :: 0 <= i < target && s.fate[i] == Queued ==> i == target - 1 && s.worker.Waiting?
  }

  /** No notification reaches the flush until all it waits for is handled. */
  ghost predicate OneLeft<R>(sys: System<R>, target: nat) {
    && (!sys.flusher.Idle? ==> sys.flusher.target == target)
    && LastQueued(sys.sink, target)
    && (!sys.flusher.Asleep? ==> AllHandled(sys.sink, target))
  }

  /** A write overwrites at most a queued batch. */
  lemma WriteKeepsFates<R>(s: State<R>, batch: seq<R>)
    requires Inv(s)
    ensures var s' := WriteBatch(s, batch);
            && s'.worker == s.worker && |s.fate| <= |s'.fate|
            && forall i :: 0 <= i < |s.fate| ==>
                 s'.fate[i] == s.fate[i] || (s.fate[i] == Queued && s'.fate[i] == Overflowed)
  {
    if batch != [] {
      WriteDropsAtMostOne(s, batch);
    }
  }

  lemma StepKeepsLast<R>(s: State<R>, step: Step<R>, target: nat)
    requires Inv(s) && Enabled(s, step) && LastQueued(s, target)
    ensures LastQueued(Next(s, step), target)
    ensures AllHandled(s, target) ==> AllHandled(Next(s, step), target)
  {
    assert Placed(s);
    if step.Write? {
      WriteKeepsFates(s, step.batch);
    } else if step.Take? {
      assert s.fate[s.Head()] == Queued;
    }
    hide Counted, WriteBatch;
  }

  lemma NoticeMeansHandled<R>(s: State<R>, step: Step<R>, target: nat)
    requires Inv(s) && Enabled(s, step) && LastQueued(s, target) && (step.Notify? || step.Finish?)
    ensures AllHandled(s, target)
  {
  }

  lemma EventKeepsOneLeft<R>(sys: System<R>, e: Event<R>, target: nat)
    requires SystemInv(sys) && Possible(sys, e) && !e.Begin? && OneLeft(sys, target)
    ensures OneLeft(React(sys, e), target)
  {
    if e.Sink? {
      StepKeepsLast(sys.sink, e.step, target);
      if e.step.Notify? || e.step.Finish? {
        NoticeMeansHandled(sys.sink, e.step, target);
      }
    }
    hide LastQueued, AllHandled, Inv, Next;
  }

  lemma {:induction false} RunKeepsOneLeft<R>(sys: System<R>, es: seq<Event<R>>, target: nat)
    requires SystemInv(sys) && Feasible(sys, es) && NoBegin(es) && OneLeft(sys, target)
    ensures OneLeft(Run(sys, es), target)
    decreases |es|
  {
    if es != [] {
      EventKeepsSystemInv(sys, es[0]);
      EventKeepsOneLeft(sys, es[0], target);
      hide OneLeft, SystemInv;
      RunKeepsOneLeft(React(sys, es[0]), es[1..], target);
    }
  }

  lemma LastBatchReturnsDrained<R>(sys: System<R>, es: seq<Event<R>>)
    requires SystemInv(sys) && Waited(sys, es) && sys.flusher.Idle? && !sys.sink.stopping && !Another(sys.sink)
    ensures Drained(sys, es)
  {
    EventKeepsSystemInv(sys, Begin);
    assert OneLeft(React(sys, Begin), sys.sink.queued);
    RunKeepsOneLeft(React(sys, Begin), es[1..], sys.sink.queued);
  }

  lemma {:induction false} WritesInParts<R>(a: seq<Event<R>>, b: seq<Event<R>>)
    ensures EventWrites(a + b) == EventWrites(a) + EventWrites(b)
    decreases |a|
  {
    if a == [] {
      assert a + b == b;
    } else {
      assert (a + b)[0] == a[0] && (a + b)[1..] == a[1..] + b;
      WritesInParts(a[1..], b);
      WritesFirst(a);
      WritesFirst(a + b);
      hide Writes, SinkSteps;
    }
  }

  lemma NothingWritten<R>()
    ensures EventWrites<R>([]) == 0
  {
  }

  lemma WritesFirst<R>(es: seq<Event<R>>)
    requires es != []
    ensures EventWrites(es) ==
            (if es[0].Sink? && es[0].step.Write? && es[0].step.batch != [] then 1 else 0) + EventWrites(es[1..])
  {
    var rest := SinkSteps(es[1..]);
    if es[0].Sink? {
      assert ([es[0].step] + rest)[1..] == rest;
    } else {
      assert [] + rest == rest;
    }
  }

  lemma {:induction false} RunInParts<R>(sys: System<R>, a: seq<Event<R>>, b: seq<Event<R>>)
    requires Feasible(sys, a) && Feasible(Run(sys, a), b)
    ensures Feasible(sys, a + b) && Run(sys, a + b) == Run(Run(sys, a), b)
    ensures EventWrites(a + b) == EventWrites(a) + EventWrites(b)
    decreases |a|
  {
    if a == [] {
      assert a + b == b;
    } else {
      assert (a + b)[0] == a[0] && (a + b)[1..] == a[1..] + b;
      RunInParts(React(sys, a[0]), a[1..], b);
    }
    WritesInParts(a, b);
    hide EventWrites;
  }

  /** The worker goes on until it has woken the flush, with another batch to take. */
  lemma {:induction false} ToNotice<R>(sys: System<R>) returns (es: seq<Event<R>>)
    requires SystemInv(sys) && sys.flusher.Asleep? && !sys.sink.stopping && Another(sys.sink)
    ensures Feasible(sys, es) && EventWrites(es) == 0 && NoBegin(es)
    ensures var sys' := Run(sys, es);
            && SystemInv(sys') && sys'.flusher == Awake(sys.flusher.target)
            && sys'.sink.worker.Waiting? && sys'.sink.queue != [] && !sys'.sink.stopping
            && sys'.sink.capacity == sys.sink.capacity && sys'.sink.queued == sys.sink.queued
    decreases Rank(sys.sink)
  {
    hide EventWrites, Delivery;
    var e := Sink(WorkerStep(sys.sink, true));
    EventKeepsSystemInv(sys, e);
    var sys' := React(sys, e);
    if sys.sink.worker.Notifying? {
      es := [e];
      assert es[1..] == [] && Run(sys', []) == sys';
    } else {
      WorkerStepsDown(sys.sink, e.step);
      var rest := ToNotice(sys');
      es := [e] + rest;
      assert es[1..] == rest;
    }
    NothingWritten<R>();
    WritesFirst(es);
  }

  function WriteAgain<R>(batch: seq<R>, k: nat): (es: seq<Event<R>>)
    ensures NoBegin(es)
  {
    if k == 0 then [] else [Sink(Write(batch))] + WriteAgain(batch, k - 1)
  }

  /** Writes while the worker holds a batch: they all count, and whatever the queue cannot hold counts as written. */
  lemma {:induction false} Overrun<R>(sys: System<R>, batch: seq<R>, k: nat)
    requires SystemInv(sys) && sys.sink.worker.Holding? && !sys.sink.stopping && batch != []
    ensures Feasible(sys, WriteAgain(batch, k)) && EventWrites(WriteAgain(batch, k)) == k
    ensures var sys' := Run(sys, WriteAgain(batch, k));
            && SystemInv(sys') && sys'.flusher == sys.flusher
            && sys'.sink.worker == sys.sink.worker && !sys'.sink.stopping
            && sys'.sink.capacity == sys.sink.capacity && sys'.sink.queued == sys.sink.queued + k
    decreases k
  {
    hide SystemInv, React, Possible, Sized, EventWrites;
    NothingWritten<R>();
    if k > 0 {
      var e, rest := Sink(Write(batch)), WriteAgain(batch, k - 1);
      WriteTouches(sys, batch);
      assert WriteAgain(batch, k)[1..] == rest;
      WritesFirst(WriteAgain(batch, k));
      Overrun(React(sys, e), batch, k - 1);
    }
  }

  lemma WriteTouches<R>(sys: System<R>, batch: seq<R>)
    requires SystemInv(sys) && !sys.sink.stopping && batch != []
    ensures Sized(sys.sink) && Possible(sys, Sink(Write(batch)))
    ensures var sys' := React(sys, Sink(Write(batch)));
            && SystemInv(sys') && sys'.flusher == sys.flusher
            && sys'.sink.queued == sys.sink.queued + 1 && sys'.sink.capacity == sys.sink.capacity
            && sys'.sink.worker == sys.sink.worker && sys'.sink.stopping == sys.sink.stopping
  {
    EventKeepsSystemInv(sys, Sink(Write(batch)));
    WriteDropsAtMostOne(sys.sink, batch);
  }

  /** For every capacity: woken, then overtaken by the worker's next take and one write more than the queue holds, a
      flush returns with that batch still held. */
  lemma Overtaken<R>(sys: System<R>, batch: seq<R>) returns (es: seq<Event<R>>)
    requires SystemInv(sys) && sys.flusher.Idle? && !sys.sink.stopping && batch != [] && Another(sys.sink)
    ensures Waited(sys, es) && EventWrites(es) == sys.sink.capacity + 1 && !Drained(sys, es)
  {
    hide EventWrites, Counted;
    var asleep := React(sys, Begin);
    AsleepAtFirst(sys);
    var notice := ToNotice(asleep);
    var awake := Run(asleep, notice);
    var writes := OvertakenOnceAwake(awake, batch);
    RunInParts(asleep, notice, writes);
    es := [Begin] + (notice + writes);
    assert es[1..] == notice + writes && es[0] == Begin;
    WritesFirst(es);
  }

  lemma AsleepAtFirst<R>(sys: System<R>)
    requires SystemInv(sys) && sys.flusher.Idle? && !sys.sink.stopping && Another(sys.sink)
    ensures React(sys, Begin) == sys.(flusher := Asleep(sys.sink.queued)) && SystemInv(React(sys, Begin))
    ensures Sized(sys.sink)
  {
    EventKeepsSystemInv(sys, Begin);
  }

  lemma OvertakenOnceAwake<R>(awake: System<R>, batch: seq<R>) returns (es: seq<Event<R>>)
    requires SystemInv(awake) && awake.flusher == Awake(awake.sink.queued) && !awake.sink.stopping && batch != []
    requires awake.sink.worker.Waiting? && awake.sink.queue != []
    ensures Feasible(awake, es) && NoBegin(es) && es != [] && es[|es| - 1].Recheck?
    ensures EventWrites(es) == awake.sink.capacity + 1
    ensures var s := Run(awake, es).sink;
            && Run(awake, es).flusher.Idle? && !s.stopping && s.worker.Holding?
            && s.worker.at < awake.sink.queued <= |s.fate| && s.fate[s.worker.at] == Held
  {
    hide EventWrites, SystemInv, React;
    var take, k := Sink(Take), awake.sink.capacity + 1;
    TakesOneOfThem(awake);
    var holding := React(awake, take);
    Overrun(holding, batch, k);
    var writes := WriteAgain(batch, k);
    var full := Run(holding, writes);
    FullReturns(full, awake.sink.queued);
    RunInParts(holding, writes, [Recheck]);
    es := [take] + (writes + [Recheck]);
    assert es[1..] == writes + [Recheck];
    NothingWritten<R>();
    WritesFirst(es);
    WritesFirst<R>([Recheck]);
  }

  lemma TakesOneOfThem<R>(sys: System<R>)
    requires SystemInv(sys) && sys.sink.worker.Waiting? && sys.sink.queue != []
    ensures Sized(sys.sink) && Possible(sys, Sink(Take))
    ensures var sys' := React(sys, Sink(Take));
            && SystemInv(sys') && sys'.flusher == sys.flusher && sys'.sink.worker.Holding?
            && sys'.sink.worker.at < sys.sink.queued == sys'.sink.queued
            && sys'.sink.capacity == sys.sink.capacity && sys'.sink.stopping == sys.sink.stopping
  {
    EventKeepsSystemInv(sys, Sink(Take));
  }

  /** More than a queue of batches after `target`, and the worker holding one: the wait is over. */
  lemma FullReturns<R>(sys: System<R>, target: nat)
    requires SystemInv(sys) && sys.flusher == Awake(target) && sys.sink.worker.Holding?
    requires sys.sink.queued == target + sys.sink.capacity + 1
    ensures Feasible(sys, [Recheck]) && Run(sys, [Recheck]) == sys.(flusher := Idle)
    ensures target <= |sys.sink.fate| && sys.sink.worker.at < |sys.sink.fate|
    ensures sys.sink.fate[sys.sink.worker.at] == Held
  {
    assert React(sys, Recheck) == sys.(flusher := Idle);
    var es: seq<Event<R>> := [Recheck];
    assert es[1..] == [];
  }

  // ---------------------------------------------------------------- progress

  /** How many steps the worker can still take before someone writes or stops it. */
  function Rank<R>(s: State<R>): nat {
    4 * |s.queue| +
    match s.worker
    case Holding(_, _) => 5
    case Settled(_) => 4
    case Notifying => 3
    case Waiting => 2
    case Leaving => 1
    case Exited => 0
  }

  predicate ByWorker<R>(step: Step<R>) {
    !step.Write? && !step.Stop?
  }

  /** The worker is asleep on its own condition variable for good reason, or gone. */
  predicate WorkerDone<R>(s: State<R>) {
    s.worker.Exited? || (s.worker.Waiting? && s.queue == [] && !s.stopping)
  }

  /** Unless it is done the worker has a step to take, whatever a post returns. */
  function WorkerStep<R>(s: State<R>, ok: bool): (step: Step<R>)
    requires !WorkerDone(s)
    ensures ByWorker(step) && Enabled(s, step)
  {
    match s.worker
    case Holding(_, _) => Settle(ok)
    case Settled(_) => Complete
    case Notifying => Notify
    case Waiting => if s.queue != [] then Take else Leave
    case Leaving => Finish
  }

  lemma WorkerStepsDown<R>(s: State<R>, step: Step<R>)
    requires Inv(s) && Enabled(s, step) && ByWorker(step)
    ensures Rank(Next(s, step)) < Rank(s) && !WorkerDone(s)
  {
  }

  ghost predicate AllByWorker<R>(es: seq<Event<R>>) {
    forall k :: 0 <= k < |es| ==> es[k].Sink? && ByWorker(es[k].step)
  }

  /** However the worker runs on by itself, it runs at most Rank steps. */
  lemma {:induction false} WorkerRunsOut<R>(sys: System<R>, es: seq<Event<R>>)
    requires SystemInv(sys) && Feasible(sys, es) && AllByWorker(es)
    ensures |es| + Rank(Run(sys, es).sink) <= Rank(sys.sink)
    decreases |es|
  {
    if es != [] {
      EventKeepsSystemInv(sys, es[0]);
      WorkerStepsDown(sys.sink, es[0].step);
      WorkerRunsOut(React(sys, es[0]), es[1..]);
    }
  }

  /** A sleeping flush always has a worker step ahead, and once the worker is done no flush is left sleeping
      and every notified one returns. */
  lemma BlockedFlushIsServed<R>(sys: System<R>)
    requires SystemInv(sys)
    ensures sys.flusher.Asleep? ==> !WorkerDone(sys.sink)
    ensures WorkerDone(sys.sink) && sys.flusher.Awake? ==> React(sys, Recheck).flusher == Idle
  {
  }

  /** Liveness without new writes: some worker-only run, whatever the posts return, ends with flush returning. */
  lemma {:induction false} FlushReturns<R>(sys: System<R>, posts: State<R> -> bool) returns (es: seq<Event<R>>)
    requires SystemInv(sys) && sys.flusher.Asleep?
    ensures AllByWorker(es) && Feasible(sys, es) && |es| <= Rank(sys.sink)
    ensures SystemInv(Run(sys, es))
    ensures Run(sys, es).flusher.Awake? && React(Run(sys, es), Recheck).flusher == Idle
    decreases Rank(sys.sink)
  {
    es := Drain(sys, posts);
    RunKeepsSystemInv(sys, es);
    WorkerRunsOut(sys, es);
    BlockedFlushIsServed(Run(sys, es));
    WorkerNeverBegins(sys, es);
  }

  /** The worker left to itself until it is done. */
  lemma {:induction false} Drain<R>(sys: System<R>, posts: State<R> -> bool) returns (es: seq<Event<R>>)
    requires SystemInv(sys)
    ensures AllByWorker(es) && Feasible(sys, es) && WorkerDone(Run(sys, es).sink)
    decreases Rank(sys.sink)
  {
    if WorkerDone(sys.sink) {
      es := [];
    } else {
      var e := Sink(WorkerStep(sys.sink, posts(sys.sink)));
      EventKeepsSystemInv(sys, e);
      WorkerStepsDown(sys.sink, e.step);
      var rest := Drain(React(sys, e), posts);
      es := [e] + rest;
    }
  }

  /** Worker steps neither start a flush nor end one. */
  lemma {:induction false} WorkerNeverBegins<R>(sys: System<R>, es: seq<Event<R>>)
    requires Feasible(sys, es) && AllByWorker(es)
    ensures Run(sys, es).flusher.Idle? <==> sys.flusher.Idle?
    decreases |es|
  {
    if es != [] {
      WorkerNeverBegins(React(sys, es[0]), es[1..]);
    }
  }

  /** How many batches the run counted as written by the worker. */
  function Completions<R>(run: seq<Step<R>>): nat {
    if run == [] then 0 else (if run[0].Complete? then 1 else 0) + Completions(run[1..])
  }

  /** Without new writes the wait is over after exactly the batches queued and held have been completed, no more. */
  lemma {:induction false} CompletionsDrain<R>(s: State<R>, run: seq<Step<R>>)
    requires Inv(s) && Legal(s, run) && NoWrites(run)
    ensures var s' := After(s, run);
            && s'.written == s.written + Completions(run)
            && Completions(run) + |s'.queue| + s'.InWorker() == |s.queue| + s.InWorker()
    ensures Completions(run) == |s.queue| + s.InWorker() ==> WaitOver(After(s, run), s.queued)
    decreases |run|
  {
    if run != [] {
      StepKeepsInv(s, run[0]);
      CompletionsDrain(Next(s, run[0]), run[1..]);
    }
  }

  lemma StepCompletes<R>(s: State<R>, step: Step<R>)
    requires Inv(s) && Enabled(s, step)
    ensures Next(s, step).written >= s.written + if step.Complete? then 1 else 0
  {
    if step.Write? && step.batch != [] {
      WriteDropsAtMostOne(s, step.batch);
    }
  }

  lemma {:induction false} WrittenGrows<R>(s: State<R>, run: seq<Step<R>>)
    requires Inv(s) && Legal(s, run)
    ensures After(s, run).written >= s.written + Completions(run)
    decreases |run|
  {
    hide Inv, Next, Sized, Enabled;
    if run != [] {
      StepKeepsInv(s, run[0]);
      StepCompletes(s, run[0]);
      WrittenGrows(Next(s, run[0]), run[1..]);
    }
  }

  /** However many writes come in between, a flush waits for no more completions than batches were queued and held when
      it began. */
  lemma CompletionsSuffice<R>(s: State<R>, run: seq<Step<R>>)
    requires Inv(s) && Legal(s, run) && Completions(run) >= |s.queue| + s.InWorker()
    ensures WaitOver(After(s, run), s.queued)
  {
    assert s.written + |s.queue| + s.InWorker() == s.queued;
    WrittenGrows(s, run);
  }

  // ---------------------------------------------------------------- shutdown

  lemma {:induction false} FatesAddUp(fate: seq<Fate>)
    ensures |fate| == multiset(fate)[Queued] + multiset(fate)[Held] + multiset(fate)[Delivered]
                      + multiset(fate)[Failed] + multiset(fate)[Overflowed]
  {
    if fate != [] {
      var n := |fate| - 1;
      assert fate == fate[..n] + [fate[n]];
      FatesAddUp(fate[..n]);
      assert multiset(fate) == multiset(fate[..n]) + multiset{fate[n]};
      match fate[n]
      case Queued =>
      case Held =>
      case Delivered =>
      case Failed =>
      case Overflowed =>
    } else {
      assert multiset(fate) == multiset{};
    }
  }

  lemma {:induction false} DeliveryCount<R>(accepted: seq<seq<R>>, fate: seq<Fate>)
    requires |accepted| == |fate|
    ensures |Delivery(accepted, fate)| == multiset(fate)[Delivered]
  {
    if fate != [] {
      var n := |fate| - 1;
      assert fate == fate[..n] + [fate[n]];
      DeliveryCount(accepted[..n], fate[..n]);
    }
  }

  lemma NoneOf(fate: seq<Fate>, f: Fate)
    requires forall i :: 0 <= i < |fate| ==> fate[i] != f
    ensures multiset(fate)[f] == 0
  {
    assert f !in fate;
    assert f !in multiset(fate);
  }

  /** With nothing queued or held, what was accepted is what was output plus what was counted as dropped. */
  lemma DrainedAddsUp<R>(s: State<R>)
    requires Inv(s) && s.queue == [] && !s.worker.Holding?
    ensures forall i :: 0 <= i < |s.fate| ==> Handled(s.fate[i])
    ensures |s.output| + s.dropped == s.queued
  {
    FatesAddUp(s.fate);
    DeliveryCount(s.accepted, s.fate);
    NoneOf(s.fate, Queued);
    NoneOf(s.fate, Held);
  }

  /** The destructor's join returns only after every accepted batch was output or dropped, in every run. */
  lemma JoinMeansHandled<R>(capacity: nat, run: seq<Step<R>>)
    requires capacity >= 1 && Legal(Init(capacity), run)
    requires After(Init(capacity), run).worker.Exited?
    ensures var s := After(Init(capacity), run);
            && (forall i :: 0 <= i < |s.fate| ==> Handled(s.fate[i]))
            && |s.output| + s.dropped == s.queued
  {
    ReachableInv(capacity, run);
    DrainedAddsUp(After(Init(capacity), run));
  }

  /** Once stopped, the worker left to itself does exit, so the join does return. */
  lemma StoppedWorkerExits<R>(sys: System<R>, posts: State<R> -> bool) returns (es: seq<Event<R>>)
    requires SystemInv(sys) && sys.sink.stopping
    ensures AllByWorker(es) && Feasible(sys, es) && Run(sys, es).sink.worker.Exited?
  {
    es := Drain(sys, posts);
    StaysStopped(sys, es);
  }

  lemma {:induction false} StaysStopped<R>(sys: System<R>, es: seq<Event<R>>)
    requires Feasible(sys, es) && AllByWorker(es)
    ensures Run(sys, es).sink.stopping == sys.sink.stopping
    decreases |es|
  {
    if es != [] {
      StaysStopped(React(sys, es[0]), es[1..]);
    }
  }
}

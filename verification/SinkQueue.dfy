/** The bounded queue and worker thread every queueing sink is built from
    (src/sinks/stdout_json/sink.cpp, src/sinks/http/sink.cpp), as atomic steps at the lock boundaries. */
module SinkQueue {

  /** What became of an accepted batch. */
  datatype Fate = Queued | Held | Delivered | Failed | Overflowed

  /** Where the worker is. `at` is the sequence number of the batch it took, counted from the first one accepted. */
  datatype Worker<R> =
    | Waiting                            // at cv_.wait
    | Holding(batch: seq<R>, at: nat)    // took a batch, has not emitted it
    | Settled(at: nat)                   // emitted it or gave up on it, has not counted it
    | Notifying                          // counted it, has not notified yet
    | Leaving                            // left the loop, has not sent the final notification
    | Exited

  /** Above the line what the object holds, below it the history the guarantees are about. */
  datatype State<R> = State(
    capacity: nat,
    queue: seq<seq<R>>,
    stopping: bool,
    written: nat,
    queued: nat,
    dropped: nat,
    worker: Worker<R>,
    output: seq<seq<R>>,
    // history
    accepted: seq<seq<R>>,
    fate: seq<Fate>
  ) {
    /** How many accepted batches have left the queue. */
    function Head(): int { |accepted| - |queue| }

    /** 1 while the worker has a batch it has not counted yet. */
    function InWorker(): nat { if worker.Holding? || worker.Settled? then 1 else 0 }
  }

  datatype Step<R> =
    | Write(batch: seq<R>)
    | Take
    | Settle(ok: bool)
    | Complete
    | Notify
    | Stop
    | Leave
    | Finish

  function Init<R>(capacity: nat): State<R> {
    State(capacity, [], false, 0, 0, 0, Waiting, [], [], [])
  }

  // ---------------------------------------------------------------- the steps

  /** One turn of the drop loop: the oldest queued batch goes, and is counted as handled. */
  function DropOldest<R>(s: State<R>): State<R>
    requires s.queue != [] && 0 <= s.Head() < |s.fate|
  {
    s.(queue := s.queue[1..], written := s.written + 1, dropped := s.dropped + 1,
       fate := s.fate[s.Head() := Overflowed])
  }

  /** The shape without which a step makes no sense; every reachable state has it. */
  predicate Sized<R>(s: State<R>) {
    s.capacity >= 1 && |s.queue| <= |s.accepted| == |s.fate| && (s.worker.Holding? ==> s.worker.at < |s.fate|)
  }

  function DropWhileFull<R>(s: State<R>): State<R>
    requires Sized(s)
    decreases |s.queue|
  {
    if |s.queue| >= s.capacity then DropWhileFull(DropOldest(s)) else s
  }

  function Push<R>(s: State<R>, batch: seq<R>): State<R> {
    s.(queue := s.queue + [batch], queued := s.queued + 1,
       accepted := s.accepted + [batch], fate := s.fate + [Queued])
  }

  /** write(): an empty batch is ignored, a full queue makes room by dropping its oldest. */
  function WriteBatch<R>(s: State<R>, batch: seq<R>): State<R>
    requires Sized(s)
  {
    if batch == [] then s else Push(DropWhileFull(s), batch)
  }

  /** Nobody writes to a sink that is being destroyed. */
  predicate Enabled<R>(s: State<R>, step: Step<R>) {
    match step
    case Write(_) => !s.stopping
    case Take => s.worker.Waiting? && s.queue != []
    case Settle(_) => s.worker.Holding?
    case Complete => s.worker.Settled?
    case Notify => s.worker.Notifying?
    case Stop => !s.stopping
    case Leave => s.worker.Waiting? && s.queue == [] && s.stopping
    case Finish => s.worker.Leaving?
  }

  function Next<R>(s: State<R>, step: Step<R>): State<R>
    requires Sized(s) && Enabled(s, step)
  {
    match step
    case Write(batch) => WriteBatch(s, batch)
    case Take => s.(queue := s.queue[1..], worker := Holding(s.queue[0], s.Head()), fate := s.fate[s.Head() := Held])
    case Settle(ok) =>
      if ok then
        s.(worker := Settled(s.worker.at),
           output := s.output + [s.worker.batch],
           fate := s.fate[s.worker.at := Delivered])
      else
        s.(worker := Settled(s.worker.at), dropped := s.dropped + 1, fate := s.fate[s.worker.at := Failed])
    case Complete => s.(worker := Notifying, written := s.written + 1)
    case Notify => s.(worker := Waiting)
    case Stop => s.(stopping := true)
    case Leave => s.(worker := Leaving)
    case Finish => s.(worker := Exited)
  }

  // ---------------------------------------------------------------- the invariant

  /** The delivered batches, in the order they were accepted. */
  function Delivery<R>(accepted: seq<seq<R>>, fate: seq<Fate>): seq<seq<R>>
    requires |accepted| == |fate|
  {
    if accepted == [] then []
    else
      var n := |accepted| - 1;
      Delivery(accepted[..n], fate[..n]) + if fate[n] == Delivered then [accepted[n]] else []
  }

  /** Queued is a suffix; at most one batch is held, and everything after it that left the queue was dropped. */
  ghost predicate Placed<R>(s: State<R>) {
    && Sized(s)
    && s.queue == s.accepted[s.Head()..]
    && (forall i :: 0 <= i < |s.fate| ==> (s.fate[i] == Queued <==> s.Head() <= i))
    && (!s.worker.Holding? ==> forall i :: 0 <= i < |s.fate| ==> s.fate[i] != Held)
    && (s.worker.Holding? ==>
          && s.worker.at < s.Head() && s.fate[s.worker.at] == Held && s.accepted[s.worker.at] == s.worker.batch
          && (forall i :: 0 <= i < s.worker.at ==> s.fate[i] != Held)
          && (forall i :: s.worker.at < i < s.Head() ==> s.fate[i] == Overflowed))
  }

  ghost predicate Counted<R>(s: State<R>) {
    && |s.fate| == |s.accepted|
    && |s.queue| <= s.capacity
    && s.queued == |s.accepted|
    && s.written + |s.queue| + s.InWorker() == s.queued
    && s.dropped == multiset(s.fate)[Overflowed] + multiset(s.fate)[Failed]
    && s.output == Delivery(s.accepted, s.fate)
    && (forall i :: 0 <= i < |s.accepted| ==> s.accepted[i] != [])
    && (s.worker.Leaving? || s.worker.Exited? ==> s.stopping && s.queue == [])
  }

  ghost predicate Inv<R>(s: State<R>) {
    Placed(s) && Counted(s)
  }

  lemma {:induction false} DeliveryKept<R>(accepted: seq<seq<R>>, fate: seq<Fate>, i: nat, f: Fate)
    requires |accepted| == |fate| && i < |fate| && fate[i] != Delivered && f != Delivered
    ensures Delivery(accepted, fate[i := f]) == Delivery(accepted, fate)
  {
    var n := |accepted| - 1;
    if i < n {
      assert fate[i := f][..n] == fate[..n][i := f];
      DeliveryKept(accepted[..n], fate[..n], i, f);
    } else {
      assert fate[i := f][..n] == fate[..n];
    }
  }

  lemma {:induction false} DeliveryNone<R>(accepted: seq<seq<R>>, fate: seq<Fate>, k: nat)
    requires |accepted| == |fate| && k <= |fate|
    requires forall j :: k <= j < |fate| ==> fate[j] != Delivered
    ensures Delivery(accepted, fate) == Delivery(accepted[..k], fate[..k])
  {
    var n := |accepted| - 1;
    if k <= n {
      DeliveryNone(accepted[..n], fate[..n], k);
      assert accepted[..n][..k] == accepted[..k] && fate[..n][..k] == fate[..k];
    } else {
      assert accepted[..k] == accepted && fate[..k] == fate;
    }
  }

  /** Delivering a batch nothing after which was delivered appends it to the output. */
  lemma DeliveryAppends<R>(accepted: seq<seq<R>>, fate: seq<Fate>, i: nat)
    requires |accepted| == |fate| && i < |fate|
    requires forall j :: i <= j < |fate| ==> fate[j] != Delivered
    ensures Delivery(accepted, fate[i := Delivered]) == Delivery(accepted, fate) + [accepted[i]]
  {
    var fate' := fate[i := Delivered];
    DeliveryNone(accepted, fate, i);
    DeliveryNone(accepted, fate', i + 1);
    var a, f := accepted[..i + 1], fate'[..i + 1];
    assert a[..i] == accepted[..i] && f[..i] == fate[..i];
  }

  lemma DeliveryPush<R>(accepted: seq<seq<R>>, fate: seq<Fate>, batch: seq<R>, f: Fate)
    requires |accepted| == |fate| && f != Delivered
    ensures Delivery(accepted + [batch], fate + [f]) == Delivery(accepted, fate)
  {
    var n := |accepted|;
    assert (accepted + [batch])[..n] == accepted && (fate + [f])[..n] == fate;
  }

  lemma InitInv<R>(capacity: nat)
    requires capacity >= 1
    ensures Inv(Init<R>(capacity))
  {
  }

  lemma DropKeepsPlaced<R>(s: State<R>)
    requires Placed(s) && s.queue != []
    ensures Placed(DropOldest(s))
  {
  }

  lemma DropKeepsCounted<R>(s: State<R>)
    requires Sized(s) && Counted(s) && s.queue != [] && s.fate[s.Head()] == Queued
    ensures Counted(DropOldest(s))
  {
    DeliveryKept(s.accepted, s.fate, s.Head(), Overflowed);
    hide Delivery;
  }

  lemma DropKeepsInv<R>(s: State<R>)
    requires Inv(s) && s.queue != []
    ensures Inv(DropOldest(s))
    ensures |DropOldest(s).queue| == |s.queue| - 1
  {
    assert s.fate[s.Head()] == Queued;
    hide Placed, Counted;
    DropKeepsPlaced(s);
    DropKeepsCounted(s);
  }

  lemma PushKeepsPlaced<R>(s: State<R>, batch: seq<R>)
    requires Placed(s)
    ensures Placed(Push(s, batch))
  {
    assert (s.accepted + [batch])[s.Head()..] == s.accepted[s.Head()..] + [batch];
  }

  lemma PushKeepsCounted<R>(s: State<R>, batch: seq<R>)
    requires Counted(s) && |s.queue| < s.capacity && batch != [] && !s.stopping
    ensures Counted(Push(s, batch))
  {
    DeliveryPush(s.accepted, s.fate, batch, Queued);
    hide Delivery;
  }

  lemma PushKeepsInv<R>(s: State<R>, batch: seq<R>)
    requires Inv(s) && |s.queue| < s.capacity && batch != [] && !s.stopping
    ensures Inv(Push(s, batch))
  {
    hide Placed, Counted;
    PushKeepsPlaced(s, batch);
    PushKeepsCounted(s, batch);
  }

  /** A write drops at most one batch, the oldest queued one, and nothing unless the queue is full. */
  lemma WriteDropsAtMostOne<R>(s: State<R>, batch: seq<R>)
    requires Inv(s) && batch != []
    ensures |s.queue| < s.capacity ==> WriteBatch(s, batch) == Push(s, batch)
    ensures |s.queue| == s.capacity ==>
              WriteBatch(s, batch) == Push(DropOldest(s), batch) && s.queue[0] == s.accepted[s.Head()]
  {
    if |s.queue| == s.capacity {
      assert DropWhileFull(DropOldest(s)) == DropOldest(s);
    }
  }

  lemma WriteKeepsInv<R>(s: State<R>, batch: seq<R>)
    requires Inv(s) && !s.stopping
    ensures Inv(WriteBatch(s, batch))
  {
    if batch != [] {
      WriteDropsAtMostOne(s, batch);
      if |s.queue| == s.capacity {
        DropKeepsInv(s);
        PushKeepsInv(DropOldest(s), batch);
      } else {
        PushKeepsInv(s, batch);
      }
    }
  }

  /** The queue's front is the accepted batch at the head position. */
  lemma HeadIsAccepted<R>(s: State<R>)
    requires Inv(s)
    ensures Sized(s) && s.Head() == s.queued - |s.queue|
  {
  }

  lemma TakeKeepsPlaced<R>(s: State<R>)
    requires Placed(s) && Enabled(s, Take)
    ensures Placed(Next(s, Take))
  {
  }

  lemma TakeKeepsCounted<R>(s: State<R>)
    requires Sized(s) && Counted(s) && Enabled(s, Take) && s.fate[s.Head()] == Queued
    ensures Counted(Next(s, Take))
  {
    DeliveryKept(s.accepted, s.fate, s.Head(), Held);
    hide Delivery;
  }

  lemma TakeKeepsInv<R>(s: State<R>)
    requires Inv(s) && Enabled(s, Take)
    ensures Inv(Next(s, Take))
  {
    assert Sized(s) && s.fate[s.Head()] == Queued;
    hide Placed, Counted, Next;
    TakeKeepsPlaced(s);
    TakeKeepsCounted(s);
  }

  lemma SettleKeepsPlaced<R>(s: State<R>, ok: bool)
    requires Placed(s) && Enabled(s, Settle(ok))
    ensures Placed(Next(s, Settle(ok)))
  {
  }

  lemma SettleKeepsCounted<R>(s: State<R>, ok: bool)
    requires Sized(s) && Counted(s) && Enabled(s, Settle(ok))
    requires s.fate[s.worker.at] == Held && s.accepted[s.worker.at] == s.worker.batch
    requires forall j :: s.worker.at <= j < |s.fate| ==> s.fate[j] != Delivered
    ensures Counted(Next(s, Settle(ok)))
  {
    if ok {
      DeliveryAppends(s.accepted, s.fate, s.worker.at);
    } else {
      DeliveryKept(s.accepted, s.fate, s.worker.at, Failed);
    }
    hide Delivery;
  }

  lemma SettleKeepsInv<R>(s: State<R>, ok: bool)
    requires Inv(s) && Enabled(s, Settle(ok))
    ensures Inv(Next(s, Settle(ok)))
  {
    var at := s.worker.at;
    assert Sized(s) && s.fate[at] == Held && s.accepted[at] == s.worker.batch;
    assert forall j :: at <= j < |s.fate| ==> s.fate[j] != Delivered;
    hide Placed, Counted, Next;
    SettleKeepsPlaced(s, ok);
    SettleKeepsCounted(s, ok);
  }

  /** Every step of every thread keeps the invariant. */
  lemma StepKeepsInv<R>(s: State<R>, step: Step<R>)
    requires Inv(s) && Enabled(s, step)
    ensures Inv(Next(s, step))
  {
    match step
    case Write(batch) => WriteKeepsInv(s, batch);
    case Take => TakeKeepsInv(s);
    case Settle(ok) => SettleKeepsInv(s, ok);
    case _ =>
  }

  // ---------------------------------------------------------------- runs

  /** Every step of the run was enabled when it happened. */
  ghost predicate Legal<R>(s: State<R>, run: seq<Step<R>>)
    decreases |run|
  {
    run == [] || (Sized(s) && Enabled(s, run[0]) && Legal(Next(s, run[0]), run[1..]))
  }

  ghost function After<R>(s: State<R>, run: seq<Step<R>>): State<R>
    requires Legal(s, run)
    decreases |run|
  {
    if run == [] then s else After(Next(s, run[0]), run[1..])
  }

  lemma {:induction false} RunKeepsInv<R>(s: State<R>, run: seq<Step<R>>)
    requires Inv(s) && Legal(s, run)
    ensures Inv(After(s, run))
    decreases |run|
  {
    if run != [] {
      StepKeepsInv(s, run[0]);
      RunKeepsInv(Next(s, run[0]), run[1..]);
    }
  }

  /** The conservation law, in every state any interleaving can reach. */
  lemma ReachableInv<R>(capacity: nat, run: seq<Step<R>>)
    requires capacity >= 1 && Legal(Init(capacity), run)
    ensures Inv(After(Init(capacity), run))
  {
    InitInv<R>(capacity);
    RunKeepsInv(Init(capacity), run);
  }

  lemma {:induction false} LegalInParts<R>(s: State<R>, run: seq<Step<R>>, step: Step<R>)
    requires Legal(s, run) && Sized(After(s, run)) && Enabled(After(s, run), step)
    ensures Legal(s, run + [step]) && After(s, run + [step]) == Next(After(s, run), step)
    decreases |run|
  {
    hide Sized, Enabled, Next;
    if run == [] {
      assert (run + [step])[0] == step && (run + [step])[1..] == [];
    } else {
      assert (run + [step])[0] == run[0] && (run + [step])[1..] == run[1..] + [step];
      LegalInParts(Next(s, run[0]), run[1..], step);
    }
  }

  /** Once stopped a sink stays stopped, and nothing but a stop stops it. */
  lemma {:induction false} StoppedExactly<R>(s: State<R>, run: seq<Step<R>>)
    requires Inv(s) && Legal(s, run)
    ensures After(s, run).stopping <==> s.stopping || exists k :: 0 <= k < |run| && run[k].Stop?
    decreases |run|
  {
    hide Inv, Sized;
    if run != [] {
      StepKeepsInv(s, run[0]);
      StepStops(s, run[0]);
      hide Next, Enabled;
      StoppedExactly(Next(s, run[0]), run[1..]);
      if k :| 0 <= k < |run| && run[k].Stop? {
        assert k > 0 ==> run[1..][k - 1] == run[k];
      }
      if k :| 0 <= k < |run| - 1 && run[1..][k].Stop? {
        assert run[k + 1] == run[1..][k];
      }
    }
  }

  lemma StepStops<R>(s: State<R>, step: Step<R>)
    requires Inv(s) && Enabled(s, step)
    ensures Next(s, step).stopping <==> s.stopping || step.Stop?
  {
    if step.Write? && step.batch != [] {
      WriteDropsAtMostOne(s, step.batch);
    }
  }

  /** How many writes of a run found the queue full. */
  ghost function FullWrites<R>(s: State<R>, run: seq<Step<R>>): nat
    requires Legal(s, run)
    decreases |run|
  {
    if run == [] then 0
    else
      (if run[0].Write? && run[0].batch != [] && |s.queue| == s.capacity then 1 else 0)
      + FullWrites(Next(s, run[0]), run[1..])
  }

  function Failures<R>(run: seq<Step<R>>): nat {
    if run == [] then 0 else (if run[0].Settle? && !run[0].ok then 1 else 0) + Failures(run[1..])
  }

  /** dropped() counts the writes that overflowed and the batches given up on, and nothing else. */
  lemma {:induction false} DroppedCounts<R>(s: State<R>, run: seq<Step<R>>)
    requires Inv(s) && Legal(s, run)
    ensures After(s, run).dropped == s.dropped + FullWrites(s, run) + Failures(run)
    decreases |run|
  {
    if run != [] {
      StepKeepsInv(s, run[0]);
      if run[0].Write? && run[0].batch != [] {
        WriteDropsAtMostOne(s, run[0].batch);
      }
      DroppedCounts(Next(s, run[0]), run[1..]);
    }
    hide Inv, Delivery;
  }

  lemma {:induction false} FailuresInParts<R>(run: seq<Step<R>>, step: Step<R>)
    ensures Failures(run + [step]) == Failures(run) + if step.Settle? && !step.ok then 1 else 0
  {
    if run == [] {
      assert (run + [step])[0] == step && (run + [step])[1..] == [];
    } else {
      assert (run + [step])[0] == run[0] && (run + [step])[1..] == run[1..] + [step];
      FailuresInParts(run[1..], step);
    }
  }

  /** The sequence numbers of the delivered batches. */
  function Positions(fate: seq<Fate>): seq<nat> {
    if fate == [] then []
    else
      var n := |fate| - 1;
      Positions(fate[..n]) + if fate[n] == Delivered then [n] else []
  }

  lemma {:induction false} PositionsAscend(fate: seq<Fate>)
    ensures forall k :: 0 <= k < |Positions(fate)| ==> Positions(fate)[k] < |fate|
    ensures forall j, k :: 0 <= j < k < |Positions(fate)| ==> Positions(fate)[j] < Positions(fate)[k]
  {
    if fate != [] {
      PositionsAscend(fate[..|fate| - 1]);
    }
  }

  lemma {:induction false} PositionsAreDelivered(fate: seq<Fate>, i: nat)
    ensures i in Positions(fate) <==> i < |fate| && fate[i] == Delivered
  {
    if fate != [] {
      var n := |fate| - 1;
      var before := Positions(fate[..n]);
      PositionsAreDelivered(fate[..n], i);
      assert i in before + [n] <==> i in before || i == n;
      assert before + [] == before;
    }
  }

  lemma {:induction false} PositionsDeliver<R>(accepted: seq<seq<R>>, fate: seq<Fate>, k: nat)
    requires |accepted| == |fate|
    ensures |Positions(fate)| == |Delivery(accepted, fate)|
    ensures k < |Positions(fate)| ==>
              Positions(fate)[k] < |fate| && accepted[Positions(fate)[k]] == Delivery(accepted, fate)[k]
  {
    if fate != [] {
      PositionsDeliver(accepted[..|fate| - 1], fate[..|fate| - 1], k);
    }
  }

  /** The output is an ordered subsequence of what was accepted: `order` lists the delivered sequence numbers. */
  lemma DeliveryIsOrdered<R>(accepted: seq<seq<R>>, fate: seq<Fate>) returns (order: seq<nat>)
    requires |accepted| == |fate|
    ensures |order| == |Delivery(accepted, fate)|
    ensures forall k :: 0 <= k < |order| ==> order[k] < |fate| && fate[order[k]] == Delivered
    ensures forall k :: 0 <= k < |order| ==> accepted[order[k]] == Delivery(accepted, fate)[k]
    ensures forall j, k :: 0 <= j < k < |order| ==> order[j] < order[k]
    ensures forall i :: 0 <= i < |fate| && fate[i] == Delivered ==> i in order
  {
    hide Positions, Delivery;
    order := Positions(fate);
    PositionsAscend(fate);
    PositionsDeliver(accepted, fate, 0);
    forall k | 0 <= k < |order|
      ensures fate[order[k]] == Delivered && accepted[order[k]] == Delivery(accepted, fate)[k]
    {
      PositionsAreDelivered(fate, order[k]);
      PositionsDeliver(accepted, fate, k);
    }
    forall i | 0 <= i < |fate| && fate[i] == Delivered
      ensures i in order
    {
      PositionsAreDelivered(fate, i);
    }
  }

  // ---------------------------------------------------------------- the object

  /** The sink object; each method is one critical section, or the worker's work between two of them. */
  class QueueingSink<R> {
    const capacity: nat
    var queue: seq<seq<R>>
    var stopping: bool
    var written: nat
    var queued: nat
    var dropped: nat
    var worker: Worker<R>
    var output: seq<seq<R>>
    ghost var accepted: seq<seq<R>>
    ghost var fate: seq<Fate>

    ghost function Now(): State<R>
      reads this
    {
      State(capacity, queue, stopping, written, queued, dropped, worker, output, accepted, fate)
    }

    /** StdoutJsonSink: a capacity of zero is taken as one. */
    constructor Stdout(maxQueued: nat)
      ensures Now() == Init(if maxQueued == 0 then 1 else maxQueued) && Inv(Now())
    {
      capacity := if maxQueued == 0 then 1 else maxQueued;
      queue, stopping, written, queued, dropped := [], false, 0, 0, 0;
      worker, output, accepted, fate := Waiting, [], [], [];
    }

    /** HttpSink takes its capacity as given; see Write for zero. */
    constructor Http(maxQueued: nat)
      ensures Now() == Init(maxQueued) && capacity == maxQueued && (Inv(Now()) <==> maxQueued >= 1)
    {
      capacity := maxQueued;
      queue, stopping, written, queued, dropped := [], false, 0, 0, 0;
      worker, output, accepted, fate := Waiting, [], [], [];
    }

    /** Not `defined` when the drop loop would pop an empty deque, which is exactly on a nonempty batch at capacity
        zero. */
    method Write(batch: seq<R>) returns (defined: bool)
      requires !stopping && (Inv(Now()) || (capacity == 0 && queue == []))
      modifies this
      ensures defined <==> capacity >= 1 || batch == []
      ensures Inv(old(Now())) ==> Now() == Next(old(Now()), Step.Write(batch)) && Inv(Now())
      ensures capacity == 0 ==> Now() == old(Now())
    {
      hide Counted, Delivery;
      if batch == [] {
        return true;
      }
      ghost var s := Now();
      while |queue| >= capacity
        invariant capacity >= 1 ==> s == Now() && Sized(s) && DropWhileFull(s) == DropWhileFull(old(Now()))
        invariant capacity == 0 ==> Now() == old(Now())
        decreases |queue|
      {
        if queue == [] {
          return false;
        }
        fate := fate[s.Head() := Overflowed];
        queue := queue[1..];
        written := written + 1;
        dropped := dropped + 1;
        s := DropOldest(s);
      }
      queue := queue + [batch];
      queued := queued + 1;
      accepted := accepted + [batch];
      fate := fate + [Queued];
      assert Now() == Push(s, batch);
      WriteKeepsInv(old(Now()), batch);
      return true;
    }

    /** The worker's first critical section: take the front, or leave when stopping with nothing queued. */
    method TakeOrLeave() returns (taken: bool)
      requires Inv(Now()) && worker.Waiting? && (queue != [] || stopping)
      modifies this
      ensures taken <==> old(queue) != []
      ensures Now() == Next(old(Now()), if taken then Take else Leave) && Inv(Now())
    {
      hide Placed, Counted;
      ghost var s := Now();
      HeadIsAccepted(s);
      if queue == [] {
        StepKeepsInv(s, Leave);
        worker := Leaving;
        return false;
      }
      StepKeepsInv(s, Take);
      fate := fate[Now().Head() := Held];
      worker := Holding(queue[0], queued - |queue|);
      queue := queue[1..];
      assert Now() == Next(s, Take);
      return true;
    }

    /** Emits the held batch; `ok` says whether it got out (a stream write is never checked, a post is). */
    method SettleBatch(ok: bool)
      requires Inv(Now()) && worker.Holding?
      modifies this
      ensures Now() == Next(old(Now()), Settle(ok)) && Inv(Now())
    {
      hide Counted;
      SettleKeepsInv(Now(), ok);
      if ok {
        output := output + [worker.batch];
        fate := fate[worker.at := Delivered];
      } else {
        dropped := dropped + 1;
        fate := fate[worker.at := Failed];
      }
      worker := Settled(worker.at);
    }

    /** The worker's second critical section. */
    method CountBatch()
      requires Inv(Now()) && worker.Settled?
      modifies this
      ensures Now() == Next(old(Now()), Complete) && Inv(Now())
    {
      written := written + 1;
      worker := Notifying;
    }

    /** drained_cv_.notify_all: the worker is back at its wait. */
    method NotifyFlushers()
      requires Inv(Now()) && worker.Notifying?
      modifies this
      ensures Now() == Next(old(Now()), Notify) && Inv(Now())
    {
      worker := Waiting;
    }

    /** The last notification, after the loop. */
    method Exit()
      requires Inv(Now()) && worker.Leaving?
      modifies this
      ensures Now() == Next(old(Now()), Finish) && Inv(Now())
    {
      worker := Exited;
    }

    method BeginStop()
      requires Inv(Now()) && !stopping
      modifies this
      ensures Now() == Next(old(Now()), Stop) && Inv(Now())
    {
      stopping := true;
    }
  }
}

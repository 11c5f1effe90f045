/** Records all the way: the pipeline and one queueing sink running together, its worker at any pace. */
module EndToEnd {
  import opened Text
  import opened CgroupPath
  import opened Resolver
  import opened AttributionSoundness
  import Pipeline
  import opened SinkQueue
  import opened Flush

  type Record = Pipeline.Record

  /** The pipeline and the sink that goes by the id `tracked`, wired or not. */
  datatype Both = Both(pipe: Pipeline.State, sink: State<Record>, tracked: nat)

  /** The daemon thread runs the pipeline, the worker thread the sink. */
  datatype Move = OfPipeline(op: Pipeline.Op) | OfWorker(step: Step<Record>)

  /** The writes a series of batches makes on the sink. */
  function WriteAll(s: State<Record>, batches: seq<seq<Record>>): State<Record>
    requires Inv(s) && !s.stopping
    ensures Inv(WriteAll(s, batches)) && !WriteAll(s, batches).stopping
    decreases |batches|
  {
    if batches == [] then s
    else
      WriteKeepsInv(s, batches[0]);
      WriteStaysOpen(s, batches[0]);
      WriteAll(WriteBatch(s, batches[0]), batches[1..])
  }

  lemma WriteStaysOpen(s: State<Record>, batch: seq<Record>)
    requires Inv(s)
    ensures WriteBatch(s, batch).stopping == s.stopping
    ensures WriteBatch(s, batch).accepted == if batch == [] then s.accepted else s.accepted + [batch]
  {
    if batch != [] {
      WriteDropsAtMostOne(s, batch);
    }
  }

  /** The calls an op makes beyond those made before. */
  function NewBatches(before: Pipeline.State, after: Pipeline.State, sink: nat): seq<seq<Record>>
    requires |before.calls| <= |after.calls|
  {
    Pipeline.Received(after.calls[|before.calls|..], sink)
  }

  /** Rewiring may bring the sink in and take it out again. */
  ghost predicate Allowed(b: Both, m: Move) {
    match m
    case OfPipeline(op) => Pipeline.WellWired(op)
    case OfWorker(step) => ByWorker(step) && Enabled(b.sink, step)
  }

  /** The sink has accepted exactly the batches shipped while it was wired. */
  ghost predicate Sound(b: Both) {
    && Pipeline.Conserved(b.pipe)
    && Inv(b.sink) && !b.sink.stopping
    && b.sink.accepted == Pipeline.ShippedTo(b.pipe.shipped, b.tracked)
  }

  lemma CallsGrow(s: Pipeline.State, op: Pipeline.Op)
    ensures s.calls <= Pipeline.Next(s, op).calls
  {
  }

  ghost function Advance(b: Both, m: Move): Both
    requires Sound(b) && Allowed(b, m)
  {
    match m
    case OfPipeline(op) =>
      CallsGrow(b.pipe, op);
      var pipe := Pipeline.Next(b.pipe, op);
      b.(pipe := pipe, sink := WriteAll(b.sink, NewBatches(b.pipe, pipe, b.tracked)))
    case OfWorker(step) => b.(sink := Next(b.sink, step))
  }

  lemma {:induction false} WriteAllAccepts(s: State<Record>, batches: seq<seq<Record>>)
    requires Inv(s) && !s.stopping
    requires NoneEmpty(batches)
    ensures WriteAll(s, batches).accepted == s.accepted + batches
    decreases |batches|
  {
    hide Counted, WriteBatch;
    if batches != [] {
      WriteKeepsInv(s, batches[0]);
      WriteStaysOpen(s, batches[0]);
      WriteAllAccepts(WriteBatch(s, batches[0]), batches[1..]);
      assert s.accepted + batches == s.accepted + [batches[0]] + batches[1..];
    } else {
      assert s.accepted + batches == s.accepted;
    }
  }

  /** Shipping hands a sink the pending batch if it is wired, and nothing if it is not. */
  lemma ShipHandsOver(s: Pipeline.State, more: seq<Pipeline.SinkCall>, sink: nat)
    requires Pipeline.Distinct(s.sinks) && Pipeline.Received(more, sink) == []
    ensures s.calls <= Pipeline.Ship(s).calls
    ensures var handed := Pipeline.Received((Pipeline.Ship(s).calls + more)[|s.calls|..], sink);
            && handed == (if s.pending == [] || sink !in s.sinks then [] else [s.pending])
            && Pipeline.ShippedTo(Pipeline.Ship(s).shipped, sink) == Pipeline.ShippedTo(s.shipped, sink) + handed
  {
    var before := Pipeline.ShippedTo(s.shipped, sink);
    assert before + [] == before;
    if s.pending == [] {
      assert (s.calls + more)[|s.calls|..] == more;
    } else {
      var writes := Pipeline.WritesTo(s.sinks, s.pending);
      assert (s.calls + writes + more)[|s.calls|..] == writes + more;
      Pipeline.ReceivedConcat(writes, more, sink);
      Pipeline.ReceivedWrites(s.sinks, s.pending, sink);
      ShippedAppend(s.shipped, Pipeline.Shipment(s.pending, s.sinks), sink);
      hide Pipeline.Received, Pipeline.ShippedTo, Pipeline.WritesTo;
    }
  }

  lemma ShippedAppend(shipped: seq<Pipeline.Shipment>, last: Pipeline.Shipment, sink: nat)
    ensures Pipeline.ShippedTo(shipped + [last], sink) ==
            Pipeline.ShippedTo(shipped, sink) + if sink in last.to then [last.batch] else []
    ensures Pipeline.Batches(shipped + [last]) == Pipeline.Batches(shipped) + [last.batch]
  {
    assert (shipped + [last])[..|shipped|] == shipped;
  }

  ghost predicate NoneEmpty(batches: seq<seq<Record>>) {
    forall i :: 0 <= i < |batches| ==> batches[i] != []
  }

  /** Shipping, followed by calls that write nothing. */
  lemma ShipsTo(s: Pipeline.State, more: seq<Pipeline.SinkCall>, sink: nat)
    requires Pipeline.Distinct(s.sinks) && Pipeline.Received(more, sink) == []
    ensures var calls := Pipeline.Ship(s).calls + more;
            && s.calls <= calls
            && var handed := Pipeline.Received(calls[|s.calls|..], sink);
               && Pipeline.ShippedTo(Pipeline.Ship(s).shipped, sink) == Pipeline.ShippedTo(s.shipped, sink) + handed
               && NoneEmpty(handed)
  {
    hide Pipeline.Ship, Pipeline.Received, Pipeline.ShippedTo, Pipeline.Distinct;
    ShipHandsOver(s, more, sink);
  }

  lemma ShipKeepsSinks(s: Pipeline.State)
    ensures Pipeline.Ship(s).sinks == s.sinks
  {
  }

  lemma NothingReceived(s: Pipeline.State, sink: nat)
    ensures Pipeline.Received([], sink) == [] && Pipeline.Ship(s).calls + [] == Pipeline.Ship(s).calls
    ensures s.calls[|s.calls|..] == []
    ensures Pipeline.ShippedTo(s.shipped, sink) + [] == Pipeline.ShippedTo(s.shipped, sink)
  {
  }

  /** A pipeline step hands a sink exactly the batches it ships while the sink is wired, whether it is wired or not. */
  lemma ShippedIsReceived(s: Pipeline.State, op: Pipeline.Op, sink: nat)
    requires Pipeline.Distinct(s.sinks)
    ensures s.calls <= Pipeline.Next(s, op).calls
    ensures var s' := Pipeline.Next(s, op); var handed := NewBatches(s, s', sink);
            Pipeline.ShippedTo(s'.shipped, sink) == Pipeline.ShippedTo(s.shipped, sink) + handed && NoneEmpty(handed)
  {
    hide Pipeline.Ship, Pipeline.Received, Pipeline.ShippedTo, Pipeline.Enrich, Pipeline.CacheUser, Pipeline.Distinct;
    CallsGrow(s, op);
    match op
    case Emit(r, around, at) =>
      NothingReceived(Pipeline.Batch(s, r, around, at), sink);
      ShipsTo(Pipeline.Batch(s, r, around, at), [], sink);
    case Flush(now) =>
      Pipeline.ReceivedFlushes(s.sinks, sink);
      ShipKeepsSinks(s);
      ShipsTo(s, Pipeline.FlushesOf(s.sinks), sink);
    case _ =>
      NothingReceived(s, sink);
      ShipsTo(s, [], sink);
  }

  lemma AdvanceStaysSound(b: Both, m: Move)
    requires Sound(b) && Allowed(b, m)
    ensures Sound(Advance(b, m))
  {
    match m
    case OfPipeline(op) =>
      Pipeline.StepConserves(b.pipe, op);
      ShippedIsReceived(b.pipe, op, b.tracked);
      WriteAllAccepts(b.sink, NewBatches(b.pipe, Pipeline.Next(b.pipe, op), b.tracked));
    case OfWorker(step) =>
      StepKeepsInv(b.sink, step);
  }

  ghost predicate Runs(b: Both, moves: seq<Move>)
    decreases |moves|
  {
    moves == [] || (Sound(b) && Allowed(b, moves[0]) && Runs(Advance(b, moves[0]), moves[1..]))
  }

  ghost function Reach(b: Both, moves: seq<Move>): Both
    requires Runs(b, moves)
    decreases |moves|
  {
    if moves == [] then b else Reach(Advance(b, moves[0]), moves[1..])
  }

  lemma {:induction false} ReachStaysSound(b: Both, moves: seq<Move>)
    requires Sound(b) && Runs(b, moves)
    ensures Sound(Reach(b, moves))
    decreases |moves|
  {
    if moves != [] {
      AdvanceStaysSound(b, moves[0]);
      ReachStaysSound(Advance(b, moves[0]), moves[1..]);
    }
  }

  // ---------------------------------------------------------------- the accounting

  /** The batches that were not delivered, in order. */
  function Lost(accepted: seq<seq<Record>>, fate: seq<Fate>): seq<seq<Record>>
    requires |accepted| == |fate|
  {
    if accepted == [] then []
    else
      var n := |accepted| - 1;
      Lost(accepted[..n], fate[..n]) + if fate[n] == Delivered then [] else [accepted[n]]
  }

  /** Delivered and lost batches together hold every record once. */
  lemma {:induction false} RecordsSplit(accepted: seq<seq<Record>>, fate: seq<Fate>)
    requires |accepted| == |fate|
    ensures multiset(Pipeline.Flat(accepted)) ==
            multiset(Pipeline.Flat(Delivery(accepted, fate))) + multiset(Pipeline.Flat(Lost(accepted, fate)))
    ensures |Delivery(accepted, fate)| + |Lost(accepted, fate)| == |accepted|
  {
    if accepted == [] {
      return;
    }
    var n := |accepted| - 1;
    var d, l, last := Delivery(accepted[..n], fate[..n]), Lost(accepted[..n], fate[..n]), accepted[n];
    assert Delivery(accepted, fate) == d + if fate[n] == Delivered then [last] else [];
    assert Lost(accepted, fate) == l + if fate[n] == Delivered then [] else [last];
    assert accepted == accepted[..n] + [last];
    hide Delivery, Lost, Pipeline.Flat;
    RecordsSplit(accepted[..n], fate[..n]);
    Pipeline.FlatAppend(accepted[..n], last);
    if fate[n] == Delivered {
      Pipeline.FlatAppend(d, last);
      assert l + [] == l;
    } else {
      Pipeline.FlatAppend(l, last);
      assert d + [] == d;
    }
  }

  ghost predicate WorkerOnly(moves: seq<Move>) {
    forall i :: 0 <= i < |moves| ==> moves[i].OfWorker?
  }

  /** While the daemon thread waits in flush, the pipeline and what the sink accepted stand still. */
  lemma {:induction false} WaitingStandsStill(b: Both, moves: seq<Move>)
    requires Sound(b) && Runs(b, moves) && WorkerOnly(moves)
    ensures Reach(b, moves).pipe == b.pipe && Reach(b, moves).sink.accepted == b.sink.accepted
    decreases |moves|
  {
    if moves != [] {
      AdvanceStaysSound(b, moves[0]);
      WaitingStandsStill(Advance(b, moves[0]), moves[1..]);
    }
  }

  ghost function Start(opt: Pipeline.Options, sinks: seq<nat>, now: int, tracked: nat, capacity: nat): Both {
    Both(Pipeline.Init(opt, sinks, now), Init(capacity), tracked)
  }

  function FlushAt(now: int): Move {
    OfPipeline(Pipeline.Op.Flush(now))
  }

  /** Pipeline::flush from any sound state always gets to return: the worker's own steps, however its writes go, end
      the wait it is in. */
  lemma {:induction false} FlushSettles(b: Both, target: nat, posts: State<Record> -> bool) returns (waiting: seq<Move>)
    requires Sound(b) && target <= b.sink.queued
    ensures Runs(b, waiting) && WorkerOnly(waiting) && WaitOver(Reach(b, waiting).sink, target)
    decreases Rank(b.sink)
  {
    hide Sound, Allowed, Advance, Rank;
    if WaitOver(b.sink, target) {
      waiting := [];
    } else {
      var m := WorkerTurn(b, target, posts);
      var rest := FlushSettles(Advance(b, m), target, posts);
      waiting := [m] + rest;
      assert waiting[1..] == rest;
    }
  }

  lemma WorkerTurn(b: Both, target: nat, posts: State<Record> -> bool) returns (m: Move)
    requires Sound(b) && target <= b.sink.queued && !WaitOver(b.sink, target)
    ensures m.OfWorker? && Allowed(b, m) && Sound(Advance(b, m))
    ensures Rank(Advance(b, m).sink) < Rank(b.sink) && target <= Advance(b, m).sink.queued
  {
    m := OfWorker(WorkerStep(b.sink, posts(b.sink)));
    AdvanceStaysSound(b, m);
    WorkerStepsDown(b.sink, m.step);
  }

  /** Nothing is queued or held, and the records of the batches shipped while the sink was wired split exactly into
      those delivered, batch by batch in emission order, and those inside the batches counted by dropped(). */
  ghost predicate Accounted(b: Both) {
    var s := b.sink;
    && s.queue == [] && s.InWorker() == 0 && |s.accepted| == |s.fate|
    && s.accepted == Pipeline.ShippedTo(b.pipe.shipped, b.tracked)
    && s.output == Delivery(s.accepted, s.fate)
    && |Lost(s.accepted, s.fate)| == s.dropped
    && multiset(Pipeline.Flat(s.accepted)) ==
       multiset(Pipeline.Flat(s.output)) + multiset(Pipeline.Flat(Lost(s.accepted, s.fate)))
  }

  /** Worker steps at the end of which a flush of the sink begun here returns. */
  ghost predicate Returns(c: Both, waiting: seq<Move>) {
    Runs(c, waiting) && WorkerOnly(waiting) && WaitOver(Reach(c, waiting).sink, c.sink.queued)
  }

  /** A flush of the sink, by the pipeline or while it is being removed, ends, and every way it can end leaves every
      record the sink was handed accounted for. */
  lemma SinkFlushAccounts(b: Both)
    requires Sound(b)
    ensures exists waiting :: Returns(b, waiting)
    ensures forall waiting :: Returns(b, waiting) ==> Accounted(Reach(b, waiting)) && Reach(b, waiting).pipe == b.pipe
  {
    hide Accounted, Runs, WaitOver;
    SoundCounts(b);
    var ends := FlushSettles(b, b.sink.queued, _ => true);
    assert Returns(b, ends);
    forall waiting | Returns(b, waiting)
      ensures Accounted(Reach(b, waiting)) && Reach(b, waiting).pipe == b.pipe
    {
      ReturnAccounts(b, waiting);
    }
  }

  lemma SoundCounts(b: Both)
    requires Sound(b)
    ensures b.sink.queued == |b.sink.accepted|
  {
  }

  lemma ReturnAccounts(b: Both, waiting: seq<Move>)
    requires Sound(b) && Returns(b, waiting)
    ensures Accounted(Reach(b, waiting)) && Reach(b, waiting).pipe == b.pipe
  {
    ReachStaysSound(b, waiting);
    WaitingStandsStill(b, waiting);
    var d := Reach(b, waiting);
    DrainedAddsUp(d.sink);
    RecordsSplit(d.sink.accepted, d.sink.fate);
    hide Pipeline.Conserved, Pipeline.Flat, Lost, Delivery, Runs;
  }

  /** No rewiring takes the sink out. */
  ghost predicate StaysWired(tracked: nat, moves: seq<Move>) {
    forall k :: 0 <= k < |moves| && moves[k].OfPipeline? && moves[k].op.SetSinks? ==> tracked in moves[k].op.ids
  }

  /** It is wired now, and everything shipped so far was shipped to it. */
  ghost predicate Whole(b: Both) {
    b.tracked in b.pipe.sinks
    && Pipeline.ShippedTo(b.pipe.shipped, b.tracked) == Pipeline.Batches(b.pipe.shipped)
  }

  lemma MoveKeepsWhole(b: Both, m: Move)
    requires Sound(b) && Allowed(b, m) && Whole(b) && StaysWired(b.tracked, [m])
    ensures Whole(Advance(b, m))
  {
    hide Pipeline.ShippedTo, Pipeline.Batches, Pipeline.Enrich, Inv, Pipeline.Conserved;
    assert [m][0] == m;
    if m.OfPipeline? {
      match m.op
      case Emit(r, around, at) => ShipKeepsWhole(Pipeline.Batch(b.pipe, r, around, at), b.tracked);
      case _ => ShipKeepsWhole(b.pipe, b.tracked);
    }
  }

  lemma ShipKeepsWhole(s: Pipeline.State, sink: nat)
    requires sink in s.sinks && Pipeline.ShippedTo(s.shipped, sink) == Pipeline.Batches(s.shipped)
    ensures sink in Pipeline.Ship(s).sinks
    ensures Pipeline.ShippedTo(Pipeline.Ship(s).shipped, sink) == Pipeline.Batches(Pipeline.Ship(s).shipped)
  {
    ShippedAppend(s.shipped, Pipeline.Shipment(s.pending, s.sinks), sink);
    hide Pipeline.ShippedTo, Pipeline.Batches;
  }

  lemma {:induction false} ReachStaysWhole(b: Both, moves: seq<Move>)
    requires Sound(b) && Runs(b, moves) && Whole(b) && StaysWired(b.tracked, moves)
    ensures Whole(Reach(b, moves))
    decreases |moves|
  {
    hide Sound, Allowed, Whole, Advance;
    if moves != [] {
      MoveKeepsWhole(b, moves[0]);
      AdvanceStaysSound(b, moves[0]);
      AdvanceKeepsName(b, moves[0]);
      ReachStaysWhole(Advance(b, moves[0]), moves[1..]);
    }
  }

  lemma AdvanceKeepsName(b: Both, m: Move)
    requires Sound(b) && Allowed(b, m)
    ensures Advance(b, m).tracked == b.tracked
  {
    hide Pipeline.Next, Next, WriteAll;
  }

  /** What Pipeline::flush adds: nothing is pending, and if the sink was wired all along the records it was handed are
      all the records emitted, in order. */
  lemma PipelineFlushes(b: Both, now: int)
    requires Sound(b)
    ensures var c := Advance(b, FlushAt(now));
            && Sound(c) && c.pipe.pending == [] && c.pipe.log == b.pipe.log
            && (Whole(b) ==> Pipeline.Flat(c.sink.accepted) == c.pipe.log)
  {
    hide Sound, Whole, Advance;
    AdvanceStaysSound(b, FlushAt(now));
    FlushShipsAll(b, now);
    if Whole(b) {
      MoveKeepsWhole(b, FlushAt(now));
      WholeIsLog(Advance(b, FlushAt(now)));
    }
  }

  lemma FlushShipsAll(b: Both, now: int)
    requires Sound(b)
    ensures var c := Advance(b, FlushAt(now)); c.pipe.pending == [] && c.pipe.log == b.pipe.log
  {
    hide Sound, WriteAll, Pipeline.Received, Pipeline.WritesTo, Pipeline.FlushesOf;
  }

  lemma WholeIsLog(c: Both)
    requires Sound(c) && Whole(c) && c.pipe.pending == []
    ensures Pipeline.Flat(c.sink.accepted) == c.pipe.log
  {
    hide Inv, Pipeline.Flat, Pipeline.Batches, Pipeline.ShippedTo, Pipeline.Received;
    var all := Pipeline.Flat(Pipeline.Batches(c.pipe.shipped));
    assert all + [] == all;
  }

  /** End to end: after any run of pipeline and sink from the start, with the sink wired, unwired or not yet wired, a
      flush ends, and every way it can end leaves accounted for every record shipped to the sink: all those emitted so
      far, one for each emission and telling all of it, if it was wired all along. */
  lemma EveryRecordIsAccountedFor(opt: Pipeline.Options, sinks: seq<nat>, start: int, tracked: nat, capacity: nat,
                                  moves: seq<Move>, now: int)
    requires capacity >= 1 && Pipeline.Distinct(sinks)
    requires Runs(Start(opt, sinks, start, tracked, capacity), moves)
    ensures var b := Reach(Start(opt, sinks, start, tracked, capacity), moves);
            Sound(b) && var c := Advance(b, FlushAt(now));
            && (exists waiting :: Returns(c, waiting))
            && forall waiting :: Returns(c, waiting) ==>
                 var d := Reach(c, waiting);
                 && Accounted(d) && d.pipe.log == b.pipe.log && d.pipe.pending == []
                 && Pipeline.Told(d.pipe.log, opt, Pipeline.Emitted(PipelineOps(moves)))
                 && (tracked in sinks && StaysWired(tracked, moves) ==> Pipeline.Flat(d.sink.accepted) == d.pipe.log)
  {
    hide Sound, Accounted, Whole, Returns, Advance, Pipeline.Flat, Pipeline.Told, Pipeline.Emitted, PipelineOps;
    LogTellsEmissions(opt, sinks, start, tracked, capacity, moves);
    StartIsSound(opt, sinks, start, tracked, capacity);
    var s0 := Start(opt, sinks, start, tracked, capacity);
    ReachStaysSound(s0, moves);
    if tracked in sinks && StaysWired(tracked, moves) {
      ReachStaysWhole(s0, moves);
    }
    var b := Reach(s0, moves);
    PipelineFlushes(b, now);
    SinkFlushAccounts(Advance(b, FlushAt(now)));
    StandsStill(Advance(b, FlushAt(now)));
  }

  /** What the pipeline goes through in a run of both. */
  function PipelineOps(moves: seq<Move>): seq<Pipeline.Op> {
    if moves == [] then []
    else (if moves[0].OfPipeline? then [moves[0].op] else []) + PipelineOps(moves[1..])
  }

  lemma {:induction false} PipelineRuns(b: Both, moves: seq<Move>)
    requires Sound(b) && Runs(b, moves)
    ensures Reach(b, moves).pipe == Pipeline.Run(b.pipe, PipelineOps(moves))
    decreases |moves|
  {
    hide Sound, Allowed, Advance, Pipeline.Next;
    if moves != [] {
      var m, rest := moves[0], PipelineOps(moves[1..]);
      AdvanceStaysSound(b, m);
      AdvanceRuns(b, m);
      PipelineRuns(Advance(b, m), moves[1..]);
      if m.OfPipeline? {
        assert ([m.op] + rest)[0] == m.op && ([m.op] + rest)[1..] == rest;
      } else {
        assert [] + rest == rest;
      }
    }
  }

  lemma AdvanceRuns(b: Both, m: Move)
    requires Sound(b) && Allowed(b, m)
    ensures Advance(b, m).pipe == if m.OfPipeline? then Pipeline.Next(b.pipe, m.op) else b.pipe
  {
    hide Pipeline.Next, Next, WriteAll;
  }

  /** The log is one record per emission of the run, each telling all of it. */
  lemma LogTellsEmissions(opt: Pipeline.Options, sinks: seq<nat>, start: int, tracked: nat, capacity: nat,
      moves: seq<Move>)
    requires capacity >= 1 && Pipeline.Distinct(sinks)
    requires Runs(Start(opt, sinks, start, tracked, capacity), moves)
    ensures Pipeline.Told(Reach(Start(opt, sinks, start, tracked, capacity), moves).pipe.log, opt,
                          Pipeline.Emitted(PipelineOps(moves)))
  {
    hide Pipeline.Told, Pipeline.Emitted, Sound, Runs, Reach;
    StartIsSound(opt, sinks, start, tracked, capacity);
    PipelineRuns(Start(opt, sinks, start, tracked, capacity), moves);
    Pipeline.EveryEmissionIsTold(opt, sinks, start, PipelineOps(moves));
  }

  lemma StandsStill(c: Both)
    requires Sound(c)
    ensures forall waiting :: Returns(c, waiting) ==> Reach(c, waiting).sink.accepted == c.sink.accepted
  {
    forall waiting | Returns(c, waiting)
      ensures Reach(c, waiting).sink.accepted == c.sink.accepted
    {
      WaitingStandsStill(c, waiting);
    }
    hide Sound, Runs;
  }

  lemma StartIsSound(opt: Pipeline.Options, sinks: seq<nat>, start: int, tracked: nat, capacity: nat)
    requires capacity >= 1 && Pipeline.Distinct(sinks)
    ensures var s0 := Start(opt, sinks, start, tracked, capacity);
            Sound(s0) && s0.tracked == tracked && (tracked in sinks ==> Whole(s0))
  {
    InitInv<Record>(capacity);
  }

  /** A sink a reload removes: unwired, then flushed on its own, every record shipped to it is accounted for. */
  lemma RemovedSinkIsAccountedFor(opt: Pipeline.Options, sinks: seq<nat>, start: int, tracked: nat, capacity: nat,
                                  moves: seq<Move>, left: seq<nat>)
    requires capacity >= 1 && Pipeline.Distinct(sinks) && Pipeline.Distinct(left) && tracked !in left
    requires Runs(Start(opt, sinks, start, tracked, capacity), moves)
    ensures var b := Reach(Start(opt, sinks, start, tracked, capacity), moves);
            Sound(b) && var c := Advance(b, OfPipeline(Pipeline.Op.SetSinks(left)));
            && (exists waiting :: Returns(c, waiting))
            && forall waiting :: Returns(c, waiting) ==>
                 var d := Reach(c, waiting);
                 && Accounted(d) && d.pipe.pending == b.pipe.pending
                 && d.sink.accepted == Pipeline.ShippedTo(b.pipe.shipped, tracked)
  {
    hide Sound, Accounted, Whole, Returns, Runs, Advance, Pipeline.ShippedTo;
    var s0 := Start(opt, sinks, start, tracked, capacity);
    StartIsSound(opt, sinks, start, tracked, capacity);
    ReachStaysSound(s0, moves);
    ReachKeepsName(s0, moves);
    var b := Reach(s0, moves);
    RewiringShipsNothing(b, left);
    SinkFlushAccounts(Advance(b, OfPipeline(Pipeline.Op.SetSinks(left))));
    StandsStill(Advance(b, OfPipeline(Pipeline.Op.SetSinks(left))));
  }

  lemma RewiringShipsNothing(b: Both, left: seq<nat>)
    requires Sound(b) && Pipeline.Distinct(left)
    ensures var c := Advance(b, OfPipeline(Pipeline.Op.SetSinks(left)));
            && Sound(c) && c.pipe.pending == b.pipe.pending
            && c.sink.accepted == Pipeline.ShippedTo(b.pipe.shipped, b.tracked)
  {
    hide WriteAll, Pipeline.Conserved, Inv, Pipeline.ShippedTo, Pipeline.Received;
    AdvanceStaysSound(b, OfPipeline(Pipeline.Op.SetSinks(left)));
    AdvanceKeepsName(b, OfPipeline(Pipeline.Op.SetSinks(left)));
  }

  lemma {:induction false} ReachKeepsName(b: Both, moves: seq<Move>)
    requires Sound(b) && Runs(b, moves)
    ensures Reach(b, moves).tracked == b.tracked
    decreases |moves|
  {
    hide Sound, Allowed, Advance;
    if moves != [] {
      AdvanceKeepsName(b, moves[0]);
      AdvanceStaysSound(b, moves[0]);
      ReachKeepsName(Advance(b, moves[0]), moves[1..]);
    }
  }

  // ---------------------------------------------------------------- whose record it is

  /** What a record shows of an attribution; an empty step leaves the record's own. */
  function Shown(r: Record, attr: Attribution): (Option<nat>, Option<string>, Option<nat>) {
    (Some(attr.jobId), if attr.stepId == "" then r.stepId else Some(attr.stepId), attr.taskId)
  }

  predicate Carries(out: Record, r: Record, attr: Attribution) {
    (out.jobId, out.stepId, out.taskId) == Shown(r, attr)
  }

  /** The record names the job that had its id, or none. */
  ghost predicate NamedRightly(out: Record, r: Record, owner: Option<Call>)
    requires owner.Some? ==> owner.value.Created? && Parse(owner.value.path).Some?
  {
    out.jobId.Some? ==> owner.Some? && Carries(out, r, Parse(owner.value.path).value)
  }

  /** For every history, delivered as far as it may be, and the wall-clock stamp it is given on the way: a record
      leaves the pipeline naming the last job creation delivered by its event's stamp, unless there is none, or a
      later one was delivered, or the grace period is over. So it names the job that had the id or none exactly in
      those cases, and when there was such a job and it shows the same. */
  lemma EmittedJob(r: Record, opt: Pipeline.Options, users: map<nat, string>, around: Pipeline.Around,
                   log: seq<Call>, pending: seq<Call>, grace: u64)
    requires r.jobId == None && r.ts != 0 && around.table == Replay(log, grace)
    requires Stamped(Feed(log) + pending)
    ensures var out := Pipeline.Enrich(r, opt, users, around);
            var owner, seen := Owner(Feed(log) + pending, r.cgroupId, r.ts), Former(Feed(log), r.cgroupId, r.ts);
            var standing := NoneLater(Feed(log), r.cgroupId, r.ts) && !GraceOver(log, r.cgroupId, grace);
            && out.ts == (r.ts + around.bootOffset) % TWO64
            && (out.jobId.Some? <==> seen.Some? && standing)
            && (out.jobId.Some? ==> Carries(out, r, Parse(seen.value.path).value))
            && (NamedRightly(out, r, owner) <==>
                  seen.None? || !standing
                  || (owner.Some? && Shown(r, Parse(owner.value.path).value) == Shown(r, Parse(seen.value.path).value)))
  {
    hide Owner, Former, Stamped, NoneLater, GraceOver, Feed, Replay, Parse;
    DeliveredIsStamped(log, pending);
    ResolveAnswers(log, r.cgroupId, r.ts, grace);
  }

  /** Once everything up to the event's stamp is delivered: a record of an id some job had when the event happened
      leaves the pipeline naming that job or none, and that job exactly when no later incarnation has been delivered
      and the grace period is not over. When no job had the id, the record leaves unattributed exactly when no earlier
      job's entry is still standing, and names that job otherwise. */
  lemma EmittedJobIsOwner(r: Record, opt: Pipeline.Options, users: map<nat, string>, around: Pipeline.Around,
                          log: seq<Call>, pending: seq<Call>, grace: u64)
    requires r.jobId == None && r.ts != 0 && around.table == Replay(log, grace)
    requires Stamped(Feed(log) + pending) && AllDeliveredUpTo(pending, r.cgroupId, r.ts)
    ensures var out, h := Pipeline.Enrich(r, opt, users, around), Feed(log) + pending;
            var owner, former := Owner(h, r.cgroupId, r.ts), Former(h, r.cgroupId, r.ts);
            var standing := NoneLater(Feed(log), r.cgroupId, r.ts) && !GraceOver(log, r.cgroupId, grace);
            && out.ts == (r.ts + around.bootOffset) % TWO64
            && (owner.Some? ==>
                  && (out.jobId.Some? <==> standing)
                  && (out.jobId.Some? ==> Carries(out, r, Parse(owner.value.path).value)))
            && (owner.None? ==>
                  && (out.jobId == None <==> former.None? || !standing)
                  && (out.jobId.Some? ==> Carries(out, r, Parse(former.value.path).value)))
  {
    hide Owner, Former, Stamped, AllDeliveredUpTo, NoneLater, GraceOver, Feed, Replay, Parse, Pipeline.Enrich;
    EmittedJob(r, opt, users, around, log, pending, grace);
    LaterIsIgnored(Feed(log), pending, r.cgroupId, r.ts);
    OwnerIsFormer(Feed(log), r.cgroupId, r.ts);
  }
}

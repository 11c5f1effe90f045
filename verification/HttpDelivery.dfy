/** The http sink's worker: connecting, posting, retrying once, and counting what was lost (src/sinks/http/sink.cpp). */
module HttpDelivery {
  import opened Text
  import opened Framing
  import opened SinkQueue

  /** One resolved address: no socket for it, a socket that does not connect, or one that does. */
  datatype Address = NoSocket | Refuses(fd: nat) | Connects(fd: nat)

  /** What the network does to one post: the addresses resolved (None when that fails), whether the whole request gets
      out, and what recv returns. */
  datatype Network = Network(addresses: Option<seq<Address>>, sent: bool, chunks: seq<string>)

  /** The first address that connects. */
  function Dial(addresses: seq<Address>): Option<nat> {
    if addresses == [] then None
    else if addresses[0].Connects? then Some(addresses[0].fd)
    else Dial(addresses[1..])
  }

  /** All a post depends on: the socket a fresh connection would get, whether the request gets out, the response
      read. */
  datatype Attempt = Attempt(dialled: Option<nat>, sent: bool, reply: Outcome)

  function Seen(net: Network): Attempt {
    Attempt(if net.addresses.None? then None else Dial(net.addresses.value), net.sent, Respond(net.chunks))
  }

  /** A post's verdict and the connection it leaves, -1 for none. */
  datatype Posted = Posted(ok: bool, fd: int)

  function PostOnce(fd: int, a: Attempt): Posted {
    if fd < 0 && a.dialled.None? then Posted(false, -1)
    else if !a.sent then Posted(false, -1)
    else Posted(a.reply.ok, if a.reply.closed then -1 else if fd >= 0 then fd else a.dialled.value)
  }

  datatype Delivery = Delivery(posts: nat, ok: bool, fd: int)

  /** One batch: a second post on a fresh connection if the first fails. */
  function Deliver(fd: int, first: Attempt, retry: Attempt): Delivery {
    var p := PostOnce(fd, first);
    if p.ok then Delivery(1, true, p.fd)
    else
      var q := PostOnce(-1, retry);
      Delivery(2, q.ok, q.fd)
  }

  // ---------------------------------------------------------------- queue and connection together

  /** One batch posted: which, on what connection, and what the network did to the two posts it may take. */
  datatype Shipped = Shipped(at: nat, fd: int, first: Attempt, retry: Attempt) {
    function Outcome(): Delivery { Deliver(fd, first, retry) }
  }

  /** The whole sink: its queue, its connection, and the batches posted so far. */
  datatype Sink<R> = Sink(queue: State<R>, fd: int, log: seq<Shipped>)

  /** Any thread's step on the queue, or the worker posting the batch it holds without the lock. */
  datatype Move<R> = Queue(step: Step<R>) | Post(first: Attempt, retry: Attempt)

  function Start<R>(capacity: nat): Sink<R> {
    Sink(Init(capacity), -1, [])
  }

  /** The worker settles nothing but what it posted. */
  predicate Can<R>(h: Sink<R>, m: Move<R>) {
    Sized(h.queue) &&
    match m
    case Queue(step) => Enabled(h.queue, step) && !step.Settle?
    case Post(_, _) => h.queue.worker.Holding?
  }

  /** A batch counts as delivered if one of its posts succeeded; the connection is closed on the way out of run(). */
  function Do<R>(h: Sink<R>, m: Move<R>): Sink<R>
    requires Can(h, m)
  {
    match m
    case Queue(step) => Sink(Next(h.queue, step), if step.Finish? then -1 else h.fd, h.log)
    case Post(first, retry) =>
      var d := Deliver(h.fd, first, retry);
      Sink(Next(h.queue, Settle(d.ok)), d.fd, h.log + [Shipped(h.queue.worker.at, h.fd, first, retry)])
  }

  ghost predicate CanAll<R>(h: Sink<R>, ms: seq<Move<R>>)
    decreases |ms|, 0
  {
    ms == [] || (CanAll(h, ms[..|ms| - 1]) && Can(DoAll(h, ms[..|ms| - 1]), ms[|ms| - 1]))
  }

  ghost function DoAll<R>(h: Sink<R>, ms: seq<Move<R>>): Sink<R>
    requires CanAll(h, ms)
    decreases |ms|, 1
  {
    if ms == [] then h else Do(DoAll(h, ms[..|ms| - 1]), ms[|ms| - 1])
  }

  lemma OneMore<R>(h: Sink<R>, ms: seq<Move<R>>, m: Move<R>)
    requires CanAll(h, ms) && Can(DoAll(h, ms), m)
    ensures CanAll(h, ms + [m]) && DoAll(h, ms + [m]) == Do(DoAll(h, ms), m)
  {
    assert (ms + [m])[..|ms|] == ms;
  }

  // ---------------------------------------------------------------- over every run

  function Verdict(shipped: Shipped): Fate {
    if shipped.Outcome().ok then Delivered else Failed
  }

  /** Each logged batch was settled with the verdict of its posts, in the order the batches were accepted. */
  ghost predicate InOrder<R>(h: Sink<R>) {
    var s := h.queue;
    && (forall j, k :: 0 <= j < k < |h.log| ==> h.log[j].at < h.log[k].at)
    && (forall k :: 0 <= k < |h.log| ==> h.log[k].at < |s.fate| && s.fate[h.log[k].at] == Verdict(h.log[k]))
    && (forall k :: 0 <= k < |h.log| ==> h.log[k].at < Bar(s))
  }

  /** And every batch that was settled is there. */
  ghost predicate AllThere<R>(log: seq<Shipped>, s: State<R>) {
    forall i :: 0 <= i < |s.fate| && (s.fate[i] == Delivered || s.fate[i] == Failed) ==> LogHas(log, i)
  }

  ghost predicate LogHas(log: seq<Shipped>, i: nat) {
    exists k :: 0 <= k < |log| && log[k].at == i
  }

  ghost predicate Logged<R>(h: Sink<R>) {
    InOrder(h) && AllThere(h.log, h.queue)
  }

  /** The connection the first `k` batches leave. */
  function Left(log: seq<Shipped>, k: nat): int
    requires k <= |log|
  {
    if k == 0 then -1 else log[k - 1].Outcome().fd
  }

  /** Each batch is posted on the connection the one before left, the first on none. */
  ghost predicate Linked(log: seq<Shipped>) {
    forall k :: 0 <= k < |log| ==> log[k].fd == Left(log, k)
  }

  /** So is the next one; once the worker has exited there is no connection. */
  ghost predicate Chained<R>(h: Sink<R>) {
    && Linked(h.log)
    && h.fd == if h.queue.worker.Exited? then -1 else Left(h.log, |h.log|)
  }

  /** Everything settled so far is below this. */
  function Bar<R>(s: State<R>): int {
    if s.worker.Holding? then s.worker.at else s.Head()
  }

  /** Nothing was delivered or failed on the way, or is no longer. */
  ghost predicate SettlesNone<R>(s: State<R>, s': State<R>) {
    && |s.fate| <= |s'.fate|
    && (forall i :: 0 <= i < |s.fate| && (s.fate[i] == Delivered || s.fate[i] == Failed) ==> s'.fate[i] == s.fate[i])
    && (forall i :: 0 <= i < |s'.fate| && (s'.fate[i] == Delivered || s'.fate[i] == Failed) ==>
          i < |s.fate| && s.fate[i] == s'.fate[i])
    && Bar(s) <= Bar(s')
  }

  /** No step but a settlement makes a batch delivered or failed, or undoes one that is. */
  lemma StepKeepsSettled<R>(s: State<R>, step: Step<R>)
    requires Inv(s) && Enabled(s, step) && !step.Settle?
    ensures SettlesNone(s, Next(s, step))
  {
    hide Inv, SettlesNone, WriteBatch;
    if step.Write? {
      WriteSettlesNone(s, step.batch);
    } else {
      OthersSettleNone(s, step);
    }
  }

  lemma WriteSettlesNone<R>(s: State<R>, batch: seq<R>)
    requires Inv(s)
    ensures SettlesNone(s, WriteBatch(s, batch))
  {
    hide Counted, WriteBatch;
    WriteKeepsSettled(s, batch);
  }

  lemma OthersSettleNone<R>(s: State<R>, step: Step<R>)
    requires Inv(s) && Enabled(s, step) && !step.Settle? && !step.Write?
    ensures SettlesNone(s, Next(s, step))
  {
    hide Counted;
  }

  lemma QueueKeepsLogged<R>(h: Sink<R>, step: Step<R>)
    requires Can(h, Queue(step)) && Inv(h.queue) && Logged(h)
    ensures Logged(Do(h, Queue(step)))
  {
    hide Inv, Next, Verdict, Bar, LogHas;
    VerdictSettles();
    StepKeepsSettled(h.queue, step);
  }

  lemma VerdictSettles()
    ensures forall shipped :: Verdict(shipped) == Delivered || Verdict(shipped) == Failed
  {
  }

  /** A write overwrites queued batches only. */
  lemma WriteKeepsSettled<R>(s: State<R>, batch: seq<R>)
    requires Inv(s)
    ensures var s' := WriteBatch(s, batch);
            && s'.worker == s.worker && s'.stopping == s.stopping && s.Head() <= s'.Head() && |s.fate| <= |s'.fate|
            && (forall i :: 0 <= i < |s.fate| ==> s'.fate[i] == s.fate[i] || s'.fate[i] == Overflowed)
            && (forall i :: 0 <= i < s.Head() ==> s'.fate[i] == s.fate[i])
            && (forall i :: |s.fate| <= i < |s'.fate| ==> s'.fate[i] == Queued)
  {
    if batch != [] {
      WriteDropsAtMostOne(s, batch);
    }
  }

  lemma PostSettles<R>(h: Sink<R>, first: Attempt, retry: Attempt)
    requires Inv(h.queue) && h.queue.worker.Holding?
    ensures var at, h' := h.queue.worker.at, Do(h, Post(first, retry));
            var shipped := Shipped(at, h.fd, first, retry);
            && at < |h.queue.fate| && h'.log == h.log + [shipped]
            && h'.queue.fate == h.queue.fate[at := Verdict(shipped)] && Bar(h.queue) == at < Bar(h'.queue)
  {
    hide Deliver, Counted;
  }

  lemma PostKeepsLogged<R>(h: Sink<R>, first: Attempt, retry: Attempt)
    requires Inv(h.queue) && Logged(h) && h.queue.worker.Holding?
    ensures Logged(Do(h, Post(first, retry)))
  {
    hide Inv, Verdict, Do, Bar, LogHas;
    PostSettles(h, first, retry);
    VerdictSettles();
    LogGrows(h.log, Shipped(h.queue.worker.at, h.fd, first, retry));
  }

  lemma LogGrows(log: seq<Shipped>, next: Shipped)
    ensures LogHas(log + [next], next.at)
    ensures forall i :: LogHas(log, i) ==> LogHas(log + [next], i)
  {
    var log' := log + [next];
    assert log'[|log|] == next;
    forall i | LogHas(log, i)
      ensures LogHas(log', i)
    {
      var k :| 0 <= k < |log| && log[k].at == i;
      assert log'[k] == log[k];
    }
  }

  lemma MoveKeepsChained<R>(h: Sink<R>, m: Move<R>)
    requires Can(h, m) && Inv(h.queue) && Chained(h)
    ensures Chained(Do(h, m))
  {
    var h' := Do(h, m);
    if m.Queue? {
      FinishExits(h.queue, m.step);
      assert h'.log == h.log && h'.fd == if m.step.Finish? then -1 else h.fd;
      assert h'.queue.worker.Exited? <==> h.queue.worker.Exited? || m.step.Finish?;
    } else {
      assert !h.queue.worker.Exited? && !h'.queue.worker.Exited?;
      LinkedMore(h.log, Shipped(h.queue.worker.at, h.fd, m.first, m.retry));
    }
    hide Deliver, Inv, Next, Linked, Left;
  }

  lemma LinkedMore(log: seq<Shipped>, next: Shipped)
    requires Linked(log) && next.fd == Left(log, |log|)
    ensures Linked(log + [next]) && Left(log + [next], |log| + 1) == Deliver(next.fd, next.first, next.retry).fd
  {
    hide Deliver;
    var log' := log + [next];
    forall k | 0 <= k < |log'|
      ensures log'[k].fd == Left(log', k)
    {
      assert k < |log| ==> log'[k] == log[k];
      assert k > 0 ==> log'[k - 1] == log[k - 1];
    }
  }

  lemma FinishExits<R>(s: State<R>, step: Step<R>)
    requires Inv(s) && Enabled(s, step)
    ensures Next(s, step).worker.Exited? <==> s.worker.Exited? || step.Finish?
  {
    if step.Write? {
      WriteKeepsSettled(s, step.batch);
    }
  }

  /** Over every run from the start: the queue's own invariant, and the log and the connection in step with it. */
  lemma {:induction false} RunIsLogged<R>(capacity: nat, ms: seq<Move<R>>)
    requires capacity >= 1 && CanAll(Start(capacity), ms)
    ensures var h := DoAll(Start<R>(capacity), ms);
            Inv(h.queue) && Sized(h.queue) && h.queue.capacity == capacity && Logged(h) && Chained(h)
  {
    if ms == [] {
      InitInv<R>(capacity);
    } else {
      RunIsLogged(capacity, ms[..|ms| - 1]);
      MoveKeepsLogged(DoAll(Start(capacity), ms[..|ms| - 1]), ms[|ms| - 1]);
    }
    hide Inv, Logged, Chained, Do, Can;
  }

  lemma MoveKeepsLogged<R>(h: Sink<R>, m: Move<R>)
    requires Can(h, m) && Inv(h.queue) && Logged(h) && Chained(h)
    ensures var h' := Do(h, m);
            Inv(h'.queue) && Sized(h'.queue) && h'.queue.capacity == h.queue.capacity && Logged(h') && Chained(h')
  {
    MoveKeepsChained(h, m);
    match m
    case Queue(step) =>
      StepKeepsInv(h.queue, step);
      QueueKeepsLogged(h, step);
      StepKeepsCapacity(h.queue, step);
    case Post(first, retry) =>
      StepKeepsInv(h.queue, Settle(Deliver(h.fd, first, retry).ok));
      PostKeepsLogged(h, first, retry);
      StepKeepsCapacity(h.queue, Settle(Deliver(h.fd, first, retry).ok));
    hide Logged, Chained, Counted, Deliver, Next;
  }

  lemma StepKeepsCapacity<R>(s: State<R>, step: Step<R>)
    requires Inv(s) && Enabled(s, step)
    ensures Next(s, step).capacity == s.capacity
  {
    if step.Write? && step.batch != [] {
      WriteDropsAtMostOne(s, step.batch);
    }
  }

  /** What the worker posted, in order: the post moves of the run. */
  function Posts<R>(ms: seq<Move<R>>): seq<(Attempt, Attempt)> {
    if ms == [] then []
    else
      var m := ms[|ms| - 1];
      Posts(ms[..|ms| - 1]) + if m.Post? then [(m.first, m.retry)] else []
  }

  ghost predicate Same(log: seq<Shipped>, posts: seq<(Attempt, Attempt)>) {
    |log| == |posts| && forall k :: 0 <= k < |log| ==> (log[k].first, log[k].retry) == posts[k]
  }

  lemma {:induction false} LogIsPosts<R>(h: Sink<R>, ms: seq<Move<R>>)
    requires CanAll(h, ms) && h.log == []
    ensures Same(DoAll(h, ms).log, Posts(ms))
  {
    if ms != [] {
      LogIsPosts(h, ms[..|ms| - 1]);
      hide Next, Deliver, Can;
    }
  }

  /** The connection a post leaves behind: none if there was none to be had, or the request did not get out, or the
      response closed it; otherwise the one it used. */
  function Stays(fd: int, a: Attempt): int {
    if (fd < 0 && a.dialled.None?) || !a.sent || a.reply.closed then -1
    else if fd >= 0 then fd
    else a.dialled.value
  }

  /** The connection after the first `k` batches, from what the network did alone. */
  function Connection(log: seq<Shipped>, k: nat): int
    requires k <= |log|
  {
    if k == 0 then -1
    else
      var fd, b := Connection(log, k - 1), log[k - 1];
      if (fd >= 0 || b.first.dialled.Some?) && b.first.sent && b.first.reply.ok then Stays(fd, b.first)
      else Stays(-1, b.retry)
  }

  lemma DeliverExactly(fd: int, first: Attempt, retry: Attempt)
    ensures var d := Deliver(fd, first, retry);
            var once := (fd >= 0 || first.dialled.Some?) && first.sent && first.reply.ok;
            var again := retry.dialled.Some? && retry.sent && retry.reply.ok;
            && d.posts == (if once then 1 else 2) && (d.ok <==> once || again)
            && d.fd == if once then Stays(fd, first) else Stays(-1, retry)
  {
  }

  lemma {:induction false} LeftIsConnection(log: seq<Shipped>, k: nat)
    requires Linked(log) && k <= |log|
    ensures Left(log, k) == Connection(log, k)
  {
    hide Deliver, Stays;
    if k > 0 {
      LeftIsConnection(log, k - 1);
      var b := log[k - 1];
      assert b.fd == Left(log, k - 1);
      hide Linked;
      DeliverExactly(b.fd, b.first, b.retry);
    }
  }

  /** The first of the addresses that connects, with this socket. */
  ghost predicate FirstConnects(addresses: seq<Address>, i: nat, fd: nat) {
    && i < |addresses| && addresses[i] == Connects(fd)
    && forall j :: 0 <= j < i ==> !addresses[j].Connects?
  }

  lemma {:induction false} DialExactly(addresses: seq<Address>, fd: nat)
    ensures Dial(addresses) == Some(fd) <==> exists i: nat :: FirstConnects(addresses, i, fd)
    ensures Dial(addresses).None? <==> forall i :: 0 <= i < |addresses| ==> !addresses[i].Connects?
  {
    if addresses != [] {
      var rest := addresses[1..];
      DialExactly(rest, fd);
      if i: nat :| FirstConnects(rest, i, fd) {
        assert forall j :: 1 <= j < i + 1 ==> addresses[j] == rest[j - 1];
        assert addresses[0].Connects? || FirstConnects(addresses, i + 1, fd);
      }
      if i: nat :| FirstConnects(addresses, i, fd) {
        assert i > 0 ==> forall j :: 0 <= j < i ==> rest[j] == addresses[j + 1];
        assert i == 0 || FirstConnects(rest, i - 1, fd);
      }
      assert addresses[0].Connects? ==> FirstConnects(addresses, 0, addresses[0].fd);
      assert forall i :: 0 < i < |addresses| ==> rest[i - 1] == addresses[i];
    }
  }

  /** What a post depends on is what the network does to it: whether an address connects and the first that does,
      whether the request gets out, and the answer received. */
  lemma SeenExactly(net: Network, fd: nat)
    ensures Seen(net).sent == net.sent && Seen(net).reply == Respond(net.chunks)
    ensures Seen(net).dialled == Some(fd) <==>
            net.addresses.Some? && exists i: nat :: FirstConnects(net.addresses.value, i, fd)
    ensures Seen(net).dialled.None? <==>
            net.addresses.None?
            || forall i :: 0 <= i < |net.addresses.value| ==> !net.addresses.value[i].Connects?
  {
    hide Respond;
    if net.addresses.Some? {
      DialExactly(net.addresses.value, fd);
    }
  }

  /** Every batch the worker has settled was posted once or twice. A post succeeds exactly when a connection is left
      or an address connects, the request gets out and the answer is a success; the second, only made when the first
      fails, always dials afresh. Delivered are the batches of which one post succeeds, failed those of which none
      does. */
  lemma OnceOrTwice<R>(capacity: nat, ms: seq<Move<R>>, k: nat)
    requires capacity >= 1 && CanAll(Start(capacity), ms)
    requires k < |DoAll(Start<R>(capacity), ms).log|
    ensures var h := DoAll(Start<R>(capacity), ms);
            var b, fd := h.log[k], Connection(h.log, k);
            var once := (fd >= 0 || b.first.dialled.Some?) && b.first.sent && b.first.reply.ok;
            var again := b.retry.dialled.Some? && b.retry.sent && b.retry.reply.ok;
            && Same(h.log, Posts(ms)) && b.at < |h.queue.fate|
            && b.Outcome().posts == (if once then 1 else 2)
            && (h.queue.fate[b.at] == Delivered <==> once || again)
            && (h.queue.fate[b.at] == Failed <==> !once && !again)
            && (!h.queue.worker.Exited? ==> h.fd == Connection(h.log, |h.log|))
  {
    hide Inv, CanAll, DoAll, Deliver, Connection, Left, Posts, Same;
    RunIsLogged(capacity, ms);
    LogIsPosts(Start<R>(capacity), ms);
    var h := DoAll(Start<R>(capacity), ms);
    var b := h.log[k];
    assert b.at < |h.queue.fate| && h.queue.fate[b.at] == Verdict(b);
    assert b.fd == Left(h.log, k);
    LeftIsConnection(h.log, k);
    LeftIsConnection(h.log, |h.log|);
    DeliverExactly(b.fd, b.first, b.retry);
  }

  /** The logged batches of which every post failed. */
  function Lost(log: seq<Shipped>): nat {
    if log == [] then 0 else Lost(log[..|log| - 1]) + if log[|log| - 1].Outcome().ok then 0 else 1
  }

  /** The queue's step in a move. */
  function StepOf<R>(h: Sink<R>, m: Move<R>): Step<R> {
    match m
    case Queue(step) => step
    case Post(first, retry) => Settle(Deliver(h.fd, first, retry).ok)
  }

  /** What the queue goes through in a run of the sink. */
  ghost function QueueRun<R>(h: Sink<R>, ms: seq<Move<R>>): seq<Step<R>>
    requires CanAll(h, ms)
  {
    if ms == [] then []
    else QueueRun(h, ms[..|ms| - 1]) + [StepOf(DoAll(h, ms[..|ms| - 1]), ms[|ms| - 1])]
  }

  lemma StepIsEnabled<R>(h: Sink<R>, m: Move<R>)
    requires Can(h, m)
    ensures Sized(h.queue) && Enabled(h.queue, StepOf(h, m)) && Do(h, m).queue == Next(h.queue, StepOf(h, m))
    ensures Lost(Do(h, m).log) == Lost(h.log) + if StepOf(h, m).Settle? && !StepOf(h, m).ok then 1 else 0
  {
    hide Next, Deliver;
    if m.Post? {
      assert Do(h, m).log[..|h.log|] == h.log;
    }
  }

  /** It is a run of the queue, and the failures in it are the batches lost. */
  lemma {:induction false} QueueRunIsRun<R>(h: Sink<R>, ms: seq<Move<R>>)
    requires CanAll(h, ms) && h.log == []
    ensures Legal(h.queue, QueueRun(h, ms)) && After(h.queue, QueueRun(h, ms)) == DoAll(h, ms).queue
    ensures Failures(QueueRun(h, ms)) == Lost(DoAll(h, ms).log)
  {
    hide Can, Do, Lost, StepOf;
    if ms == [] {
      NothingLost();
    } else {
      var init, m := ms[..|ms| - 1], ms[|ms| - 1];
      QueueRunIsRun(h, init);
      StepIsEnabled(DoAll(h, init), m);
      LegalInParts(h.queue, QueueRun(h, init), StepOf(DoAll(h, init), m));
      FailuresInParts(QueueRun(h, init), StepOf(DoAll(h, init), m));
    }
  }

  lemma NothingLost()
    ensures Lost([]) == 0
  {
  }

  /** The http sink's accounting over every run of writers, worker and destructor: dropped() is the writes that found
      the queue full plus the batches whose two posts both failed, and nothing else. */
  lemma HttpAccounting<R>(capacity: nat, ms: seq<Move<R>>)
    requires capacity >= 1 && CanAll(Start(capacity), ms)
    ensures var h, run := DoAll(Start<R>(capacity), ms), QueueRun(Start<R>(capacity), ms);
            Legal(Init(capacity), run) && h.queue.dropped == FullWrites(Init(capacity), run) + Lost(h.log)
  {
    hide CanAll, DoAll, QueueRun, Legal, After, FullWrites, Failures, Lost, Inv;
    InitInv<R>(capacity);
    QueueRunIsRun(Start(capacity), ms);
    DroppedCounts(Init(capacity), QueueRun(Start(capacity), ms));
  }

  /** A run in which no request gets out delivers nothing, and every batch it settles is counted as dropped. */
  lemma NothingSent<R>(capacity: nat, ms: seq<Move<R>>)
    requires capacity >= 1 && CanAll(Start(capacity), ms)
    requires forall k :: 0 <= k < |ms| && ms[k].Post? ==> !ms[k].first.sent && !ms[k].retry.sent
    ensures var h := DoAll(Start<R>(capacity), ms);
            && h.queue.output == [] && (forall i :: 0 <= i < |h.queue.fate| ==> h.queue.fate[i] != Delivered)
            && Legal(Init(capacity), QueueRun(Start<R>(capacity), ms))
            && h.queue.dropped == FullWrites(Init(capacity), QueueRun(Start<R>(capacity), ms)) + |Posts(ms)|
  {
    hide CanAll, DoAll, QueueRun, Legal, FullWrites, Lost, Posts, Deliver, Same, Connection;
    RunIsLogged(capacity, ms);
    HttpAccounting(capacity, ms);
    LogIsPosts(Start<R>(capacity), ms);
    PostsUnsent(ms);
    var h := DoAll(Start<R>(capacity), ms);
    UnsentLog(h.log, Posts(ms));
    forall i | 0 <= i < |h.queue.fate|
      ensures h.queue.fate[i] != Delivered
    {
      if h.queue.fate[i] == Delivered {
        var k :| 0 <= k < |h.log| && h.log[k].at == i;
        DeliverExactly(h.log[k].fd, h.log[k].first, h.log[k].retry);
      }
    }
    NothingDelivered(h.queue);
  }

  lemma NothingDelivered<R>(s: State<R>)
    requires Inv(s) && forall i :: 0 <= i < |s.fate| ==> s.fate[i] != Delivered
    ensures s.output == []
  {
    DeliveryNone(s.accepted, s.fate, 0);
  }

  lemma {:induction false} PostsUnsent<R>(ms: seq<Move<R>>)
    requires forall k :: 0 <= k < |ms| && ms[k].Post? ==> !ms[k].first.sent && !ms[k].retry.sent
    ensures forall k :: 0 <= k < |Posts(ms)| ==> !Posts(ms)[k].0.sent && !Posts(ms)[k].1.sent
  {
    if ms != [] {
      PostsUnsent(ms[..|ms| - 1]);
    }
  }

  lemma {:induction false} UnsentLog(log: seq<Shipped>, posts: seq<(Attempt, Attempt)>)
    requires Same(log, posts) && forall k :: 0 <= k < |posts| ==> !posts[k].0.sent && !posts[k].1.sent
    ensures Lost(log) == |log| == |posts|
    ensures forall k :: 0 <= k < |log| ==> !log[k].first.sent && !log[k].retry.sent
  {
    if log != [] {
      var n := |log| - 1;
      UnsentLog(log[..n], posts[..n]);
      assert (log[n].first, log[n].retry) == posts[n];
      DeliverExactly(log[n].fd, log[n].first, log[n].retry);
    }
    hide Deliver;
  }

  /** Once the worker has left, every accepted batch was posted, with the verdict its fate says, or overwritten in the
      queue, and no connection is left. */
  lemma ExitedMeansPosted<R>(capacity: nat, ms: seq<Move<R>>)
    requires capacity >= 1 && CanAll(Start(capacity), ms) && DoAll(Start<R>(capacity), ms).queue.worker.Exited?
    ensures var h := DoAll(Start<R>(capacity), ms);
            && h.fd == -1
            && forall i :: 0 <= i < |h.queue.fate| ==>
                 h.queue.fate[i] == Overflowed || LogHas(h.log, i)
  {
    RunIsLogged(capacity, ms);
  }

  // ---------------------------------------------------------------- what other threads did

  /** Of what other threads would do, what comes about: their writes, until one of them begins to destroy the sink. */
  function Heard<R>(steps: seq<Step<R>>): seq<Step<R>> {
    if steps == [] then []
    else if steps[0].Stop? then [Stop]
    else (if steps[0].Write? then [steps[0]] else []) + Heard(steps[1..])
  }

  function Flat<R>(gaps: seq<seq<Step<R>>>): seq<Step<R>> {
    if gaps == [] then [] else gaps[0] + Flat(gaps[1..])
  }

  predicate Stops<R>(steps: seq<Step<R>>) {
    exists k :: 0 <= k < |steps| && steps[k].Stop?
  }

  /** The writes and the stop among the moves made. */
  function OthersIn<R>(ms: seq<Move<R>>): seq<Step<R>> {
    if ms == [] then []
    else
      var m := ms[|ms| - 1];
      OthersIn(ms[..|ms| - 1]) + if m.Queue? && (m.step.Write? || m.step.Stop?) then [m.step] else []
  }

  lemma OthersInMore<R>(ms: seq<Move<R>>, m: Move<R>)
    ensures OthersIn(ms + [m]) == OthersIn(ms) + if m.Queue? && (m.step.Write? || m.step.Stop?) then [m.step] else []
    ensures !(m.Queue? && (m.step.Write? || m.step.Stop?)) ==> OthersIn(ms + [m]) == OthersIn(ms)
  {
    assert (ms + [m])[..|ms|] == ms;
  }

  lemma HeardNext<R>(step: Step<R>, rest: seq<Step<R>>)
    ensures Heard<R>([]) == [] && !Stops<R>([])
    ensures Heard([step] + rest) ==
            if step.Stop? then [Stop] else (if step.Write? then [step] else []) + Heard(rest)
  {
    assert ([step] + rest)[1..] == rest;
  }

  lemma TakenApart<R>(a: seq<Step<R>>, b: seq<Step<R>>)
    requires a != []
    ensures a == [a[0]] + a[1..] && a + b == [a[0]] + (a[1..] + b)
  {
  }

  lemma {:induction false} HeardConcat<R>(a: seq<Step<R>>, b: seq<Step<R>>)
    ensures Heard(a + b) == Heard(a) + if Stops(a) then [] else Heard(b)
    decreases |a|
  {
    hide Heard, Stops;
    if a == [] {
      HeardNext(Stop, b);
      assert a + b == b;
    } else {
      var step, rest := a[0], a[1..];
      TakenApart(a, b);
      HeardNext(step, rest);
      HeardNext(step, rest + b);
      HeardConcat(rest, b);
      StopsFirst(a);
      HeardBefore(step, Heard(rest), if Stops(rest) then [] else Heard(b));
    }
  }

  lemma HeardBefore<R>(step: Step<R>, h: seq<Step<R>>, more: seq<Step<R>>)
    ensures [step] + (h + more) == ([step] + h) + more && [] + h == h && [] + (h + more) == h + more
    ensures [step] + [] == [step]
  {
  }

  lemma StopsFirst<R>(steps: seq<Step<R>>)
    requires steps != []
    ensures Stops(steps) <==> steps[0].Stop? || Stops(steps[1..])
  {
    if k :| 0 <= k < |steps| && steps[k].Stop? {
      assert k > 0 ==> steps[1..][k - 1] == steps[k];
    }
    if k :| 0 <= k < |steps| - 1 && steps[1..][k].Stop? {
      assert steps[k + 1] == steps[1..][k];
    }
  }

  /** What is still to be heard of a series of steps, or nothing once the sink is being destroyed. */
  function ToHear<R>(stopping: bool, steps: seq<Step<R>>): seq<Step<R>> {
    if stopping then [] else Heard(steps)
  }

  // ---------------------------------------------------------------- the object

  /** HttpSink. `moves` is everything that has happened to it; what other threads do comes in between. */
  class HttpSink<R> {
    const queue: QueueingSink<R>
    var fd: int
    ghost var open: set<int>  // the descriptors the kernel holds open for this sink
    ghost var log: seq<Shipped>
    ghost var moves: seq<Move<R>>

    ghost function Now(): Sink<R>
      reads this, queue
    {
      Sink(queue.Now(), fd, log)
    }

    /** At every call boundary exactly one socket is open if fd says so, and none otherwise. */
    ghost predicate Connected()
      reads this
    {
      fd >= -1 && open == if fd >= 0 then {fd} else {}
    }

    /** The object is where its moves lead from the start. */
    ghost predicate Valid()
      reads this, queue
    {
      && Connected() && queue.capacity >= 1
      && CanAll(Start(queue.capacity), moves) && Now() == DoAll(Start(queue.capacity), moves)
    }

    /** A sink configured with no room at all, before anything was written to it. */
    ghost predicate Unusable()
      reads this, queue
    {
      queue.capacity == 0 && queue.queue == []
    }

    constructor (maxQueued: nat)
      ensures moves == [] && fd == -1 && fresh(queue) && queue.capacity == maxQueued && !queue.stopping
      ensures if maxQueued >= 1 then Valid() else Unusable()
    {
      queue := new QueueingSink<R>.Http(maxQueued);
      fd := -1;
      open, log, moves := {}, [], [];
    }

    /** A move has been made: it goes on the record. */
    ghost method Record(before: Sink<R>, m: Move<R>)
      requires Connected() && queue.capacity >= 1
      requires CanAll(Start(queue.capacity), moves) && before == DoAll(Start(queue.capacity), moves)
      requires Can(before, m) && Now() == Do(before, m)
      modifies this`moves
      ensures Valid() && moves == old(moves) + [m]
    {
      hide Can, Do;
      OneMore(Start(queue.capacity), moves, m);
      moves := moves + [m];
    }

    method EnsureConnected(addresses: Option<seq<Address>>) returns (ok: bool)
      requires Connected()
      modifies this`fd, this`open
      ensures Connected() && ok == (fd >= 0)
      ensures fd == if old(fd) >= 0 then old(fd)
                    else if addresses.None? || Dial(addresses.value).None? then -1
                    else Dial(addresses.value).value
    {
      if fd >= 0 {
        return true;
      }
      if addresses.None? {
        return false;
      }
      var found: int := -1;
      var i := 0;
      while i < |addresses.value|
        invariant 0 <= i <= |addresses.value|
        invariant fd == -1 && found == -1 && open == {}
        invariant Dial(addresses.value) == Dial(addresses.value[i..])
      {
        var a := addresses.value[i];
        assert addresses.value[i..][1..] == addresses.value[i + 1..];
        i := i + 1;
        if a.NoSocket? {
          continue;
        }
        open := open + {a.fd};
        if a.Connects? {
          found := a.fd;
          break;
        }
        open := open - {a.fd};
      }
      if found < 0 {
        return false;
      }
      fd := found;
      return true;
    }

    method CloseConnection()
      requires Connected()
      modifies this`fd, this`open
      ensures Connected() && fd == -1
    {
      if fd >= 0 {
        open := open - {fd};
        fd := -1;
      }
    }

    method Post(net: Network) returns (ok: bool)
      requires Connected()
      modifies this`fd, this`open
      ensures Connected() && Posted(ok, fd) == PostOnce(old(fd), Seen(net))
    {
      hide Respond;
      var connected := EnsureConnected(net.addresses);
      if !connected {
        return false;
      }
      if !net.sent {
        CloseConnection();
        return false;
      }
      var o := ReadResponse(net.chunks);
      assert o == Seen(net).reply;
      if o.closed {
        CloseConnection();
      }
      return o.ok;
    }

    method DeliverBatch(first: Network, retry: Network) returns (posts: nat, ok: bool)
      requires Connected()
      modifies this`fd, this`open
      ensures Connected() && Delivery(posts, ok, fd) == Deliver(old(fd), Seen(first), Seen(retry))
    {
      ok := Post(first);
      posts := 1;
      if !ok {
        CloseConnection();
        ok := Post(retry);
        posts := 2;
      }
    }

    /** The worker's first critical section: take the front, or leave when stopping with nothing queued. */
    method TakeOrLeave() returns (taken: bool)
      requires Valid() && queue.worker.Waiting? && (queue.queue != [] || queue.stopping)
      modifies this`moves, queue
      ensures Valid() && moves == old(moves) + [Queue(if taken then Take else Leave)]
      ensures taken == (old(queue.queue) != [])
      ensures if taken then queue.worker.Holding? else queue.worker.Leaving?
      ensures queue.stopping == old(queue.stopping) && (taken ==> |queue.queue| == old(|queue.queue|) - 1)
    {
      hide Inv, Logged, Chained;
      RunIsLogged(queue.capacity, moves);
      ghost var before := Now();
      taken := queue.TakeOrLeave();
      ghost var m := Queue(if taken then Take else Leave);
      assert Now() == Do(before, m);
      Record(before, m);
    }

    /** Between its critical sections the worker posts what it holds, and gives up on it if both posts fail. */
    method PostHeld(first: Network, retry: Network)
      requires Valid() && queue.worker.Holding?
      modifies this, queue
      ensures Valid() && moves == old(moves) + [Move.Post(Seen(first), Seen(retry))]
      ensures queue.worker.Settled?
      ensures queue.stopping == old(queue.stopping) && queue.queue == old(queue.queue)
    {
      hide Inv, Logged, Chained, Deliver, Seen;
      RunIsLogged(queue.capacity, moves);
      ghost var before := Now();
      ghost var shipped := Shipped(queue.worker.at, fd, Seen(first), Seen(retry));
      var posts, ok := DeliverBatch(first, retry);
      queue.SettleBatch(ok);
      log := log + [shipped];
      ghost var m := Move.Post(Seen(first), Seen(retry));
      assert Now() == Do(before, m);
      Record(before, m);
    }

    /** The second critical section. */
    method Count()
      requires Valid() && queue.worker.Settled?
      modifies this`moves, queue
      ensures Valid() && moves == old(moves) + [Queue(Complete)]
      ensures queue.worker.Notifying?
      ensures queue.stopping == old(queue.stopping) && queue.queue == old(queue.queue)
    {
      hide Inv, Logged, Chained;
      RunIsLogged(queue.capacity, moves);
      ghost var before := Now();
      queue.CountBatch();
      assert Now() == Do(before, Queue(Complete));
      Record(before, Queue(Complete));
    }

    method NotifyFlushers()
      requires Valid() && queue.worker.Notifying?
      modifies this`moves, queue
      ensures Valid() && moves == old(moves) + [Queue(Notify)]
      ensures queue.worker.Waiting?
      ensures queue.stopping == old(queue.stopping) && queue.queue == old(queue.queue)
    {
      hide Inv, Logged, Chained;
      RunIsLogged(queue.capacity, moves);
      ghost var before := Now();
      queue.NotifyFlushers();
      assert Now() == Do(before, Queue(Notify));
      Record(before, Queue(Notify));
    }

    /** After the loop: the connection is closed, then the last notification goes out. */
    method Exit()
      requires Valid() && queue.worker.Leaving?
      modifies this, queue
      ensures Valid() && moves == old(moves) + [Queue(Finish)]
      ensures queue.worker.Exited? && fd == -1 && open == {}
      ensures queue.stopping == old(queue.stopping)
    {
      hide Inv, Logged, Chained;
      RunIsLogged(queue.capacity, moves);
      ghost var before := Now();
      CloseConnection();
      queue.Exit();
      assert Now() == Do(before, Queue(Finish));
      Record(before, Queue(Finish));
    }

    /** What any other thread may do while the worker does not hold the lock. Not `defined` exactly for a nonempty batch
        at capacity zero. */
    method Write(batch: seq<R>) returns (defined: bool)
      requires !queue.stopping && (Valid() || Unusable())
      modifies this`moves, queue
      ensures defined <==> queue.capacity >= 1 || batch == []
      ensures queue.capacity >= 1 ==> Valid() && moves == old(moves) + [Queue(Step.Write(batch))]
      ensures queue.worker == old(queue.worker)
      ensures queue.stopping == old(queue.stopping)
    {
      hide Inv, Logged, Chained, WriteBatch;
      if queue.capacity == 0 {
        defined := queue.Write(batch);
        return;
      }
      RunIsLogged(queue.capacity, moves);
      WriteKeepsSettled(queue.Now(), batch);
      ghost var before := Now();
      defined := queue.Write(batch);
      assert Now() == Do(before, Queue(Step.Write(batch)));
      Record(before, Queue(Step.Write(batch)));
    }

    method BeginStop()
      requires Valid() && !queue.stopping
      modifies this`moves, queue
      ensures Valid() && moves == old(moves) + [Queue(Stop)]
      ensures queue.worker == old(queue.worker)
      ensures queue.stopping
    {
      hide Inv, Logged, Chained;
      RunIsLogged(queue.capacity, moves);
      ghost var before := Now();
      queue.BeginStop();
      assert Now() == Do(before, Queue(Stop));
      Record(before, Queue(Stop));
    }

    /** Other threads' turn: they write, until one of them begins to destroy the sink. */
    method Others(steps: seq<Step<R>>)
      requires Valid()
      modifies this`moves, queue
      ensures Valid() && old(moves) <= moves && queue.worker == old(queue.worker)
      ensures OthersIn(moves) == OthersIn(old(moves)) + ToHear(old(queue.stopping), steps)
      ensures queue.stopping == (old(queue.stopping) || Stops(steps))
    {
      hide Valid, OthersIn, Heard, Stops;
      assert steps[0..] == steps;
      ghost var all := OthersIn(moves) + ToHear(queue.stopping, steps);
      for i := 0 to |steps|
        invariant Valid() && old(moves) <= moves && queue.worker == old(queue.worker)
        invariant OthersIn(moves) + ToHear(queue.stopping, steps[i..]) == all
        invariant queue.stopping || Stops(steps[i..]) <==> old(queue.stopping) || Stops(steps)
      {
        StopsFirst(steps[i..]);
        HearOne(queue.stopping, steps[i..], OthersIn(moves));
        assert steps[i..][0] == steps[i] && steps[i..][1..] == steps[i + 1..];
        hide ToHear;
        Other(steps[i]);
      }
      NothingHeard<R>();
      assert steps[|steps|..] == [];
      assert OthersIn(moves) + [] == OthersIn(moves);
    }

    /** One step of another thread. */
    method Other(step: Step<R>)
      requires Valid()
      modifies this`moves, queue
      ensures Valid() && old(moves) <= moves && queue.worker == old(queue.worker)
      ensures OthersIn(moves) == OthersIn(old(moves)) +
                                 (if !old(queue.stopping) && (step.Write? || step.Stop?) then [step] else [])
      ensures queue.stopping == (old(queue.stopping) || step.Stop?)
    {
      hide OthersIn;
      if !queue.stopping && step.Write? {
        OthersInMore(moves, Queue(step));
        var defined := Write(step.batch);
      } else if !queue.stopping && step.Stop? {
        OthersInMore(moves, Queue(step));
        BeginStop();
      }
    }

    /** The worker's thread. Other threads act whenever it waits or works without the lock, as `gaps` says, one after
        the other. All they do comes about; and when they have nothing more to do every batch is taken and the worker
        waits for another, or it was stopped and has exited. */
    method Run(gaps: seq<seq<Step<R>>>, net: nat -> (Network, Network)) returns (exited: bool)
      requires Valid() && queue.worker.Waiting?
      modifies this, queue
      ensures Valid() && old(moves) <= moves
      ensures OthersIn(moves) == OthersIn(old(moves)) + ToHear(old(queue.stopping), Flat(gaps))
      ensures if exited then queue.worker.Exited? && fd == -1 && open == {}
              else queue.worker.Waiting? && queue.queue == [] && !queue.stopping
    {
      hide Valid, OthersIn, Heard, Flat, Stops;
      var k := 0;
      assert gaps[0..] == gaps;
      while true
        invariant k <= |gaps| && Valid() && old(moves) <= moves && queue.worker.Waiting?
        invariant OthersIn(moves) + ToHear(queue.stopping, Flat(gaps[k..])) ==
                  OthersIn(old(moves)) + ToHear(old(queue.stopping), Flat(gaps))
        decreases |gaps| - k, |queue.queue|
      {
        k := Gap(gaps, k);
        if queue.queue == [] && !queue.stopping {
          if k == |gaps| {
            NothingHeard<R>();
            assert gaps[k..] == [] && OthersIn(moves) + [] == OthersIn(moves);
            return false;
          }
          continue;
        }
        OthersInMore(moves, Queue(if queue.queue != [] then Take else Leave));
        var taken := TakeOrLeave();
        if !taken {
          OthersInMore(moves, Queue(Finish));
          Exit();
          assert OthersIn(moves) + [] == OthersIn(moves);
          return true;
        }
        k := HandleTaken(gaps, k, net);
      }
    }

    /** The rest of the worker's turn, with the others' at each point where the lock is free. */
    method HandleTaken(gaps: seq<seq<Step<R>>>, k: nat, net: nat -> (Network, Network)) returns (next: nat)
      requires Valid() && k <= |gaps| && queue.worker.Holding?
      modifies this, queue
      ensures Valid() && old(moves) <= moves && queue.worker.Waiting? && k <= next <= |gaps|
      ensures k == |gaps| ==> queue.queue == old(queue.queue)
      ensures OthersIn(moves) + ToHear(queue.stopping, Flat(gaps[next..])) ==
              OthersIn(old(moves)) + ToHear(old(queue.stopping), Flat(gaps[k..]))
    {
      hide Valid, OthersIn, Heard, Flat, Stops;
      next := Gap(gaps, k);
      OthersInMore(moves, Move.Post(Seen(net(next).0), Seen(net(next).1)));
      PostHeld(net(next).0, net(next).1);
      next := Gap(gaps, next);
      OthersInMore(moves, Queue(Complete));
      Count();
      next := Gap(gaps, next);
      OthersInMore(moves, Queue(Notify));
      NotifyFlushers();
    }

    method Gap(gaps: seq<seq<Step<R>>>, k: nat) returns (next: nat)
      requires Valid() && k <= |gaps|
      modifies this`moves, queue
      ensures Valid() && old(moves) <= moves && queue.worker == old(queue.worker)
      ensures next == if k < |gaps| then k + 1 else k
      ensures k == |gaps| ==> queue.queue == old(queue.queue)
      ensures OthersIn(moves) + ToHear(queue.stopping, Flat(gaps[next..])) ==
              OthersIn(old(moves)) + ToHear(old(queue.stopping), Flat(gaps[k..]))
    {
      hide Valid, OthersIn, Heard, Stops;
      next := k;
      if k < |gaps| {
        Others(gaps[k]);
        next := k + 1;
        assert gaps[k..][1..] == gaps[next..];
        HeardConcat(gaps[k], Flat(gaps[next..]));
      }
    }
  }

  lemma NothingHeard<R>()
    ensures Heard<R>([]) == [] && !Stops<R>([]) && Flat<R>([]) == []
  {
  }

  /** One step on: what came about of it is heard, and the rest is still to be. */
  lemma HearOne<R>(stopping: bool, steps: seq<Step<R>>, so: seq<Step<R>>)
    requires steps != []
    ensures var one := if !stopping && (steps[0].Write? || steps[0].Stop?) then [steps[0]] else [];
            so + ToHear(stopping, steps) == (so + one) + ToHear(stopping || steps[0].Stop?, steps[1..])
  {
    var one := if !stopping && (steps[0].Write? || steps[0].Stop?) then [steps[0]] else [];
    var rest := ToHear(stopping || steps[0].Stop?, steps[1..]);
    assert ToHear(stopping, steps) == one + rest;
    hide ToHear, Heard;
    assert so + (one + rest) == (so + one) + rest;
  }
}

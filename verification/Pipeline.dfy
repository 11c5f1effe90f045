/** From a probe's record to the sinks: enrichment, batching and shipping (src/core/pipeline/pipeline.cpp). */
module Pipeline {
  import opened Text
  import opened Resolver

  /** The fields the pipeline touches; `payload` stands for every other one. */
  datatype Record = Record(
    ts: u64, node: string, cluster: string, cgroupId: u64,
    jobId: Option<nat>, stepId: Option<string>, taskId: Option<nat>,
    uid: Option<nat>, user: Option<string>, payload: string)

  datatype Options = Options(node: string, cluster: string, batchSize: nat, flushInterval: int)

  /** What an emission finds around it: the resolver's table, the passwd database, the boot offset. */
  datatype Around = Around(table: Table, passwd: map<nat, string>, bootOffset: u64)

  // ---------------------------------------------------------------- enrichment

  function WrapAdd(a: u64, b: u64): u64 {
    (a + b) % TWO64
  }

  /** The answer a uid gets is the first one ever found, "" when there was none. */
  function CacheUser(users: map<nat, string>, uid: nat, passwd: map<nat, string>): map<nat, string> {
    if uid in users then users else users[uid := if uid in passwd then passwd[uid] else ""]
  }

  function NameOf(users: map<nat, string>, uid: nat): Option<string> {
    if uid !in users || users[uid] == "" then None else Some(users[uid])
  }

  /** The attribution is looked up with the event's own monotonic stamp, before the stamp becomes wall clock. */
  function Enrich(r: Record, opt: Options, users: map<nat, string>, around: Around): Record {
    var r1 := r.(ts := WrapAdd(r.ts, around.bootOffset), node := opt.node, cluster := opt.cluster);
    var name := if r.uid.Some? then NameOf(users, r.uid.value) else None;
    var r2 := if name.Some? then r1.(user := name) else r1;
    match Look(around.table, r.cgroupId, r.ts)
    case Hit(attr) =>
      var r3 := r2.(jobId := Some(attr.jobId), taskId := attr.taskId);
      if attr.stepId == "" then r3 else r3.(stepId := Some(attr.stepId))
    case _ => r2
  }

  // ---------------------------------------------------------------- state and steps

  /** What a sink is asked to do. */
  datatype SinkCall = WriteTo(sink: nat, batch: seq<Record>) | FlushOf(sink: nat)

  /** A batch and the sinks wired when it went out. */
  datatype Shipment = Shipment(batch: seq<Record>, to: seq<nat>)

  datatype State = State(
    opt: Options,
    pending: seq<Record>,
    lastFlush: int,
    users: map<nat, string>,
    records: nat,
    unattributed: nat,
    sinks: seq<nat>,
    calls: seq<SinkCall>,
    // history
    log: seq<Record>,
    shipped: seq<Shipment>,
    since: seq<int>       // when each pending record was emitted
  )

  datatype Op =
    | Emit(r: Record, around: Around, at: int)
    | Tick(now: int)
    | SetSinks(ids: seq<nat>)
    | Flush(now: int)

  function Init(opt: Options, sinks: seq<nat>, now: int): State {
    State(opt, [], now, map[], 0, 0, sinks, [], [], [], [])
  }

  function WritesTo(sinks: seq<nat>, batch: seq<Record>): seq<SinkCall> {
    seq(|sinks|, i requires 0 <= i < |sinks| => WriteTo(sinks[i], batch))
  }

  function FlushesOf(sinks: seq<nat>): seq<SinkCall> {
    seq(|sinks|, i requires 0 <= i < |sinks| => FlushOf(sinks[i]))
  }

  function Ship(s: State): State {
    if s.pending == [] then s
    else s.(pending := [], since := [], calls := s.calls + WritesTo(s.sinks, s.pending),
            shipped := s.shipped + [Shipment(s.pending, s.sinks)])
  }

  function Batch(s: State, r: Record, around: Around, at: int): State {
    var users := if r.uid.Some? then CacheUser(s.users, r.uid.value, around.passwd) else s.users;
    var out := Enrich(r, s.opt, users, around);
    s.(users := users, records := s.records + 1,
       unattributed := s.unattributed + if Look(around.table, r.cgroupId, r.ts).Hit? then 0 else 1,
       pending := s.pending + [out], since := s.since + [at], log := s.log + [out])
  }

  function Next(s: State, op: Op): State {
    match op
    case Emit(r, around, at) =>
      var s' := Batch(s, r, around, at);
      if |s'.pending| >= s'.opt.batchSize then Ship(s') else s'
    case Tick(now) => if now - s.lastFlush < s.opt.flushInterval then s else Ship(s).(lastFlush := now)
    case SetSinks(ids) => s.(sinks := ids)
    case Flush(now) =>
      var s' := Ship(s);
      s'.(calls := s'.calls + FlushesOf(s'.sinks), lastFlush := now)
  }

  class Pipeline {
    const opt: Options
    var pending: seq<Record>
    var lastFlush: int
    var users: map<nat, string>
    var records: nat
    var unattributed: nat
    var sinks: seq<nat>
    var calls: seq<SinkCall>
    ghost var log: seq<Record>
    ghost var shipped: seq<Shipment>
    ghost var since: seq<int>

    ghost function Now(): State
      reads this
    {
      State(opt, pending, lastFlush, users, records, unattributed, sinks, calls, log, shipped, since)
    }

    constructor (opt: Options, sinks: seq<nat>, now: int)
      ensures Now() == Init(opt, sinks, now)
    {
      this.opt, this.sinks, lastFlush := opt, sinks, now;
      pending, users, records, unattributed, calls := [], map[], 0, 0, [];
      log, shipped, since := [], [], [];
    }

    method LookupUser(uid: nat, passwd: map<nat, string>) returns (name: Option<string>)
      modifies this`users
      ensures users == CacheUser(old(users), uid, passwd) && name == NameOf(users, uid)
    {
      if uid !in users {
        var found := "";
        if uid in passwd {
          found := passwd[uid];
        }
        users := users[uid := found];
      }
      return if users[uid] == "" then None else Some(users[uid]);
    }

    method EnrichRecord(r: Record, around: Around) returns (out: Record)
      modifies this`users, this`unattributed
      ensures users == if r.uid.Some? then CacheUser(old(users), r.uid.value, around.passwd) else old(users)
      ensures out == Enrich(r, opt, users, around)
      ensures unattributed == old(unattributed) + if Look(around.table, r.cgroupId, r.ts).Hit? then 0 else 1
    {
      var monotonic := r.ts;
      out := r.(ts := WrapAdd(monotonic, around.bootOffset), node := opt.node, cluster := opt.cluster);
      if out.uid.Some? {
        var name := LookupUser(out.uid.value, around.passwd);
        if name.Some? {
          out := out.(user := name);
        }
      }
      var found := Look(around.table, out.cgroupId, monotonic);
      if found.Hit? {
        out := out.(jobId := Some(found.attr.jobId));
        if found.attr.stepId != "" {
          out := out.(stepId := Some(found.attr.stepId));
        }
        out := out.(taskId := found.attr.taskId);
      } else {
        unattributed := unattributed + 1;
      }
    }

    method EmitRecord(r: Record, around: Around, ghost at: int)
      modifies this
      ensures Now() == Next(old(Now()), Emit(r, around, at))
    {
      ghost var s := Now();
      var out := EnrichRecord(r, around);
      records := records + 1;
      pending := pending + [out];
      log, since := log + [out], since + [at];
      assert Now() == Batch(s, r, around, at);
      if |pending| >= opt.batchSize {
        ShipPending();
      }
    }

    method ShipPending()
      modifies this
      ensures Now() == Ship(old(Now()))
    {
      if pending == [] {
        return;
      }
      var batch := pending;
      pending, since := [], [];
      shipped := shipped + [Shipment(batch, sinks)];
      var i := 0;
      while i < |sinks|
        invariant 0 <= i <= |sinks|
        invariant calls == old(calls) + WritesTo(sinks, batch)[..i]
        invariant Now().(calls := old(calls)) ==
                  old(Now()).(pending := [], since := [], shipped := old(shipped) + [Shipment(batch, sinks)])
      {
        calls := calls + [WriteTo(sinks[i], batch)];
        i := i + 1;
      }
      assert WritesTo(sinks, batch)[..|sinks|] == WritesTo(sinks, batch);
    }

    method TickAt(now: int)
      modifies this
      ensures Now() == Next(old(Now()), Tick(now))
    {
      if now - lastFlush < opt.flushInterval {
        return;
      }
      ShipPending();
      lastFlush := now;
    }

    method RewireSinks(ids: seq<nat>)
      modifies this
      ensures Now() == Next(old(Now()), SetSinks(ids))
    {
      sinks := ids;
    }

    method FlushAt(now: int)
      modifies this
      ensures Now() == Next(old(Now()), Flush(now))
    {
      ShipPending();
      ghost var s := Now();
      var i := 0;
      while i < |sinks|
        invariant 0 <= i <= |sinks|
        invariant Now() == s.(calls := s.calls + FlushesOf(sinks)[..i])
      {
        calls := calls + [FlushOf(sinks[i])];
        i := i + 1;
      }
      assert FlushesOf(sinks)[..|sinks|] == FlushesOf(sinks);
      lastFlush := now;
    }
  }

  // ---------------------------------------------------------------- what every run keeps

  function Flat(batches: seq<seq<Record>>): seq<Record> {
    if batches == [] then [] else Flat(batches[..|batches| - 1]) + batches[|batches| - 1]
  }

  function Batches(shipped: seq<Shipment>): seq<seq<Record>> {
    seq(|shipped|, i requires 0 <= i < |shipped| => shipped[i].batch)
  }

  /** The batches a sink was handed, in order. */
  function Received(calls: seq<SinkCall>, sink: nat): seq<seq<Record>> {
    if calls == [] then []
    else
      var last := calls[|calls| - 1];
      Received(calls[..|calls| - 1], sink) + if last.WriteTo? && last.sink == sink then [last.batch] else []
  }

  /** The batches that went out while a sink was wired. */
  function ShippedTo(shipped: seq<Shipment>, sink: nat): seq<seq<Record>> {
    if shipped == [] then []
    else
      var last := shipped[|shipped| - 1];
      ShippedTo(shipped[..|shipped| - 1], sink) + if sink in last.to then [last.batch] else []
  }

  ghost predicate Distinct(ids: seq<nat>) {
    forall i, j :: 0 <= i < j < |ids| ==> ids[i] != ids[j]
  }

  ghost predicate Conserved(s: State) {
    && Flat(Batches(s.shipped)) + s.pending == s.log
    && s.records == |s.log|
    && (s.pending == [] || |s.pending| < s.opt.batchSize)
    && (forall i :: 0 <= i < |s.shipped| ==> s.shipped[i].batch != [])
    && (forall sink :: Received(s.calls, sink) == ShippedTo(s.shipped, sink))
    && Distinct(s.sinks)
  }

  /** Every pending record was emitted at or after the last flush. */
  ghost predicate Timed(s: State) {
    |s.since| == |s.pending| && forall i :: 0 <= i < |s.since| ==> s.lastFlush <= s.since[i]
  }

  ghost predicate WellWired(op: Op) {
    op.SetSinks? ==> Distinct(op.ids)
  }

  lemma {:induction false} ReceivedConcat(a: seq<SinkCall>, b: seq<SinkCall>, sink: nat)
    ensures Received(a + b, sink) == Received(a, sink) + Received(b, sink)
    decreases |b|
  {
    if b == [] {
      assert a + b == a;
    } else {
      var n := |b| - 1;
      assert (a + b)[..|a + b| - 1] == a + b[..n];
      ReceivedConcat(a, b[..n], sink);
    }
  }

  lemma {:induction false} ReceivedWrites(ids: seq<nat>, batch: seq<Record>, sink: nat)
    requires Distinct(ids)
    ensures Received(WritesTo(ids, batch), sink) == if sink in ids then [batch] else []
  {
    if ids == [] {
      return;
    }
    var n := |ids| - 1;
    var before := Received(WritesTo(ids[..n], batch), sink);
    assert WritesTo(ids, batch)[..n] == WritesTo(ids[..n], batch);
    assert Received(WritesTo(ids, batch), sink) == before + if ids[n] == sink then [batch] else [];
    hide Received, WritesTo;
    ReceivedWrites(ids[..n], batch, sink);
    assert ids == ids[..n] + [ids[n]];
    if ids[n] == sink {
      assert sink !in ids[..n];
    }
  }

  lemma {:induction false} ReceivedFlushes(ids: seq<nat>, sink: nat)
    ensures Received(FlushesOf(ids), sink) == []
  {
    if ids != [] {
      var n := |ids| - 1;
      assert FlushesOf(ids)[..n] == FlushesOf(ids[..n]);
      ReceivedFlushes(ids[..n], sink);
    }
  }

  lemma FlatAppend(batches: seq<seq<Record>>, batch: seq<Record>)
    ensures Flat(batches + [batch]) == Flat(batches) + batch
  {
    assert (batches + [batch])[..|batches|] == batches;
  }

  /** Shipping conserves: what leaves `pending` is one more batch, handed to each wired sink once. */
  lemma ShipConserves(s: State)
    requires Conserved(s.(pending := []).(log := Flat(Batches(s.shipped)), records := |Flat(Batches(s.shipped))|))
    requires Flat(Batches(s.shipped)) + s.pending == s.log && s.records == |s.log|
    ensures Conserved(Ship(s)) && Ship(s).pending == []
  {
    if s.pending != [] {
      var s' := Ship(s);
      assert Batches(s'.shipped) == Batches(s.shipped) + [s.pending];
      FlatAppend(Batches(s.shipped), s.pending);
      forall sink
        ensures Received(s'.calls, sink) == ShippedTo(s'.shipped, sink)
      {
        ReceivedConcat(s.calls, WritesTo(s.sinks, s.pending), sink);
        ReceivedWrites(s.sinks, s.pending, sink);
        assert s'.shipped[..|s.shipped|] == s.shipped;
      }
    }
  }

  lemma StepConserves(s: State, op: Op)
    requires Conserved(s) && WellWired(op)
    ensures Conserved(Next(s, op))
  {
    match op
    case Emit(r, around, at) =>
      var s' := Batch(s, r, around, at);
      assert Flat(Batches(s'.shipped)) + s'.pending == s'.log;
      ShipConserves(s');
    case Flush(now) =>
      ShipConserves(s);
      var s' := Ship(s);
      forall sink
        ensures Received(s'.calls + FlushesOf(s'.sinks), sink) == Received(s'.calls, sink)
      {
        ReceivedConcat(s'.calls, FlushesOf(s'.sinks), sink);
        ReceivedFlushes(s'.sinks, sink);
      }
    case _ =>
      ShipConserves(s);
  }

  ghost predicate AllWellWired(ops: seq<Op>) {
    forall i :: 0 <= i < |ops| ==> WellWired(ops[i])
  }

  function Run(s: State, ops: seq<Op>): State
    decreases |ops|
  {
    if ops == [] then s else Run(Next(s, ops[0]), ops[1..])
  }

  lemma {:induction false} RunConserves(s: State, ops: seq<Op>)
    requires Conserved(s) && AllWellWired(ops)
    ensures Conserved(Run(s, ops))
    decreases |ops|
  {
    if ops != [] {
      StepConserves(s, ops[0]);
      RunConserves(Next(s, ops[0]), ops[1..]);
    }
  }

  // ---------------------------------------------------------------- every emission, from the ops alone

  datatype Emission = Emission(r: Record, around: Around, at: int)

  /** What the probes emitted, in order. */
  function Emitted(ops: seq<Op>): seq<Emission> {
    if ops == [] then []
    else (if ops[0].Emit? then [Emission(ops[0].r, ops[0].around, ops[0].at)] else []) + Emitted(ops[1..])
  }

  function Listed(passwd: map<nat, string>, uid: nat): string {
    if uid in passwd then passwd[uid] else ""
  }

  ghost predicate Occurs(es: seq<Emission>, uid: nat) {
    exists k :: 0 <= k < |es| && es[k].r.uid == Some(uid)
  }

  /** What the passwd database said of a uid at the first emission that carried it. */
  function FirstName(es: seq<Emission>, uid: nat): string {
    if es == [] then ""
    else if es[0].r.uid == Some(uid) then Listed(es[0].around.passwd, uid)
    else FirstName(es[1..], uid)
  }

  function Unresolved(es: seq<Emission>): nat {
    if es == [] then 0
    else
      var e := es[|es| - 1];
      Unresolved(es[..|es| - 1]) + if Look(e.around.table, e.r.cgroupId, e.r.ts).Hit? then 0 else 1
  }

  /** The record an emission becomes, field by field: nothing of it lost, whether a job was found or not. */
  ghost predicate Tells(out: Record, opt: Options, es: seq<Emission>, k: nat)
    requires k < |es|
  {
    var r, around := es[k].r, es[k].around;
    && out.cgroupId == r.cgroupId && out.uid == r.uid && out.payload == r.payload
    && out.ts == (r.ts + around.bootOffset) % 0x1_0000_0000_0000_0000
    && out.node == opt.node && out.cluster == opt.cluster
    && out.user == (if r.uid.None? || FirstName(es, r.uid.value) == "" then r.user
                    else Some(FirstName(es, r.uid.value)))
    && (match Look(around.table, r.cgroupId, r.ts)
        case Hit(attr) =>
          && out.jobId == Some(attr.jobId) && out.taskId == attr.taskId
          && out.stepId == (if attr.stepId == "" then r.stepId else Some(attr.stepId))
        case _ => out.jobId == r.jobId && out.stepId == r.stepId && out.taskId == r.taskId)
  }

  ghost predicate Told(log: seq<Record>, opt: Options, es: seq<Emission>) {
    |log| == |es| && forall k :: 0 <= k < |es| ==> Tells(log[k], opt, es, k)
  }

  ghost predicate Cached(users: map<nat, string>, es: seq<Emission>) {
    forall uid: nat :: (uid in users <==> Occurs(es, uid)) && (uid in users ==> users[uid] == FirstName(es, uid))
  }

  /** The last emissions are the ones still pending. */
  ghost predicate Latest(since: seq<int>, es: seq<Emission>) {
    |since| <= |es| && forall i :: 0 <= i < |since| ==> since[i] == es[|es| - |since| + i].at
  }

  ghost predicate Faithful(s: State, es: seq<Emission>) {
    && Told(s.log, s.opt, es) && Cached(s.users, es)
    && s.records == |es| && s.unattributed == Unresolved(es)
    && |s.since| == |s.pending| && Latest(s.since, es)
  }

  /** A uid's first emission is not moved by later ones. */
  lemma {:induction false} FirstNameStays(es: seq<Emission>, e: Emission, uid: nat)
    ensures FirstName(es + [e], uid) ==
            if Occurs(es, uid) then FirstName(es, uid)
            else if e.r.uid == Some(uid) then Listed(e.around.passwd, uid) else ""
  {
    if es == [] {
      assert ([] + [e])[0] == e && ([] + [e])[1..] == [];
    } else {
      assert (es + [e])[0] == es[0] && (es + [e])[1..] == es[1..] + [e];
      FirstNameStays(es[1..], e, uid);
      OccursFirst(es, uid);
    }
  }

  lemma OccursFirst(es: seq<Emission>, uid: nat)
    requires es != []
    ensures Occurs(es, uid) <==> es[0].r.uid == Some(uid) || Occurs(es[1..], uid)
  {
    if k :| 0 <= k < |es| && es[k].r.uid == Some(uid) {
      assert k > 0 ==> es[1..][k - 1] == es[k];
    }
    if k :| 0 <= k < |es[1..]| && es[1..][k].r.uid == Some(uid) {
      assert es[k + 1] == es[1..][k];
    }
  }

  lemma OccursLast(es: seq<Emission>, e: Emission, uid: nat)
    ensures Occurs(es + [e], uid) <==> Occurs(es, uid) || e.r.uid == Some(uid)
  {
    if k :| 0 <= k < |es| && es[k].r.uid == Some(uid) {
      assert (es + [e])[k] == es[k];
    }
    assert (es + [e])[|es|] == e;
  }

  lemma {:induction false} NoFirstName(es: seq<Emission>, uid: nat)
    requires !Occurs(es, uid)
    ensures FirstName(es, uid) == ""
  {
    if es != [] {
      OccursFirst(es, uid);
      NoFirstName(es[1..], uid);
    }
  }

  lemma CacheGrows(users: map<nat, string>, es: seq<Emission>, e: Emission)
    requires Cached(users, es)
    ensures Cached(if e.r.uid.Some? then CacheUser(users, e.r.uid.value, e.around.passwd) else users, es + [e])
  {
    hide Occurs, FirstName;
    var users' := if e.r.uid.Some? then CacheUser(users, e.r.uid.value, e.around.passwd) else users;
    forall uid: nat
      ensures (uid in users' <==> Occurs(es + [e], uid)) && (uid in users' ==> users'[uid] == FirstName(es + [e], uid))
    {
      OccursLast(es, e, uid);
      FirstNameStays(es, e, uid);
    }
  }

  /** Records already told stay told. */
  lemma ToldStays(log: seq<Record>, opt: Options, es: seq<Emission>, e: Emission, out: Record)
    requires Told(log, opt, es) && Tells(out, opt, es + [e], |es|)
    ensures Told(log + [out], opt, es + [e])
  {
    hide FirstName, Look, Occurs;
    forall k | 0 <= k < |es|
      ensures Tells((log + [out])[k], opt, es + [e], k)
    {
      assert Tells(log[k], opt, es, k) && (es + [e])[k] == es[k];
      if es[k].r.uid.Some? {
        OccursAt(es, k);
        FirstNameStays(es, e, es[k].r.uid.value);
      }
    }
  }

  lemma OccursAt(es: seq<Emission>, k: nat)
    requires k < |es| && es[k].r.uid.Some?
    ensures Occurs(es, es[k].r.uid.value)
  {
  }

  /** An emission is told whatever the lookup finds. */
  lemma EmissionIsTold(s: State, es: seq<Emission>, e: Emission)
    requires Cached(s.users, es)
    ensures var users := if e.r.uid.Some? then CacheUser(s.users, e.r.uid.value, e.around.passwd) else s.users;
            Tells(Enrich(e.r, s.opt, users, e.around), s.opt, es + [e], |es|)
  {
    hide FirstName, Look, CacheUser, Cached;
    CacheGrows(s.users, es, e);
    var users := if e.r.uid.Some? then CacheUser(s.users, e.r.uid.value, e.around.passwd) else s.users;
    assert (es + [e])[|es|] == e;
    if e.r.uid.Some? {
      CachedName(users, es + [e], |es|);
    }
  }

  lemma CachedName(users: map<nat, string>, es: seq<Emission>, k: nat)
    requires Cached(users, es) && k < |es| && es[k].r.uid.Some?
    ensures var uid := es[k].r.uid.value;
            NameOf(users, uid) == if FirstName(es, uid) == "" then None else Some(FirstName(es, uid))
  {
    hide FirstName;
    OccursAt(es, k);
  }

  lemma BatchIsFaithful(s: State, es: seq<Emission>, r: Record, around: Around, at: int)
    requires Faithful(s, es)
    ensures Faithful(Batch(s, r, around, at), es + [Emission(r, around, at)])
  {
    hide Told, Cached, Tells, Look, Enrich, CacheUser;
    var e := Emission(r, around, at);
    EmissionIsTold(s, es, e);
    CacheGrows(s.users, es, e);
    var users := if r.uid.Some? then CacheUser(s.users, r.uid.value, around.passwd) else s.users;
    ToldStays(s.log, s.opt, es, e, Enrich(r, s.opt, users, around));
    assert (es + [e])[..|es|] == es;
  }

  lemma ShipIsFaithful(s: State, es: seq<Emission>)
    requires Faithful(s, es)
    ensures Faithful(Ship(s), es)
  {
    hide Told, Cached, Unresolved, WritesTo;
  }

  lemma StepIsFaithful(s: State, es: seq<Emission>, op: Op)
    requires Faithful(s, es)
    ensures Faithful(Next(s, op), es + Emitted([op]))
  {
    hide Faithful, Next;
    EmittedOnce(op);
    if op.Emit? {
      EmitIsFaithful(s, es, op);
    } else {
      assert es + [] == es;
      OthersAreFaithful(s, es, op);
    }
  }

  lemma EmittedOnce(op: Op)
    ensures Emitted([op]) == if op.Emit? then [Emission(op.r, op.around, op.at)] else []
  {
    assert [op][1..] == [];
  }

  lemma EmitIsFaithful(s: State, es: seq<Emission>, op: Op)
    requires Faithful(s, es) && op.Emit?
    ensures Faithful(Next(s, op), es + [Emission(op.r, op.around, op.at)])
  {
    hide Faithful, Batch, Ship;
    BatchIsFaithful(s, es, op.r, op.around, op.at);
    ShipIsFaithful(Batch(s, op.r, op.around, op.at), es + [Emission(op.r, op.around, op.at)]);
  }

  lemma OthersAreFaithful(s: State, es: seq<Emission>, op: Op)
    requires Faithful(s, es) && !op.Emit?
    ensures Faithful(Next(s, op), es)
  {
    hide Faithful, Ship, FlushesOf, Batch;
    ShipIsFaithful(s, es);
    match op
    case Tick(now) => FaithfulStays(Ship(s), Ship(s).(lastFlush := now), es);
    case SetSinks(ids) => FaithfulStays(s, s.(sinks := ids), es);
    case Flush(now) => FaithfulStays(Ship(s), Next(s, op), es);
  }

  /** Where records go and when plays no part in it. */
  lemma FaithfulStays(s: State, s': State, es: seq<Emission>)
    requires Faithful(s, es) && s' == s.(sinks := s'.sinks, calls := s'.calls, lastFlush := s'.lastFlush)
    ensures Faithful(s', es)
  {
    hide Told, Cached, Unresolved, Latest;
  }

  lemma {:induction false} RunIsFaithful(s: State, es: seq<Emission>, ops: seq<Op>)
    requires Faithful(s, es)
    ensures Faithful(Run(s, ops), es + Emitted(ops))
    decreases |ops|
  {
    hide Faithful, Next;
    if ops == [] {
      assert es + [] == es;
    } else {
      StepIsFaithful(s, es, ops[0]);
      RunIsFaithful(Next(s, ops[0]), es + Emitted([ops[0]]), ops[1..]);
      assert [ops[0]][1..] == [];
      assert es + Emitted([ops[0]]) + Emitted(ops[1..]) == es + Emitted(ops);
    }
  }

  /** Over every run, whatever is found or not found: one record per emission, in order, each telling all of its
      emission; the counters count them; and what is pending are the latest ones. */
  lemma EveryEmissionIsTold(opt: Options, sinks: seq<nat>, now: int, ops: seq<Op>)
    ensures var s, es := Run(Init(opt, sinks, now), ops), Emitted(ops);
            && Told(s.log, opt, es) && s.records == |es| && s.unattributed == Unresolved(es)
            && |s.since| == |s.pending| && Latest(s.since, es)
  {
    hide Told, Cached, Run, Latest;
    StartIsFaithful(opt, sinks, now);
    RunIsFaithful(Init(opt, sinks, now), [], ops);
    OptionsStay(Init(opt, sinks, now), ops);
    assert [] + Emitted(ops) == Emitted(ops);
  }

  lemma StartIsFaithful(opt: Options, sinks: seq<nat>, now: int)
    ensures Faithful(Init(opt, sinks, now), [])
  {
  }

  /** Conservation over every interleaving of emissions, ticks, rewirings and flushes: the shipped batches and the
      pending one are the emissions in order, one record each, a full batch never waits, and each sink was handed
      exactly the batches that went out while it was wired. */
  lemma PipelineConserves(opt: Options, sinks: seq<nat>, now: int, ops: seq<Op>)
    requires Distinct(sinks) && AllWellWired(ops)
    ensures var s := Run(Init(opt, sinks, now), ops);
            && Flat(Batches(s.shipped)) + s.pending == s.log && Told(s.log, opt, Emitted(ops))
            && (|s.pending| < if opt.batchSize > 1 then opt.batchSize else 1)
            && (forall sink :: Received(s.calls, sink) == ShippedTo(s.shipped, sink))
  {
    hide Told, Emitted, Flat, Received, ShippedTo;
    var s0 := Init(opt, sinks, now);
    StartConserves(opt, sinks, now);
    RunConserves(s0, ops);
    OptionsStay(s0, ops);
    EveryEmissionIsTold(opt, sinks, now, ops);
  }

  lemma StartConserves(opt: Options, sinks: seq<nat>, now: int)
    requires Distinct(sinks)
    ensures Conserved(Init(opt, sinks, now))
  {
  }

  lemma {:induction false} OptionsStay(s: State, ops: seq<Op>)
    ensures Run(s, ops).opt == s.opt
    decreases |ops|
  {
    if ops != [] {
      OptionsStay(Next(s, ops[0]), ops[1..]);
    }
  }

  // ---------------------------------------------------------------- freshness

  /** When an op happened, on the steady clock; rewiring takes no time. */
  function When(op: Op, last: int): int {
    match op
    case Emit(_, _, at) => at
    case Tick(now) => now
    case Flush(now) => now
    case SetSinks(_) => last
  }

  ghost predicate Clocked(last: int, ops: seq<Op>)
    decreases |ops|
  {
    ops == [] || (last <= When(ops[0], last) && Clocked(When(ops[0], last), ops[1..]))
  }

  lemma {:induction false} RunStaysTimed(s: State, last: int, ops: seq<Op>)
    requires Timed(s) && s.lastFlush <= last && Clocked(last, ops)
    ensures Timed(Run(s, ops))
    decreases |ops|
  {
    if ops != [] {
      RunStaysTimed(Next(s, ops[0]), When(ops[0], last), ops[1..]);
    }
  }

  /** After any tick of any run on a monotone clock, every record still pending was emitted less than the flush interval
      ago: the pending ones are the last of the emissions. */
  lemma PendingIsFresh(opt: Options, sinks: seq<nat>, start: int, ops: seq<Op>, now: int)
    requires Clocked(start, ops)
    ensures var s, es := Next(Run(Init(opt, sinks, start), ops), Tick(now)), Emitted(ops);
            && |s.since| == |s.pending| <= |es|
            && (forall i :: 0 <= i < |s.since| ==> now - s.since[i] < opt.flushInterval)
            && forall i :: |es| - |s.pending| <= i < |es| ==> now - es[i].at < opt.flushInterval
  {
    hide Told, Emitted, Run;
    var s0 := Init(opt, sinks, start);
    RunStaysTimed(s0, start, ops);
    OptionsStay(s0, ops);
    EveryEmissionIsTold(opt, sinks, start, ops);
    var s, es := Next(Run(s0, ops), Tick(now)), Emitted(ops);
    forall i | |es| - |s.pending| <= i < |es|
      ensures now - es[i].at < opt.flushInterval
    {
      assert s.since[i - (|es| - |s.pending|)] == es[i].at;
    }
  }

  // ---------------------------------------------------------------- when batches go out, and what a flush asks

  /** While nothing is flushed and no tick is due, only full batches go out. */
  lemma {:induction false} OnlyFullBatches(s: State, ops: seq<Op>)
    requires s.pending == [] || |s.pending| < s.opt.batchSize
    requires forall k :: 0 <= k < |ops| ==>
               !ops[k].Flush? && (ops[k].Tick? ==> ops[k].now - s.lastFlush < s.opt.flushInterval)
    ensures var s' := Run(s, ops); var full := if s.opt.batchSize > 1 then s.opt.batchSize else 1;
            && s.shipped <= s'.shipped
            && (forall k :: |s.shipped| <= k < |s'.shipped| ==> |s'.shipped[k].batch| == full)
            && s'.lastFlush == s.lastFlush && s'.opt == s.opt
    decreases |ops|
  {
    if ops != [] {
      OnlyFullBatches(Next(s, ops[0]), ops[1..]);
    }
  }

  /** A due tick and a flush ship what is pending and start the interval anew: until it has passed again nothing but
      full batches goes out, however many records and ticks come. */
  lemma IntervalStartsAnew(s: State, op: Op, ops: seq<Op>)
    requires op.Flush? || (op.Tick? && op.now - s.lastFlush >= s.opt.flushInterval)
    requires forall k :: 0 <= k < |ops| ==>
               !ops[k].Flush? && (ops[k].Tick? ==> ops[k].now - op.now < s.opt.flushInterval)
    ensures var s1, s2 := Next(s, op), Run(Next(s, op),
        ops); var full := if s.opt.batchSize > 1 then s.opt.batchSize else 1;
            && s1.pending == [] && s1.shipped <= s2.shipped
            && forall k :: |s1.shipped| <= k < |s2.shipped| ==> |s2.shipped[k].batch| == full
  {
    OnlyFullBatches(Next(s, op), ops);
    hide WritesTo, FlushesOf, Run;
  }

  function FlushCount(calls: seq<SinkCall>, sink: nat): nat {
    multiset(calls)[FlushOf(sink)]
  }

  /** A flush asks every wired sink once to flush, after everything pending was written; nothing else asks. */
  lemma FlushAsksEach(s: State, op: Op, sink: nat)
    requires Distinct(s.sinks)
    ensures FlushCount(Next(s, op).calls, sink) ==
            FlushCount(s.calls, sink) + if op.Flush? && sink in s.sinks then 1 else 0
    ensures op.Flush? ==> Next(s, op).pending == []
    ensures op.Flush? ==> forall k :: 0 <= k < |s.sinks| ==>
              Next(s, op).calls[|Next(s, op).calls| - |s.sinks| + k] == FlushOf(s.sinks[k])
  {
    hide Ship, Batch, FlushesOf, FlushCount;
    if op.Flush? {
      ShipAsksNone(s, sink);
      FlushesCounted(Ship(s).calls, s.sinks, sink);
      FlushesAt(s.sinks);
    } else {
      OthersAskNone(s, op, sink);
    }
  }

  lemma OthersAskNone(s: State, op: Op, sink: nat)
    requires !op.Flush?
    ensures FlushCount(Next(s, op).calls, sink) == FlushCount(s.calls, sink)
  {
    hide Ship, Batch, FlushCount;
    ShipAsksNone(s, sink);
    if op.Emit? {
      BatchAsksNone(s, op.r, op.around, op.at);
      ShipAsksNone(Batch(s, op.r, op.around, op.at), sink);
    }
  }

  lemma BatchAsksNone(s: State, r: Record, around: Around, at: int)
    ensures Batch(s, r, around, at).calls == s.calls
  {
  }

  lemma FlushesCounted(calls: seq<SinkCall>, ids: seq<nat>, sink: nat)
    requires Distinct(ids)
    ensures FlushCount(calls + FlushesOf(ids), sink) == FlushCount(calls, sink) + if sink in ids then 1 else 0
  {
    FlushesAskOnce(ids, sink);
    hide FlushesOf;
  }

  lemma FlushesAt(ids: seq<nat>)
    ensures |FlushesOf(ids)| == |ids| && forall k :: 0 <= k < |ids| ==> FlushesOf(ids)[k] == FlushOf(ids[k])
  {
  }

  lemma ShipAsksNone(s: State, sink: nat)
    ensures FlushCount(Ship(s).calls, sink) == FlushCount(s.calls, sink)
    ensures Ship(s).sinks == s.sinks && Ship(s).pending == []
  {
    var writes := WritesTo(s.sinks, s.pending);
    assert FlushOf(sink) !in writes;
    assert FlushOf(sink) !in multiset(writes);
  }

  lemma {:induction false} FlushesAskOnce(ids: seq<nat>, sink: nat)
    requires Distinct(ids)
    ensures multiset(FlushesOf(ids))[FlushOf(sink)] == if sink in ids then 1 else 0
  {
    if ids != [] {
      var n := |ids| - 1;
      FlushesAskOnce(ids[..n], sink);
      assert FlushesOf(ids) == FlushesOf(ids[..n]) + [FlushOf(ids[n])];
      assert ids == ids[..n] + [ids[n]];
      assert ids[n] !in ids[..n];
    }
  }

  // ---------------------------------------------------------------- the user cache

  /** Over any run a uid keeps the first answer it was given, found or not. */
  lemma {:induction false} FirstAnswerSticks(s: State, ops: seq<Op>, uid: nat)
    requires uid in s.users
    ensures uid in Run(s, ops).users && Run(s, ops).users[uid] == s.users[uid]
    decreases |ops|
  {
    if ops != [] {
      FirstAnswerSticks(Next(s, ops[0]), ops[1..], uid);
    }
  }
}

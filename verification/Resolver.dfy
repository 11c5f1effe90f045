/** The cgroup table (CgroupResolver in src/core/attribution/attribution.cpp) and the log of calls it answers for. */
module Resolver {
  import opened Text
  import opened CgroupPath

  const TWO64: nat := 0x1_0000_0000_0000_0000

  type u64 = n: nat | n < TWO64

  /** Unsigned 64-bit subtraction. */
  function WrapSub(a: u64, b: u64): u64 {
    (a - b) % TWO64
  }

  /** `removed` is 0 while the cgroup is live, else when its grace period started. */
  datatype Entry = Entry(attr: Attribution, created: u64, removed: u64)

  type Table = map<u64, Entry>

  datatype Call =
    | Created(id: u64, path: string, ts: u64)
    | Removed(id: u64, ts: u64)
    | Ticked(now: u64)
    | Resolved(id: u64, ts: u64)

  predicate Expired(e: Entry, now: u64, grace: u64) {
    e.removed != 0 && WrapSub(now, e.removed) > grace
  }

  function Expire(t: Table, now: u64, grace: u64): Table {
    map id | id in t && !Expired(t[id], now, grace) :: t[id]
  }

  function Admit(t: Table, id: u64, attr: Option<Attribution>, ts: u64): Table {
    if attr.None? then t else t[id := Entry(attr.value, ts, 0)]
  }

  /** What one call does to the table. A path that names no job leaves whatever was there. */
  function Apply(t: Table, call: Call, grace: u64): Table {
    match call
    case Created(id, path, ts) =>
      Admit(t, id, Parse(path), ts)
    case Removed(id, ts) => if id in t && t[id].removed == 0 then t[id := t[id].(removed := ts)] else t
    case Ticked(now) => Expire(t, now, grace)
    case Resolved(_, _) => t
  }

  function Replay(log: seq<Call>, grace: u64): Table {
    if log == [] then map[] else Apply(Replay(log[..|log| - 1], grace), log[|log| - 1], grace)
  }

  datatype Lookup = Miss | Stale | Hit(attr: Attribution)

  /** A lookup with the inode-reuse guard; a zero stamp switches the guard off. */
  function Look(t: Table, id: u64, ts: u64): Lookup {
    if id !in t then Miss
    else if ts != 0 && ts < t[id].created then Stale
    else Hit(t[id].attr)
  }

  // ---------------------------------------------------------------- the object

  function Resolves(log: seq<Call>): nat {
    if log == [] then 0 else Resolves(log[..|log| - 1]) + if log[|log| - 1].Resolved? then 1 else 0
  }

  lemma LogExtends(log: seq<Call>, call: Call, grace: u64)
    ensures Replay(log + [call], grace) == Apply(Replay(log, grace), call, grace)
    ensures Resolves(log + [call]) == Resolves(log) + if call.Resolved? then 1 else 0
  {
    assert (log + [call])[..|log|] == log;
  }

  /** `log` is every call since construction; the bootstrap scan is a series of creations. */
  class CgroupResolver {
    const grace: u64
    var entries: Table
    var hits: nat
    var misses: nat
    var stale: nat
    ghost var log: seq<Call>

    /** The table is a function of the calls, and every resolve is counted exactly once. */
    ghost predicate Valid()
      reads this
    {
      entries == Replay(log, grace) && hits + misses + stale == Resolves(log)
    }

    constructor (grace: u64)
      ensures Valid() && log == [] && this.grace == grace
    {
      this.grace := grace;
      entries := map[];
      hits, misses, stale := 0, 0, 0;
      log := [];
    }

    method OnCreated(id: u64, path: string, ts: u64)
      requires Valid()
      modifies this
      ensures Valid() && log == old(log) + [Created(id, path, ts)]
    {
      var attr := ParseCgroupPath(path);
      LogExtends(log, Created(id, path, ts), grace);
      log := log + [Created(id, path, ts)];
      if attr.None? {
        return;
      }
      entries := entries[id := Entry(attr.value, ts, 0)];
    }

    method OnRemoved(id: u64, ts: u64)
      requires Valid()
      modifies this
      ensures Valid() && log == old(log) + [Removed(id, ts)]
    {
      LogExtends(log, Removed(id, ts), grace);
      log := log + [Removed(id, ts)];
      if id in entries && entries[id].removed == 0 {
        entries := entries[id := entries[id].(removed := ts)];
      }
    }

    /** Walks the table once, erasing as it goes. */
    method Tick(now: u64)
      requires Valid()
      modifies this
      ensures Valid() && log == old(log) + [Ticked(now)]
    {
      var todo := entries.Keys;
      while todo != {}
        invariant todo <= entries.Keys <= old(entries).Keys
        invariant forall id :: id in entries ==> entries[id] == old(entries)[id]
        invariant forall id :: id in old(entries) && id !in todo ==>
                    (id in entries <==> !Expired(old(entries)[id], now, grace))
        invariant log == old(log) && hits + misses + stale == Resolves(log)
        decreases |todo|
      {
        var id :| id in todo;
        todo := todo - {id};
        if entries[id].removed != 0 && WrapSub(now, entries[id].removed) > grace {
          entries := entries - {id};
        }
      }
      assert entries == Expire(old(entries), now, grace);
      LogExtends(log, Ticked(now), grace);
      log := log + [Ticked(now)];
    }

    method Resolve(id: u64, ts: u64) returns (r: Option<Attribution>)
      requires Valid()
      modifies this
      ensures Valid() && log == old(log) + [Resolved(id, ts)] && entries == old(entries)
      ensures r == match Look(entries, id, ts) { case Hit(attr) => Some(attr) case _ => None }
      ensures var l := Look(entries, id, ts);
              && hits == old(hits) + (if l.Hit? then 1 else 0)
              && misses == old(misses) + (if l.Miss? then 1 else 0)
              && stale == old(stale) + (if l.Stale? then 1 else 0)
    {
      LogExtends(log, Resolved(id, ts), grace);
      log := log + [Resolved(id, ts)];
      if id !in entries {
        misses := misses + 1;
        return None;
      }
      if ts != 0 && ts < entries[id].created {
        stale := stale + 1;
        return None;
      }
      hits := hits + 1;
      return Some(entries[id].attr);
    }
  }

  // ---------------------------------------------------------------- the log says what the table holds

  predicate IsCreation(call: Call, id: u64) {
    call.Created? && call.id == id && Parse(call.path).Some?
  }

  /** A removal stamped 0 cannot be told from none. */
  predicate IsRemoval(call: Call, id: u64) {
    call.Removed? && call.id == id && call.ts != 0
  }

  /** The latest creation of `id` under a job path, or -1. */
  function LastCreation(log: seq<Call>, id: u64): (c: int)
    ensures -1 <= c < |log|
    ensures c >= 0 ==> IsCreation(log[c], id)
    ensures forall k :: c < k < |log| ==> !IsCreation(log[k], id)
  {
    if log == [] then -1
    else if IsCreation(log[|log| - 1], id) then |log| - 1
    else LastCreation(log[..|log| - 1], id)
  }

  /** The first removal of `id` at or after `from`, or the length of the log. */
  function FirstRemoval(log: seq<Call>, id: u64, from: nat): (r: nat)
    requires from <= |log|
    ensures from <= r <= |log|
    ensures r < |log| ==> IsRemoval(log[r], id)
    ensures forall k :: from <= k < r ==> !IsRemoval(log[k], id)
    decreases |log| - from
  {
    if from == |log| || IsRemoval(log[from], id) then from else FirstRemoval(log, id, from + 1)
  }

  /** Some tick after position `r` found an entry removed at `removed` past its grace period. */
  ghost predicate TickedOut(log: seq<Call>, r: nat, removed: u64, grace: u64) {
    exists k :: r < k < |log| && log[k].Ticked? && WrapSub(log[k].now, removed) > grace
  }

  /** What is left of an entry whose first removal is at `r` (or not in the log). */
  ghost function Remnant(log: seq<Call>, entry: Entry, r: nat, grace: u64): Option<Entry>
    requires r < |log| ==> log[r].Removed?
  {
    if r >= |log| then Some(entry)
    else if TickedOut(log, r, log[r].ts, grace) then None
    else Some(entry.(removed := log[r].ts))
  }

  /** The entry the whole history calls for: the latest job creation, its first later removal, and the ticks since. */
  ghost function Answer(log: seq<Call>, id: u64, grace: u64): Option<Entry> {
    var c := LastCreation(log, id);
    if c < 0 then None
    else Remnant(log, Entry(Parse(log[c].path).value, log[c].ts, 0), FirstRemoval(log, id, c + 1), grace)
  }

  function Get(t: Table, id: u64): Option<Entry> {
    if id in t then Some(t[id]) else None
  }

  lemma FirstRemovalExtends(log: seq<Call>, id: u64, from: nat, call: Call)
    requires from <= |log|
    ensures var r := FirstRemoval(log, id, from);
            FirstRemoval(log + [call], id, from) ==
            if r < |log| || IsRemoval(call, id) then r else |log| + 1
  {
    var log' := log + [call];
    var r, r' := FirstRemoval(log, id, from), FirstRemoval(log', id, from);
    assert forall k :: 0 <= k < |log| ==> log'[k] == log[k];
    assert log'[|log|] == call;
  }

  /** The table that holds at most one entry, for `id`. */
  function Only(e: Option<Entry>, id: u64): Table {
    match e
    case None => map[]
    case Some(entry) => map[id := entry]
  }

  /** How one more call changes the history's answer. */
  lemma AnswerStep(log: seq<Call>, call: Call, id: u64, grace: u64)
    ensures Answer(log + [call], id, grace) == Get(Apply(Only(Answer(log, id, grace), id), call, grace), id)
  {
    assert (log + [call])[..|log|] == log;
    if IsCreation(call, id) {
      AnswerCreated(log, call, id, grace);
    } else if LastCreation(log, id) >= 0 {
      AnswerKept(log, call, id, grace);
    }
  }

  lemma AnswerCreated(log: seq<Call>, call: Call, id: u64, grace: u64)
    requires IsCreation(call, id)
    ensures Answer(log + [call], id, grace) == Some(Entry(Parse(call.path).value, call.ts, 0))
  {
    var log' := log + [call];
    assert LastCreation(log', id) == |log|;
    assert FirstRemoval(log', id, |log| + 1) == |log'|;
  }

  lemma AnswerKept(log: seq<Call>, call: Call, id: u64, grace: u64)
    requires !IsCreation(call, id) && LastCreation(log, id) >= 0
    ensures Answer(log + [call], id, grace) == Get(Apply(Only(Answer(log, id, grace), id), call, grace), id)
  {
    hide LastCreation, FirstRemoval, Remnant, Apply, Parse, Get, Only;
    var c := LastCreation(log, id);
    LastCreationKept(log, call, id);
    FirstRemovalExtends(log, id, c + 1, call);
    var entry := Entry(Parse(log[c].path).value, log[c].ts, 0);
    RemnantStep(log, call, id, entry, FirstRemoval(log, id, c + 1), grace);
  }

  lemma LastCreationKept(log: seq<Call>, call: Call, id: u64)
    requires !IsCreation(call, id)
    ensures LastCreation(log + [call], id) == LastCreation(log, id)
    ensures LastCreation(log, id) >= 0 ==> (log + [call])[LastCreation(log, id)] == log[LastCreation(log, id)]
  {
    hide IsCreation;
    assert (log + [call])[..|log|] == log;
  }

  lemma RemnantStep(log: seq<Call>, call: Call, id: u64, entry: Entry, r: nat, grace: u64)
    requires !IsCreation(call, id) && entry.removed == 0
    requires r <= |log| && (r < |log| ==> IsRemoval(log[r], id))
    ensures var r' := if r < |log| || IsRemoval(call, id) then r else |log| + 1;
            Remnant(log + [call], entry, r', grace) ==
            Get(Apply(Only(Remnant(log, entry, r, grace), id), call, grace), id)
  {
    var log' := log + [call];
    if r < |log| {
      assert log'[r] == log[r];
      TickedOutStep(log, call, r, log[r].ts, grace);
    } else if IsRemoval(call, id) {
      assert log'[r] == call && !TickedOut(log', r, call.ts, grace);
    }
  }

  lemma TickedOutStep(log: seq<Call>, call: Call, r: nat, removed: u64, grace: u64)
    requires r < |log|
    ensures TickedOut(log + [call], r, removed, grace) <==>
            TickedOut(log, r, removed, grace) || (call.Ticked? && WrapSub(call.now, removed) > grace)
  {
    var log' := log + [call];
    assert forall k :: 0 <= k < |log| ==> log'[k] == log[k];
    assert log'[|log|] == call;
    if TickedOut(log, r, removed, grace) {
      var k :| r < k < |log| && log[k].Ticked? && WrapSub(log[k].now, removed) > grace;
      assert log'[k].Ticked?;
    }
  }

  /** A call treats each id by itself. */
  lemma ApplyIsLocal(t: Table, id: u64, call: Call, grace: u64)
    ensures Get(Apply(t, call, grace), id) ==
            Get(Apply(Only(Get(t, id), id), call, grace), id)
  {
    match call
    case Created(_, path, ts) =>
      var attr := Parse(path);
    case _ =>
  }

  /** The table refines the log: after any sequence of calls it holds, for every id, what the history calls for. */
  lemma {:induction false} ReplayIsAnswer(log: seq<Call>, id: u64, grace: u64)
    ensures Get(Replay(log, grace), id) == Answer(log, id, grace)
  {
    if log != [] {
      var init, call := log[..|log| - 1], log[|log| - 1];
      assert log == init + [call];
      ReplayIsAnswer(init, id, grace);
      AnswerStep(init, call, id, grace);
      ApplyIsLocal(Replay(init, grace), id, call, grace);
    }
  }
}

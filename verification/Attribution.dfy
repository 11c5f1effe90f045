/** Whose work an event is: the resolver against the kernel's own history of cgroups, whatever the interleaving of the
    watcher's ring, the probes' rings and the ticks (src/core/attribution/attribution.cpp, docs/DESIGN.md section
    4). */
module AttributionSoundness {
  import opened Text
  import opened CgroupPath
  import opened Resolver

  predicate IsLifecycle(call: Call) {
    call.Created? || call.Removed?
  }

  /** What the watcher's ring delivered: the log's creations and removals in order. */
  function Feed(log: seq<Call>): seq<Call> {
    if log == [] then []
    else Feed(log[..|log| - 1]) + if IsLifecycle(log[|log| - 1]) then [log[|log| - 1]] else []
  }

  /** The latest job creation of `id`. */
  function Newest(h: seq<Call>, id: u64): (c: Option<Call>)
    ensures c.Some? ==> c.value.Created? && IsCreation(c.value, id) && c.value in h
  {
    if h == [] then None
    else if IsCreation(h[|h| - 1], id) then Some(h[|h| - 1])
    else Newest(h[..|h| - 1], id)
  }

  /** The latest job creation of `id` stamped no later than `ts`, removed since or not. */
  function Former(h: seq<Call>, id: u64, ts: u64): (c: Option<Call>)
    ensures c.Some? ==> c.value.Created? && IsCreation(c.value, id) && c.value.ts <= ts
  {
    if h == [] then None
    else if IsCreation(h[|h| - 1], id) && h[|h| - 1].ts <= ts then Some(h[|h| - 1])
    else Former(h[..|h| - 1], id, ts)
  }

  predicate Concerns(call: Call, id: u64, ts: u64) {
    IsLifecycle(call) && call.id == id && call.ts <= ts
  }

  /** The last thing that had happened to `id` by `ts`. */
  function LastEvent(h: seq<Call>, id: u64, ts: u64): (c: Option<Call>)
    ensures c.Some? ==> Concerns(c.value, id, ts) && c.value in h
  {
    if h == [] then None
    else if Concerns(h[|h| - 1], id, ts) then Some(h[|h| - 1])
    else LastEvent(h[..|h| - 1], id, ts)
  }

  /** The job that had the id at `ts`: created by then, and neither removed nor followed by another cgroup. */
  function Owner(h: seq<Call>, id: u64, ts: u64): (c: Option<Call>)
    ensures c.Some? ==> c.value.Created? && IsCreation(c.value, id) && c.value.ts <= ts
  {
    var last := LastEvent(h, id, ts);
    if last.Some? && IsCreation(last.value, id) then last else None
  }

  /** Per id, the kernel stamps creations and removals in the order they happen. */
  ghost predicate Stamped(h: seq<Call>) {
    && (forall i :: 0 <= i < |h| ==> IsLifecycle(h[i]))
    && (forall i, j :: 0 <= i < j < |h| && h[i].id == h[j].id ==> h[i].ts <= h[j].ts)
  }

  /** Everything the kernel still has to deliver about `id` happened after `ts`. */
  ghost predicate AllDeliveredUpTo(pending: seq<Call>, id: u64, ts: u64) {
    forall k :: 0 <= k < |pending| && IsLifecycle(pending[k]) && pending[k].id == id ==> pending[k].ts > ts
  }

  /** No later job has been seen with this id. */
  ghost predicate NoneLater(h: seq<Call>, id: u64, ts: u64) {
    forall k :: 0 <= k < |h| && IsCreation(h[k], id) ==> h[k].ts <= ts
  }

  /** A tick has already expired the latest entry of `id`. */
  ghost predicate GraceOver(log: seq<Call>, id: u64, grace: u64) {
    var c := LastCreation(log, id);
    c >= 0 && var r := FirstRemoval(log, id, c + 1); r < |log| && TickedOut(log, r, log[r].ts, grace)
  }

  // ---------------------------------------------------------------- soundness

  lemma {:induction false} NewestIsLast(log: seq<Call>, id: u64)
    ensures var c := LastCreation(log, id);
            Newest(Feed(log), id) == if c < 0 then None else Some(log[c])
  {
    if log != [] {
      var init := log[..|log| - 1];
      NewestIsLast(init, id);
      if IsLifecycle(log[|log| - 1]) {
        assert Feed(log)[..|Feed(log)| - 1] == Feed(init);
      } else {
        assert Feed(log) == Feed(init);
      }
    }
  }

  lemma {:induction false} LaterIsIgnored(h: seq<Call>, pending: seq<Call>, id: u64, ts: u64)
    requires AllDeliveredUpTo(pending, id, ts)
    ensures Former(h + pending, id, ts) == Former(h, id, ts)
    ensures Owner(h + pending, id, ts) == Owner(h, id, ts)
  {
    if pending == [] {
      assert h + pending == h;
    } else {
      var n := |pending| - 1;
      assert (h + pending)[..|h + pending| - 1] == h + pending[..n];
      LaterIsIgnored(h, pending[..n], id, ts);
    }
  }

  /** An owner is the latest job creation; the latest job creation need not be an owner. */
  lemma {:induction false} OwnerIsFormer(h: seq<Call>, id: u64, ts: u64)
    ensures Owner(h, id, ts).Some? ==> Owner(h, id, ts) == Former(h, id, ts)
  {
    if h != [] {
      OwnerIsFormer(h[..|h| - 1], id, ts);
    }
  }

  /** The newest incarnation is the former one exactly when it is not from after `ts`. */
  lemma {:induction false} NewestOrFormer(h: seq<Call>, id: u64, ts: u64)
    requires Stamped(h)
    ensures NoneLater(h, id, ts) ==> Former(h, id, ts) == Newest(h, id)
    ensures Newest(h, id).Some? ==> (NoneLater(h, id, ts) <==> Newest(h, id).value.ts <= ts)
    ensures Newest(h, id).None? ==> Former(h, id, ts).None?
  {
    hide Stamped, NoneLater, IsCreation;
    if h == [] {
      NoneLaterInNone(id, ts);
    } else {
      LastDecides(h, id, ts);
      NewestOrFormer(h[..|h| - 1], id, ts);
    }
  }

  lemma NoneLaterInNone(id: u64, ts: u64)
    ensures NoneLater([], id, ts)
  {
  }

  /** The stamps being in order, the last creation says whether any is later. */
  lemma LastDecides(h: seq<Call>, id: u64, ts: u64)
    requires Stamped(h) && h != []
    ensures var init, last := h[..|h| - 1], h[|h| - 1];
            && Stamped(init)
            && (IsCreation(last, id) ==> last.Created? && (NoneLater(h, id, ts) <==> last.ts <= ts))
            && (!IsCreation(last, id) ==> (NoneLater(h, id, ts) <==> NoneLater(init, id, ts)))
  {
    hide Parse;
    var init := h[..|h| - 1];
    assert forall k :: 0 <= k < |init| ==> init[k] == h[k];
  }

  /** What a nonzero-stamped lookup finds, whatever is still undelivered: the last job creation delivered by `ts`, as
      long as no later one has been delivered and the grace period has not expired it. */
  lemma ResolveAnswers(log: seq<Call>, id: u64, ts: u64, grace: u64)
    requires ts != 0 && Stamped(Feed(log))
    ensures var seen, found := Former(Feed(log), id, ts), Look(Replay(log, grace), id, ts);
            && (found.Hit? <==> seen.Some? && NoneLater(Feed(log), id, ts) && !GraceOver(log, id, grace))
            && (found.Hit? ==> Parse(seen.value.path) == Some(found.attr))
  {
    hide Former, Newest, Stamped, NoneLater, GraceOver, Feed, Look, Replay, Parse;
    NewestOrFormer(Feed(log), id, ts);
    NewestIsLast(log, id);
    LookAnswers(log, id, ts, grace);
  }

  lemma DeliveredIsStamped(log: seq<Call>, pending: seq<Call>)
    requires Stamped(Feed(log) + pending)
    ensures Stamped(Feed(log))
  {
    assert forall k :: 0 <= k < |Feed(log)| ==> (Feed(log) + pending)[k] == Feed(log)[k];
    hide Feed;
  }

  /** Attribution soundness, for every history `Feed(log) + pending` and every interleaving `log` of its delivered
      part with ticks and lookups, and a nonzero-stamped event whose lifecycle events up to its stamp have been
      delivered: an event of an id some job has at that moment is given that job or nothing, and is given that job
      exactly when no later incarnation has been delivered and the grace period has not expired the entry. When no job
      has the id, it is given the last job that had it, under the same condition. */
  lemma ResolveIsSound(log: seq<Call>, pending: seq<Call>, id: u64, ts: u64, grace: u64)
    requires ts != 0
    requires Stamped(Feed(log) + pending) && AllDeliveredUpTo(pending, id, ts)
    ensures var h, found := Feed(log) + pending, Look(Replay(log, grace), id, ts);
            var owner, former := Owner(h, id, ts), Former(h, id, ts);
            && (owner.Some? ==>
                  && (found.Hit? <==> NoneLater(Feed(log), id, ts) && !GraceOver(log, id, grace))
                  && (found.Hit? ==> Parse(owner.value.path) == Some(found.attr)))
            && (owner.None? ==>
                  && (found.Hit? <==> former.Some? && NoneLater(Feed(log), id, ts) && !GraceOver(log, id, grace))
                  && (found.Hit? ==> Parse(former.value.path) == Some(found.attr)))
  {
    hide Owner, Former, Stamped, AllDeliveredUpTo, NoneLater, GraceOver, Feed, Look, Replay, Parse;
    DeliveredIsStamped(log, pending);
    LaterIsIgnored(Feed(log), pending, id, ts);
    OwnerIsFormer(Feed(log), id, ts);
    ResolveAnswers(log, id, ts, grace);
  }

  /** A lookup read off the log. */
  lemma LookAnswers(log: seq<Call>, id: u64, ts: u64, grace: u64)
    ensures var c, found := LastCreation(log, id), Look(Replay(log, grace), id, ts);
            && (found.Miss? <==> c < 0 || GraceOver(log, id, grace))
            && (found.Hit? <==> c >= 0 && !GraceOver(log, id, grace) && (ts == 0 || log[c].ts <= ts))
            && (found.Hit? ==> Parse(log[c].path) == Some(found.attr))
  {
    ReplayIsAnswer(log, id, grace);
  }

  /** A zero stamp is given the newest incarnation, however much later it was created. */
  lemma ZeroStampTakesNewest(log: seq<Call>, id: u64, grace: u64)
    ensures Look(Replay(log, grace), id, 0).Hit? <==> Newest(Feed(log), id).Some? && !GraceOver(log, id, grace)
    ensures Look(Replay(log, grace), id, 0).Hit? ==>
              Parse(Newest(Feed(log), id).value.path) == Some(Look(Replay(log, grace), id, 0).attr)
  {
    NewestIsLast(log, id);
    LookAnswers(log, id, 0, grace);
  }

  // ---------------------------------------------------------------- against the cgroup that really had the id

  /** The cgroup created at `c`, job work or not, was the one with this id at `ts`. */
  ghost predicate Occupies(h: seq<Call>, c: nat, id: u64, ts: u64) {
    && c < |h| && h[c].Created? && h[c].id == id && h[c].ts <= ts
    && forall k :: c < k < |h| && IsLifecycle(h[k]) && h[k].id == id ==> h[k].ts > ts
  }

  /** The owner is the occupant when that is job work; otherwise there is no owner. */
  lemma {:induction false} OwnerIsOccupant(h: seq<Call>, c: nat, id: u64, ts: u64)
    requires Occupies(h, c, id, ts)
    ensures Owner(h, id, ts) == if Parse(h[c].path).Some? then Some(h[c]) else None
  {
    if c < |h| - 1 {
      assert Occupies(h[..|h| - 1], c, id, ts);
      OwnerIsOccupant(h[..|h| - 1], c, id, ts);
    }
  }

  /** And there is one only while some cgroup has the id. */
  lemma {:induction false} OwnerOccupies(h: seq<Call>, id: u64, ts: u64) returns (c: nat)
    requires Owner(h, id, ts).Some?
    ensures Occupies(h, c, id, ts) && Owner(h, id, ts) == Some(h[c])
  {
    var n := |h| - 1;
    if Concerns(h[n], id, ts) {
      c := n;
    } else {
      c := OwnerOccupies(h[..n], id, ts);
    }
  }

  /** A result is right when it names the job that had the id, or nothing. */
  ghost predicate Right(found: Lookup, owner: Option<Call>)
    requires owner.Some? ==> owner.value.Created?
  {
    found.Hit? ==> owner.Some? && Parse(owner.value.path) == Some(found.attr)
  }

  /** For every history, delivered as far as it may be: the result is right exactly when no job creation was delivered
      by `ts`, or a later one was, or the grace period is over, or the owner is a job of the same name as the last one
      delivered. */
  lemma RightExactly(log: seq<Call>, pending: seq<Call>, id: u64, ts: u64, grace: u64)
    requires ts != 0 && Stamped(Feed(log) + pending)
    ensures var owner, seen := Owner(Feed(log) + pending, id, ts), Former(Feed(log), id, ts);
            Right(Look(Replay(log, grace), id, ts), owner) <==>
            seen.None? || !NoneLater(Feed(log), id, ts) || GraceOver(log, id, grace)
            || (owner.Some? && Parse(owner.value.path) == Parse(seen.value.path))
  {
    hide Owner, Former, Stamped, NoneLater, GraceOver, Feed, Look, Replay, Parse;
    DeliveredIsStamped(log, pending);
    ResolveAnswers(log, id, ts, grace);
  }

  /** Once everything up to `ts` is delivered: right whenever a job has the id at that moment. When none has, the id
      being free or with a cgroup that is not job work, right exactly when no earlier job's entry is still standing. */
  lemma RightWhenDelivered(log: seq<Call>, pending: seq<Call>, id: u64, ts: u64, grace: u64)
    requires ts != 0
    requires Stamped(Feed(log) + pending) && AllDeliveredUpTo(pending, id, ts)
    ensures var h, found := Feed(log) + pending, Look(Replay(log, grace), id, ts);
            Right(found, Owner(h, id, ts)) <==>
            Owner(h, id, ts).Some?
            || Former(h, id, ts).None? || !NoneLater(Feed(log), id, ts) || GraceOver(log, id, grace)
  {
    hide Owner, Former, Stamped, AllDeliveredUpTo, NoneLater, GraceOver, Feed, Look, Replay, Parse;
    RightExactly(log, pending, id, ts, grace);
    LaterIsIgnored(Feed(log), pending, id, ts);
    OwnerIsFormer(Feed(log), id, ts);
  }

  const REMOVED: seq<Call> := [Created(7, "job_1", 10), Removed(7, 20)]

  /** The first failing case: between a job's end and the end of its grace period, nobody has the id. */
  lemma FreeIdStillNamesJob(grace: u64)
    ensures Look(Replay(REMOVED, grace), 7, 40) == Hit(Attribution(1, "", None))
    ensures (forall c: nat :: !Occupies(Feed(REMOVED), c, 7, 40)) && Owner(Feed(REMOVED), 7, 40) == None
  {
    PathsOfRecycled();
    var a := [Created(7, "job_1", 10)];
    LogExtends([], a[0], grace);
    assert [] + a == a;
    LogExtends(a, Removed(7, 20), grace);
    assert a + [Removed(7, 20)] == REMOVED;
    FeedOfRemoved();
  }

  const RECYCLED: seq<Call> := [Created(7, "job_1", 10), Removed(7, 20), Created(7, "system", 30)]

  /** The second: an id that passed from a job to a cgroup that is not job work still names the job. */
  lemma RecycledIntoNonJob(grace: u64)
    ensures Look(Replay(RECYCLED, grace), 7, 40) == Hit(Attribution(1, "", None))
    ensures Occupies(Feed(RECYCLED), 2, 7, 40) && Owner(Feed(RECYCLED), 7, 40) == None
  {
    PathsOfRecycled();
    FreeIdStillNamesJob(grace);
    var b := REMOVED;
    assert RECYCLED == b + [Created(7, "system", 30)];
    LogExtends(b, Created(7, "system", 30), grace);
    FeedOfRemoved();
    assert Feed(RECYCLED) == RECYCLED by {
      assert RECYCLED[..2] == b;
    }
    OwnerIsOccupant(RECYCLED, 2, 7, 40);
  }

  const STILL_PENDING: seq<Call> := [Created(7, "job_2", 30)]

  /** The third: a job's event arrives before the creation of its cgroup, which waits in the watcher's own ring, and is
      given the job that had the id before. */
  lemma UndeliveredCreationInherits(grace: u64)
    ensures Stamped(Feed(REMOVED) + STILL_PENDING)
    ensures Owner(Feed(REMOVED) + STILL_PENDING, 7, 40) == Some(STILL_PENDING[0])
    ensures Look(Replay(REMOVED, grace), 7, 40) == Hit(Attribution(1, "", None))
    ensures !Right(Look(Replay(REMOVED, grace), 7, 40), Some(STILL_PENDING[0]))
  {
    hide Replay, Look, Parse, Feed;
    FreeIdStillNamesJob(grace);
    PathsOfRecycled();
    FeedOfRemoved();
    assert REMOVED + STILL_PENDING == [Created(7, "job_1", 10), Removed(7, 20), Created(7, "job_2", 30)];
  }

  lemma FeedOfRemoved()
    ensures Feed(REMOVED) == REMOVED
  {
    var a := [Created(7, "job_1", 10)];
    assert Feed(a) == a by {
      assert a[..0] == [];
    }
    assert REMOVED[..1] == a;
  }

  lemma PathOfJob(n: nat, path: string)
    requires n <= UINT32_MAX && path == "job_" + Dec(n)
    ensures Parse(path) == Some(Attribution(n, "", None))
  {
    assert '/' !in Dec(n) ==> IndexOf(path, '/', 0) == None;
    ClassifyPrinted(n, "s");
    AbsorbOne(START, path, []);
    assert [path] + [] == [path];
  }

  lemma PathsOfRecycled()
    ensures Parse("job_1") == Some(Attribution(1, "", None)) && Parse("job_2") == Some(Attribution(2, "", None))
    ensures Parse("system") == None
  {
    assert Dec(1) == "1" && Dec(2) == "2";
    PathOfJob(1, "job_1");
    PathOfJob(2, "job_2");
    assert IndexOf("system", '/', 0) == None;
    assert "system"[..5] == "syste" && "system"[..4] == "syst";
    assert Classify("system") == Other;
    AbsorbOne(START, "system", []);
    assert ["system"] + [] == ["system"];
  }

  // ---------------------------------------------------------------- the grace period, in wrapping arithmetic

  /** With the removal no later than the clock, wrapping subtraction is elapsed time. */
  lemma GraceExact(e: Entry, now: u64, grace: u64)
    requires e.removed <= now
    ensures Expired(e, now, grace) <==> e.removed != 0 && now - e.removed > grace
  {
  }

  /** With the removal stamped ahead of the clock it wraps, and only a grace within the skew of 2^64 would save the
      entry. */
  lemma GraceSkewed(e: Entry, now: u64, grace: u64)
    requires e.removed > now
    ensures Expired(e, now, grace) <==> TWO64 - (e.removed - now) > grace
  {
    assert WrapSub(now, e.removed) == now - e.removed + TWO64;
  }

  /** No tick runs behind a removal delivered before it. */
  ghost predicate ClockAhead(log: seq<Call>) {
    forall r, k :: 0 <= r < k < |log| && log[r].Removed? && log[k].Ticked? ==> log[r].ts <= log[k].now
  }

  /** Every tick after the removal at `r` came within the grace period. */
  ghost predicate WithinGrace(log: seq<Call>, r: nat, grace: u64) {
    forall k :: r < k < |log| && log[k].Ticked? ==> r < |log| && log[r].Removed? && log[k].now - log[r].ts <= grace
  }

  lemma TickedOutOnSaneClock(log: seq<Call>, r: nat, grace: u64)
    requires ClockAhead(log) && r < |log| && log[r].Removed?
    ensures TickedOut(log, r, log[r].ts, grace) <==> !WithinGrace(log, r, grace)
  {
    forall k | r < k < |log| && log[k].Ticked?
      ensures WrapSub(log[k].now, log[r].ts) == log[k].now - log[r].ts
    {
    }
  }

  lemma InTable(t: Table, id: u64)
    ensures id in t <==> !Look(t, id, 0).Miss?
  {
  }

  /** Over every run on a sane clock: an entry is there exactly when its cgroup is live, or every tick since its
      removal came within the grace period. */
  lemma GraceOverRuns(log: seq<Call>, id: u64, grace: u64)
    requires ClockAhead(log)
    ensures var c := LastCreation(log, id);
            id in Replay(log, grace) <==>
            c >= 0 && var r := FirstRemoval(log, id, c + 1); r == |log| || WithinGrace(log, r, grace)
  {
    hide *;
    InTable(Replay(log, grace), id);
    LookAnswers(log, id, 0, grace);
    var c := LastCreation(log, id);
    if c >= 0 {
      GraceOverOnSaneClock(log, id, c, grace);
    }
  }

  lemma GraceOverOnSaneClock(log: seq<Call>, id: u64, c: nat, grace: u64)
    requires ClockAhead(log) && c == LastCreation(log, id)
    ensures var r := FirstRemoval(log, id, c + 1);
            !GraceOver(log, id, grace) <==> r == |log| || WithinGrace(log, r, grace)
  {
    var r := FirstRemoval(log, id, c + 1);
    if r < |log| {
      TickedOutOnSaneClock(log, r, grace);
    }
  }
}

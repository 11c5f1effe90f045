/** What any sequence of reloads keeps and reaches (reload_config in src/core/daemon.cpp). */
module Reload {
  import opened Text
  import opened EventLoop
  import opened Config
  import opened Loader
  import opened DaemonSteps

  // ---------------------------------------------------------------- what an act does to the running ids

  ghost predicate Submap(a: map<string, string>, b: map<string, string>) {
    forall id :: id in a ==> id in b && a[id] == b[id]
  }

  /** Nothing fails. */
  ghost predicate Good(w: World) {
    && (forall kind, id :: w.opens(kind, id).Built?)
    && (forall id :: w.starts(id) && (w.hasRing(id) ==> w.arms(id)))
    && (forall id, n: nat :: w.rearms(id)(n))
  }

  function OtherKind(kind: Kind): Kind {
    if kind.SinkKind? then ProbeKind else SinkKind
  }

  /** Nothing starts or ends the watcher or the pipeline. */
  ghost predicate SameServices(s: State, s': State) {
    forall o :: Service(o) ==> (o in s'.alive <==> o in s.alive)
  }

  /** The running ids of the act's kind afterwards: a drop leaves some of the others, an addition at most adds its
      own. */
  ghost predicate ActEffect(s: State, act: Act, s': State) {
    && s'.config == s.config && s'.handles.dir == s.handles.dir && SameServices(s, s')
    && s'.handles.Of(OtherKind(act.kind)) == s.handles.Of(OtherKind(act.kind))
    && s'.Slots(OtherKind(act.kind)) == s.Slots(OtherKind(act.kind))
    && match act
       case Drop(kind, id) => Submap(s'.handles.Of(kind), s.handles.Of(kind) - {id})
       case New(kind, id, plugin) =>
         || s'.handles.Of(kind) == s.handles.Of(kind)
         || s'.handles.Of(kind) == s.handles.Of(kind)[id := PluginPath(s.handles.dir, kind, plugin)]
  }

  /** When nothing fails, exactly that id goes or comes, and every other id keeps its object. */
  ghost predicate GoodEffect(s: State, act: Act, s': State) {
    && (match act
        case Drop(kind, id) => s'.handles.Of(kind) == s.handles.Of(kind) - {id}
        case New(kind, id, plugin) =>
          s'.handles.Of(kind) == s.handles.Of(kind)[id := PluginPath(s.handles.dir, kind, plugin)])
    && (forall slot :: slot in s.Slots(act.kind) && slot.id != act.id ==> slot in s'.Slots(act.kind))
    && (act.New? ==> forall slot :: slot in s.Slots(act.kind) ==> slot in s'.Slots(act.kind))
  }

  lemma {:induction false} ForgetEffect(s: State, dead: seq<Obj>)
    ensures var s' := Last(s, ForgetPath(s, dead));
            && s'.config == s.config && s'.handles.dir == s.handles.dir && SameServices(s, s')
            && s'.handles.sinks == s.handles.sinks && s'.sinks == s.sinks
            && Submap(s'.handles.probes, s.handles.probes)
    decreases |dead|
  {
    if dead != [] {
      var i := IndexOfDead(s.probes, dead[0]);
      if i == |s.probes| {
        ForgetEffect(s, dead[1..]);
      } else {
        var s1 := Forgotten(s, i);
        var s2 := Unloaded(s1, ProbeKind, s.probes[i].id);
        ForgetEffect(s2, dead[1..]);
        PathConcat(s, [s1, s2], ForgetPath(s2, dead[1..]));
      }
    }
  }

  /** Forgetting a running probe takes its id, and with nothing else dropped only its id. */
  lemma ForgetFirst(s: State, i: nat, more: seq<Obj>)
    requires Core(s) && i < |s.probes|
    ensures var s' := Last(s, ForgetPath(s, [Component(ProbeKind, s.probes[i])] + more));
            && Submap(s'.handles.probes, s.handles.probes - {s.probes[i].id})
            && (more == [] ==>
                  s'.handles.probes == s.handles.probes - {s.probes[i].id} && s'.probes == Erase(s.probes, i))
  {
    var probe := Component(ProbeKind, s.probes[i]);
    CoreFacts(s);
    HandlesDistinct(s.probes, s.handles.probes);
    OwnDead(s.probes, i);
    var s1 := Forgotten(s, i);
    var s2 := Unloaded(s1, ProbeKind, s.probes[i].id);
    UnloadIs(s.handles, ProbeKind, s.probes[i].id);
    assert ([probe] + more)[1..] == more;
    hide Core, Unload;
    PathConcat(s, [s1, s2], ForgetPath(s2, more));
    ForgetEffect(s2, more);
  }

  lemma OwnDead(slots: seq<Slot>, i: nat)
    requires DistinctSlots(slots) && i < |slots|
    ensures IndexOfDead(slots, Component(ProbeKind, slots[i])) == i
  {
  }

  lemma {:induction false} NothingDropped(bs: seq<Binding<Obj>>, rearms: nat -> bool)
    requires forall n: nat :: rearms(n)
    ensures Pick(bs, rearms, false) == []
  {
    if bs != [] {
      NothingDropped(bs[..|bs| - 1], rearms);
    }
  }

  /** An id without a slot has no handle. */
  lemma NotRunning(slots: seq<Slot>, handles: map<string, string>, id: string)
    requires HandlesMatch(slots, handles) && IndexOfId(slots, id) == |slots|
    ensures id !in handles
  {
  }

  lemma DropSinkEffect(s: State, id: string, w: World)
    requires Core(s)
    ensures var s' := Last(s, RemoveSinkPath(s, id));
            ActEffect(s, Drop(SinkKind, id), s') && GoodEffect(s, Drop(SinkKind, id), s')
  {
    CoreFacts(s);
    var i := IndexOfId(s.sinks, id);
    if i == |s.sinks| {
      NotRunning(s.sinks, s.handles.sinks, id);
      assert s.handles.sinks - {id} == s.handles.sinks;
    } else {
      HandlesDistinct(s.sinks, s.handles.sinks);
      EraseKeepsOthers(s.sinks, i);
      UnloadIs(s.handles, SinkKind, id);
    }
  }

  lemma DropProbeEffect(s: State, id: string, w: World)
    requires Core(s)
    ensures var s' := Last(s, RemoveProbePath(s, id, w));
            ActEffect(s, Drop(ProbeKind, id), s') && (Good(w) ==> GoodEffect(s, Drop(ProbeKind, id), s'))
  {
    CoreFacts(s);
    var i := IndexOfId(s.probes, id);
    if i == |s.probes| {
      NotRunning(s.probes, s.handles.probes, id);
      assert s.handles.probes - {id} == s.handles.probes;
      hide Core, Good;
    } else {
      RemovedEffect(s, id, w);
      hide ActEffect, GoodEffect, RemoveProbePath;
    }
  }

  /** A removal in terms of the loop without the probe, and everything there is to forget. */
  lemma RemovedEnd(s: State, i: nat, id: string, w: World)
    requires i == IndexOfId(s.probes, id) < |s.probes|
    ensures var probe := Component(ProbeKind, s.probes[i]);
            var s1 := s.(loop := Unbind(s.loop, probe, w.rearms(id)));
            Last(s, RemoveProbePath(s, id, w)) ==
            Last(s1, ForgetPath(s1, [probe] + AlsoDropped(s.loop, probe, w.rearms(id))))
  {
    hide Unbind, AlsoDropped, ForgetPath;
  }

  lemma RemovedEffect(s: State, id: string, w: World)
    requires Core(s) && IndexOfId(s.probes, id) < |s.probes|
    ensures var s' := Last(s, RemoveProbePath(s, id, w));
            ActEffect(s, Drop(ProbeKind, id), s') && (Good(w) ==> GoodEffect(s, Drop(ProbeKind, id), s'))
  {
    var i := IndexOfId(s.probes, id);
    var probe := Component(ProbeKind, s.probes[i]);
    var s1 := s.(loop := Unbind(s.loop, probe, w.rearms(id)));
    RemovedEnd(s, i, id, w);
    UnboundIsCore(s, probe, w.rearms(id));
    ForgottenEffect(s1, i, AlsoDropped(s.loop, probe, w.rearms(id)));
    LoopHasNoEffect(s, s1, Drop(ProbeKind, id), Last(s, RemoveProbePath(s, id, w)));
    if Good(w) {
      GoodMeansNoneDropped(s, probe, id, w);
    }
    hide Core, Good, ActEffect, GoodEffect, ForgetPath, Unbind, AlsoDropped, RemoveProbePath, Last, NoneBound;
  }

  lemma LoopHasNoEffect(s: State, s1: State, act: Act, s': State)
    requires s1 == s.(loop := s1.loop)
    ensures ActEffect(s1, act, s') ==> ActEffect(s, act, s')
    ensures GoodEffect(s1, act, s') ==> GoodEffect(s, act, s')
  {
  }

  lemma ForgottenEffect(s: State, i: nat, more: seq<Obj>)
    requires Core(s) && i < |s.probes|
    ensures var s' := Last(s, ForgetPath(s, [Component(ProbeKind, s.probes[i])] + more));
            var act := Drop(ProbeKind, s.probes[i].id);
            ActEffect(s, act, s') && (more == [] ==> GoodEffect(s, act, s'))
  {
    ForgetFirst(s, i, more);
    ForgetEffect(s, [Component(ProbeKind, s.probes[i])] + more);
    CoreFacts(s);
    HandlesDistinct(s.probes, s.handles.probes);
    EraseKeepsOthers(s.probes, i);
    hide Core, Submap, SameServices, ForgetPath, HandlesMatch, LoopKnown, AliveExactly, Last, Erase, Wired, Older,
      Balanced,
      Backed;
  }

  lemma GoodMeansNoneDropped(s: State, probe: Obj, id: string, w: World)
    requires Good(w)
    ensures AlsoDropped(s.loop, probe, w.rearms(id)) == []
  {
    NothingDropped(Others(s.loop, probe), w.rearms(id));
  }

  /** Forgetting takes exactly the slots of the given probes, whatever else is among them. */
  lemma {:induction false} ForgetsExactly(s: State, dead: seq<Obj>)
    requires DistinctSlots(s.probes)
    ensures var s' := Last(s, ForgetPath(s, dead));
            DistinctSlots(s'.probes)
            && forall x :: x in s'.probes <==> x in s.probes && Component(ProbeKind, x) !in dead
    decreases |dead|
  {
    hide ForgetPath, Last, Unloaded, DistinctSlots;
    ForgetHead(s, dead);
    if dead != [] {
      var i, rest := IndexOfDead(s.probes, dead[0]), dead[1..];
      assert forall o :: o in dead <==> o == dead[0] || o in rest;
      if i == |s.probes| {
        NoSlotOf(s.probes, dead[0]);
        ForgetsExactly(s, rest);
      } else {
        var s1 := Forgotten(s, i);
        var s2 := Unloaded(s1, ProbeKind, s.probes[i].id);
        SlotForgotten(s, i);
        ForgetsExactly(s2, rest);
        PathConcat(s, [s1, s2], ForgetPath(s2, rest));
        LastOfTwo(s, s1, s2);
      }
    }
  }

  lemma LastOfTwo(s: State, s1: State, s2: State)
    ensures Last(s, [s1, s2]) == s2
  {
  }

  lemma NoSlotOf(slots: seq<Slot>, o: Obj)
    requires IndexOfDead(slots, o) == |slots|
    ensures forall x :: x in slots ==> Component(ProbeKind, x) != o
  {
  }

  lemma SlotForgotten(s: State, i: nat)
    requires DistinctSlots(s.probes) && i < |s.probes|
    ensures var s2 := Unloaded(Forgotten(s, i), ProbeKind, s.probes[i].id);
            DistinctSlots(s2.probes)
            && forall x :: x in s2.probes <==>
                 x in s.probes && Component(ProbeKind, x) != Component(ProbeKind, s.probes[i])
  {
    EraseKeepsOthers(s.probes, i);
    hide Unload;
  }

  /** After a removal the slots left are exactly those of neither the probe removed nor one its removal knocked out of
      the loop: no probe goes on looking alive. */
  lemma RemovalForgetsExactly(s: State, id: string, w: World)
    requires Core(s) && IndexOfId(s.probes, id) < |s.probes|
    ensures var probe := Component(ProbeKind, s.probes[IndexOfId(s.probes, id)]);
            forall x :: x in Last(s, RemoveProbePath(s, id, w)).probes <==>
              x in s.probes && Component(ProbeKind, x) != probe
              && Component(ProbeKind, x) !in AlsoDropped(s.loop, probe, w.rearms(id))
  {
    hide ForgetPath, Last, Unbind, AlsoDropped, RemoveProbePath;
    var i := IndexOfId(s.probes, id);
    var probe := Component(ProbeKind, s.probes[i]);
    var s1 := s.(loop := Unbind(s.loop, probe, w.rearms(id)));
    CoreFacts(s);
    HandlesDistinct(s.probes, s.handles.probes);
    RemovedEnd(s, i, id, w);
    ForgetsExactly(s1, [probe] + AlsoDropped(s.loop, probe, w.rearms(id)));
  }

  lemma NewSinkEffect(s: State, id: string, plugin: string, w: World)
    ensures var s' := Last(s, AddSinkPath(s, id, plugin, w.opens(SinkKind, id)));
            ActEffect(s, New(SinkKind, id, plugin), s') && (Good(w) ==> GoodEffect(s, New(SinkKind, id, plugin), s'))
  {
    LoadIs(s.handles, SinkKind, id, plugin);
    LoadKeepsDir(s.handles, SinkKind, id, plugin);
    hide Load;
  }

  lemma NewProbeEffect(s: State, id: string, plugin: string, w: World)
    requires id !in s.handles.probes
    ensures var s' := Last(s, AddProbePath(s, id, plugin, w));
            ActEffect(s, New(ProbeKind, id, plugin), s') && (Good(w) ==> GoodEffect(s, New(ProbeKind, id, plugin), s'))
  {
    LoadIs(s.handles, ProbeKind, id, plugin);
    UnloadOfLoad(s.handles, id, plugin);
    LoadKeepsDir(s.handles, ProbeKind, id, plugin);
    hide Load, Unload, Bind;
    if Good(w) {
      assert Last(s, AddProbePath(s, id, plugin, w)).probes == s.probes + [Slot(id, s.gen)];
    }
  }

  /** What is added runs exactly when its plugin gives it, and, for a probe, it starts and its buffer, if it has one,
      can be armed. */
  lemma NewRunsExactly(s: State, kind: Kind, id: string, plugin: string, w: World)
    requires id !in s.handles.Of(kind)
    ensures id in Last(s, ActPath(s, New(kind, id, plugin), w)).handles.Of(kind) <==>
            w.opens(kind, id).Built? && (kind.ProbeKind? ==> w.starts(id) && (w.hasRing(id) ==> w.arms(id)))
  {
    LoadIs(s.handles, kind, id, plugin);
    hide Load, Bind, Wired;
    if kind.ProbeKind? {
      UnloadOfLoad(s.handles, id, plugin);
      hide Unload;
    }
  }

  lemma LoadKeepsDir(h: Handles, kind: Kind, id: string, plugin: string)
    ensures Load(h, kind, id, plugin, Built).dir == h.dir
  {
  }

  lemma ActHasEffect(s: State, act: Act, w: World)
    requires Core(s) && Addable(s, act)
    ensures var s' := Last(s, ActPath(s, act, w));
            ActEffect(s, act, s') && (Good(w) ==> GoodEffect(s, act, s'))
  {
    hide Core, Good, ActEffect, GoodEffect, RemoveSinkPath, RemoveProbePath, AddSinkPath, AddProbePath;
    match act
    case Drop(SinkKind, id) => DropSinkEffect(s, id, w);
    case Drop(ProbeKind, id) => DropProbeEffect(s, id, w);
    case New(SinkKind, id, plugin) => NewSinkEffect(s, id, plugin, w);
    case New(ProbeKind, id, plugin) => NewProbeEffect(s, id, plugin, w);
  }

  // ---------------------------------------------------------------- a whole plan

  function Configured(f: File, kind: Kind): Components {
    if kind.SinkKind? then f.sinks else f.probes
  }

  ghost predicate SameTarget(a: Act, b: Act) {
    a.kind == b.kind && a.id == b.id
  }

  /** Additions name distinct ids, come after any drop of theirs, and are of ids that do not run or are dropped
      first. */
  ghost predicate Ready(s: State, acts: seq<Act>) {
    && (forall j, k :: 0 <= j < k < |acts| && acts[j].New? ==> !SameTarget(acts[j], acts[k]))
    && (forall k :: 0 <= k < |acts| && acts[k].New? && acts[k].id in s.handles.Of(acts[k].kind) ==>
          exists j :: 0 <= j < k && SameTarget(acts[j], acts[k]))
  }

  ghost predicate Targets(acts: seq<Act>, next: File) {
    forall k :: 0 <= k < |acts| && acts[k].New? ==>
        PluginFor(Configured(next, acts[k].kind), acts[k].id) == Some(acts[k].plugin)
  }

  /** The running id is what `next` configures. */
  ghost predicate Fits(s: State, kind: Kind, id: string, next: File)
    requires id in s.handles.Of(kind)
  {
    var plugin := PluginFor(Configured(next, kind), id);
    plugin.Some? && s.handles.Of(kind)[id] == PluginPath(s.handles.dir, kind, plugin.value)
  }

  /** What runs is configured by `next`, with the plugin `next` names, or is still to be dropped. */
  ghost predicate Fit(s: State, acts: seq<Act>, next: File) {
    forall kind, id :: id in s.handles.Of(kind) ==> Fits(s, kind, id, next) || Drop(kind, id) in acts
  }

  ghost predicate ToAdd(acts: seq<Act>, kind: Kind, id: string) {
    exists k :: 0 <= k < |acts| && acts[k].New? && acts[k].kind == kind && acts[k].id == id
  }

  /** The ids running in the end are those to add, and those that ran and are not dropped. */
  ghost predicate Exactly(s: State, acts: seq<Act>, s': State) {
    forall kind, id :: id in s'.handles.Of(kind) <==>
      ToAdd(acts, kind, id) || (id in s.handles.Of(kind) && Drop(kind, id) !in acts)
  }

  lemma OfEither(s: State, act: Act, s': State, kind: Kind)
    requires ActEffect(s, act, s')
    ensures kind != act.kind ==> s'.handles.Of(kind) == s.handles.Of(kind) && s'.Slots(kind) == s.Slots(kind)
    ensures forall id :: id in s'.handles.Of(kind) ==>
              id in s.handles.Of(kind) || (act.New? && act.kind == kind && act.id == id)
  {
  }

  lemma ReadyStep(s: State, acts: seq<Act>, s': State)
    requires acts != [] && Ready(s, acts) && ActEffect(s, acts[0], s')
    ensures Ready(s', acts[1..])
  {
    var rest := acts[1..];
    forall k | 0 <= k < |rest| && rest[k].New? && rest[k].id in s'.handles.Of(rest[k].kind)
      ensures exists j :: 0 <= j < k && SameTarget(rest[j], rest[k])
    {
      OfEither(s, acts[0], s', rest[k].kind);
      assert rest[k] == acts[k + 1];
      assert acts[0].New? ==> !SameTarget(acts[0], acts[k + 1]);
      var j :| 0 <= j < k + 1 && SameTarget(acts[j], acts[k + 1]);
      assert j > 0 && acts[j] == rest[j - 1];
    }
  }

  lemma FitStep(s: State, acts: seq<Act>, s': State, next: File)
    requires acts != [] && Fit(s, acts, next) && Targets(acts, next) && ActEffect(s, acts[0], s')
    ensures Fit(s', acts[1..], next)
  {
    var act := acts[0];
    forall kind, id | id in s'.handles.Of(kind)
      ensures Fits(s', kind, id, next) || Drop(kind, id) in acts[1..]
    {
      OfEither(s, act, s', kind);
      if id in s.handles.Of(kind) && s'.handles.Of(kind)[id] == s.handles.Of(kind)[id] {
        assert Fits(s, kind, id, next) || Drop(kind, id) in acts;
        assert Drop(kind, id) in acts ==> Drop(kind, id) == act || Drop(kind, id) in acts[1..];
      }
    }
  }

  lemma ExactlyStep(s: State, acts: seq<Act>, s': State, end: State)
    requires acts != [] && Ready(s, acts) && ActEffect(s, acts[0], s') && GoodEffect(s, acts[0], s')
    requires Exactly(s', acts[1..], end)
    ensures Exactly(s, acts, end)
  {
    var act, rest := acts[0], acts[1..];
    forall kind, id
      ensures id in end.handles.Of(kind) <==>
              ToAdd(acts, kind, id) || (id in s.handles.Of(kind) && Drop(kind, id) !in acts)
    {
      OfEither(s, act, s', kind);
      ToAddHead(acts, kind, id);
      if act.New? && act.kind == kind && act.id == id {
        NeverAgain(s, acts);
      }
    }
  }

  lemma ToAddHead(acts: seq<Act>, kind: Kind, id: string)
    requires acts != []
    ensures ToAdd(acts, kind, id) <==>
            (acts[0].New? && acts[0].kind == kind && acts[0].id == id) || ToAdd(acts[1..], kind, id)
    ensures Drop(kind, id) in acts <==> acts[0] == Drop(kind, id) || Drop(kind, id) in acts[1..]
  {
    var rest := acts[1..];
    if ToAdd(acts, kind, id) {
      var k :| 0 <= k < |acts| && acts[k].New? && acts[k].kind == kind && acts[k].id == id;
      assert k > 0 ==> rest[k - 1] == acts[k];
    }
    if ToAdd(rest, kind, id) {
      var k :| 0 <= k < |rest| && rest[k].New? && rest[k].kind == kind && rest[k].id == id;
      assert acts[k + 1] == rest[k];
    }
  }

  /** An id just added is not named again. */
  lemma NeverAgain(s: State, acts: seq<Act>)
    requires acts != [] && Ready(s, acts) && acts[0].New?
    ensures Drop(acts[0].kind, acts[0].id) !in acts && !ToAdd(acts[1..], acts[0].kind, acts[0].id)
  {
    forall k | 0 <= k < |acts| - 1
      ensures !SameTarget(acts[0], acts[1..][k])
    {
      assert acts[1..][k] == acts[k + 1];
    }
  }

  lemma ReadyHead(s: State, acts: seq<Act>)
    requires acts != [] && Ready(s, acts)
    ensures Addable(s, acts[0])
  {
  }

  /** Carrying out a plan is safe at every step, and ends with nothing running that `next` does not configure so. */
  lemma {:induction false} ActsKeep(s: State, acts: seq<Act>, w: World, next: File)
    requires Core(s) && Ready(s, acts) && Targets(acts, next) && Fit(s, acts, next)
    ensures var path := ActsPath(s, acts, w);
            && AllSafe(path) && Core(Last(s, path)) && Fit(Last(s, path), [], next) && SameServices(s, Last(s, path))
            && Last(s, path).config == s.config && Last(s, path).handles.dir == s.handles.dir
    decreases |acts|
  {
    if acts != [] {
      var path := ActPath(s, acts[0], w);
      var s' := Last(s, path);
      ReadyHead(s, acts);
      ActKeeps(s, acts[0], w);
      ActHasEffect(s, acts[0], w);
      ReadyStep(s, acts, s');
      FitStep(s, acts, s', next);
      TargetsRest(acts, next);
      hide Core, Safe, Ready, Targets, Fit, Addable, GoodEffect, AllSafe, ActPath;
      ActsKeep(s', acts[1..], w, next);
      PathConcat(s, path, ActsPath(s', acts[1..], w));
    }
  }

  lemma TargetsRest(acts: seq<Act>, next: File)
    requires acts != [] && Targets(acts, next)
    ensures Targets(acts[1..], next)
  {
  }

  /** When nothing fails exactly what the plan says runs in the end, and a component it does not drop keeps its
      object. */
  lemma {:induction false} ActsRunExactly(s: State, acts: seq<Act>, w: World)
    requires Core(s) && Ready(s, acts) && Good(w)
    ensures var s' := Last(s, ActsPath(s, acts, w));
            && Exactly(s, acts, s')
            && forall kind, slot :: slot in s.Slots(kind) && Drop(kind, slot.id) !in acts ==> slot in s'.Slots(kind)
    decreases |acts|
  {
    if acts != [] {
      var path := ActPath(s, acts[0], w);
      var s' := Last(s, path);
      ReadyHead(s, acts);
      ActKeeps(s, acts[0], w);
      ActHasEffect(s, acts[0], w);
      ReadyStep(s, acts, s');
      SlotsStay(s, acts[0], s');
      hide Core, Safe, Ready, Exactly, Addable, ActEffect, GoodEffect, AllSafe, ActPath;
      ActsRunExactly(s', acts[1..], w);
      PathConcat(s, path, ActsPath(s', acts[1..], w));
      ExactlyStep(s, acts, s', Last(s', ActsPath(s', acts[1..], w)));
      assert forall kind, id :: Drop(kind, id) !in acts ==> acts[0] != Drop(kind, id) && Drop(kind, id) !in acts[1..];
    }
  }

  lemma SlotsStay(s: State, act: Act, s': State)
    requires ActEffect(s, act, s') && GoodEffect(s, act, s')
    ensures forall kind, slot :: slot in s.Slots(kind) && act != Drop(kind, slot.id) ==> slot in s'.Slots(kind)
  {
    forall kind, slot | slot in s.Slots(kind) && act != Drop(kind, slot.id)
      ensures slot in s'.Slots(kind)
    {
      OfEither(s, act, s', kind);
    }
  }

  // ---------------------------------------------------------------- the plan of a reload

  ghost predicate DistinctStrings(ids: seq<string>) {
    forall i, j :: 0 <= i < j < |ids| ==> ids[i] != ids[j]
  }

  lemma MissingAreDistinct(cs: Components, other: Components)
    requires DistinctIds(cs)
    ensures DistinctStrings(Missing(cs, other))
  {
    MissingDistinct(cs, other);
  }

  function PlanOf(kind: Kind, current: Components, next: Components): seq<Act> {
    Drops(kind, Missing(current, next)) + News(kind, Missing(next, current), next)
  }

  /** The part of the plan for one kind: what it drops, what it adds, and in which order. */
  lemma PlanOfIs(kind: Kind, current: Components, next: Components)
    requires DistinctIds(current) && DistinctIds(next)
    ensures var acts := PlanOf(kind, current, next);
            && (forall k :: 0 <= k < |acts| ==> acts[k].kind == kind)
            && (forall j, k :: 0 <= j < k < |acts| && acts[j].New? ==> !SameTarget(acts[j], acts[k]))
            && (forall k :: 0 <= k < |acts| && acts[k].New? ==> PluginFor(next, acts[k].id) == Some(acts[k].plugin))
            && (forall k :: 0 <= k < |acts| && acts[k].New? && PluginFor(current, acts[k].id).Some? ==>
                  exists j :: 0 <= j < k && SameTarget(acts[j], acts[k]))
  {
    var removed, added := Missing(current, next), Missing(next, current);
    var acts := PlanOf(kind, current, next);
    MissingAreDistinct(next, current);
    forall k | 0 <= k < |acts| && acts[k].New?
      ensures k >= |removed| && acts[k].id == added[k - |removed|]
      ensures PluginFor(next, acts[k].id) == Some(acts[k].plugin)
      ensures PluginFor(current, acts[k].id).Some? ==> exists j :: 0 <= j < k && SameTarget(acts[j], acts[k])
    {
      var id := acts[k].id;
      assert added[k - |removed|] == id && id in added;
      DiffReachesTarget(current, next, id);
      MissingExactly(next, current, id);
      if PluginFor(current, id).Some? {
        var j :| 0 <= j < |removed| && removed[j] == id;
        assert acts[j] == Drop(kind, id);
      }
    }
  }

  /** The ids the plan drops and adds are exactly the diff's. */
  lemma PlanNames(kind: Kind, current: Components, next: Components, id: string)
    requires DistinctIds(current) && DistinctIds(next)
    ensures Drop(kind, id) in PlanOf(kind, current, next) <==>
            PluginFor(current, id).Some? && PluginFor(next, id) != PluginFor(current, id)
    ensures ToAdd(PlanOf(kind, current, next), kind, id) <==>
            PluginFor(next, id).Some? && PluginFor(next, id) != PluginFor(current, id)
  {
    hide Missing, PluginFor, PluginAt;
    MissingExactly(current, next, id);
    MissingExactly(next, current, id);
    DropsName(kind, Missing(current, next), Missing(next, current), next, id);
  }

  lemma DropsName(kind: Kind, removed: seq<string>, added: seq<string>, next: Components, id: string)
    ensures Drop(kind, id) in Drops(kind, removed) + News(kind, added, next) <==> id in removed
    ensures ToAdd(Drops(kind, removed) + News(kind, added, next), kind, id) <==> id in added
  {
    hide PluginFor, PluginAt;
    var acts := Drops(kind, removed) + News(kind, added, next);
    if id in removed {
      var j :| 0 <= j < |removed| && removed[j] == id;
      assert acts[j] == Drop(kind, id);
    }
    if id in added {
      var j :| 0 <= j < |added| && added[j] == id;
      assert acts[|removed| + j].New? && acts[|removed| + j].id == id;
    }
  }

  function WholePlan(current: File, next: File): seq<Act> {
    PlanOf(SinkKind, current.sinks, next.sinks) + PlanOf(ProbeKind, current.probes, next.probes)
  }

  lemma PlanIsWhole(current: File, next: File)
    requires DiffForReload(current, next).Some?
    ensures Plan(DiffForReload(current, next).value, next) == WholePlan(current, next)
  {
  }

  /** A reload is done with the sinks before it touches the probes, and drops before it adds. */
  lemma PlanOrder(current: File, next: File, j: nat, k: nat)
    requires DiffForReload(current, next).Some? && j < k < |Plan(DiffForReload(current, next).value, next)|
    ensures var acts := Plan(DiffForReload(current, next).value, next);
            && (acts[j].kind.ProbeKind? ==> acts[k].kind.ProbeKind?)
            && (acts[j].kind == acts[k].kind && acts[j].New? ==> acts[k].New?)
  {
    hide Missing, PluginAt;
  }

  /** What the whole plan drops and adds, for either kind. */
  lemma WholePlanNames(current: File, next: File, kind: Kind, id: string)
    requires WellFormed(current) && WellFormed(next)
    ensures Drop(kind, id) in WholePlan(current, next) <==>
            PluginFor(Configured(current, kind), id).Some?
            && PluginFor(Configured(next, kind), id) != PluginFor(Configured(current, kind), id)
    ensures ToAdd(WholePlan(current, next), kind, id) <==>
            PluginFor(Configured(next, kind), id).Some?
            && PluginFor(Configured(next, kind), id) != PluginFor(Configured(current, kind), id)
  {
    var a, b := PlanOf(SinkKind, current.sinks, next.sinks), PlanOf(ProbeKind, current.probes, next.probes);
    PlanOfIs(SinkKind, current.sinks, next.sinks);
    PlanOfIs(ProbeKind, current.probes, next.probes);
    PlanNames(SinkKind, current.sinks, next.sinks, id);
    PlanNames(ProbeKind, current.probes, next.probes, id);
    ToAddConcat(a, b, kind, id);
  }

  lemma ToAddConcat(a: seq<Act>, b: seq<Act>, kind: Kind, id: string)
    requires forall k :: 0 <= k < |a| ==> a[k].kind == SinkKind
    requires forall k :: 0 <= k < |b| ==> b[k].kind == ProbeKind
    ensures ToAdd(a + b, kind, id) <==> ToAdd(if kind.SinkKind? then a else b, kind, id)
    ensures Drop(kind, id) in a + b <==> Drop(kind, id) in if kind.SinkKind? then a else b
  {
    var c := a + b;
    if ToAdd(a, kind, id) {
      var k :| 0 <= k < |a| && a[k].New? && a[k].kind == kind && a[k].id == id;
      assert c[k] == a[k];
    }
    if ToAdd(b, kind, id) {
      var k :| 0 <= k < |b| && b[k].New? && b[k].kind == kind && b[k].id == id;
      assert c[|a| + k] == b[k];
    }
    if ToAdd(c, kind, id) {
      var k :| 0 <= k < |c| && c[k].New? && c[k].kind == kind && c[k].id == id;
      assert c[k] == if k < |a| then a[k] else b[k - |a|];
    }
  }

  // ---------------------------------------------------------------- the reload invariant

  /** Between reloads: the lists, the handle maps, the open counts, the loop, the pipeline and the living objects agree,
      and what runs is configured with the plugin it was built from. */
  ghost predicate Inv(s: State) {
    && Core(s) && WellFormed(s.config) && Fit(s, [], s.config) && s.handles.dir == s.config.pluginDir
    && WatcherObj in s.alive && PipelineObj in s.alive
  }

  lemma WholePlanIsReady(s: State, next: File)
    requires Inv(s) && WellFormed(next)
    ensures Ready(s, WholePlan(s.config, next)) && Targets(WholePlan(s.config, next), next)
    ensures Fit(s, WholePlan(s.config, next), next)
  {
    var a, b := PlanOf(SinkKind, s.config.sinks, next.sinks), PlanOf(ProbeKind, s.config.probes, next.probes);
    PlanOfIs(SinkKind, s.config.sinks, next.sinks);
    PlanOfIs(ProbeKind, s.config.probes, next.probes);
    RunningAreNamed(s, next);
    hide Core, Fits, Fit, PlanOf, SameTarget, Inv;
    PartIsReady(s, SinkKind, a);
    PartIsReady(s, ProbeKind, b);
    PartsAreReady(s, a, b);
    PartsTarget(a, b, next);
    hide Ready, Targets;
  }

  /** What a part of a plan says of itself, applied to the ids that run. */
  lemma PartIsReady(s: State, kind: Kind, acts: seq<Act>)
    requires forall k :: 0 <= k < |acts| ==> acts[k].kind == kind
    requires forall j, k :: 0 <= j < k < |acts| && acts[j].New? ==> !SameTarget(acts[j], acts[k])
    requires forall k :: 0 <= k < |acts| && acts[k].New? && PluginFor(Configured(s.config, kind), acts[k].id).Some? ==>
               exists j :: 0 <= j < k && SameTarget(acts[j], acts[k])
    requires forall id :: id in s.handles.Of(kind) ==> PluginFor(Configured(s.config, kind), id).Some?
    ensures Ready(s, acts)
  {
    hide SameTarget, PluginFor, Configured;
  }

  lemma PartsAreReady(s: State, a: seq<Act>, b: seq<Act>)
    requires Ready(s, a) && Ready(s, b)
    requires forall k :: 0 <= k < |a| ==> a[k].kind == SinkKind
    requires forall k :: 0 <= k < |b| ==> b[k].kind == ProbeKind
    ensures Ready(s, a + b)
  {
    var acts := a + b;
    forall k | 0 <= k < |acts| && acts[k].New? && acts[k].id in s.handles.Of(acts[k].kind)
      ensures exists j :: 0 <= j < k && SameTarget(acts[j], acts[k])
    {
      if k < |a| {
        var j :| 0 <= j < k && SameTarget(a[j], a[k]);
        assert acts[j] == a[j];
      } else {
        var j :| 0 <= j < k - |a| && SameTarget(b[j], b[k - |a|]);
        assert acts[|a| + j] == b[j];
      }
    }
  }

  lemma PartsTarget(a: seq<Act>, b: seq<Act>, next: File)
    requires forall k :: 0 <= k < |a| ==> a[k].kind == SinkKind
    requires forall k :: 0 <= k < |b| ==> b[k].kind == ProbeKind
    requires forall k :: 0 <= k < |a| && a[k].New? ==> PluginFor(next.sinks, a[k].id) == Some(a[k].plugin)
    requires forall k :: 0 <= k < |b| && b[k].New? ==> PluginFor(next.probes, b[k].id) == Some(b[k].plugin)
    ensures Targets(a + b, next)
  {
    var acts := a + b;
    forall k | 0 <= k < |acts| && acts[k].New?
      ensures PluginFor(Configured(next, acts[k].kind), acts[k].id) == Some(acts[k].plugin)
    {
      assert acts[k] == if k < |a| then a[k] else b[k - |a|];
    }
    hide PluginFor;
  }

  lemma RunningAreNamed(s: State, next: File)
    requires Inv(s) && WellFormed(next)
    ensures forall kind, id :: id in s.handles.Of(kind) ==> PluginFor(Configured(s.config, kind), id).Some?
    ensures Fit(s, WholePlan(s.config, next), next)
  {
    forall kind, id | id in s.handles.Of(kind)
      ensures PluginFor(Configured(s.config, kind), id).Some?
      ensures Fits(s, kind, id, next) || Drop(kind, id) in WholePlan(s.config, next)
    {
      assert Fits(s, kind, id, s.config) || Drop(kind, id) in [];
      WholePlanNames(s.config, next, kind, id);
    }
    hide Core, WholePlan;
  }

  /** One reload, whatever fails in it: safe at every step, and the invariant holds again at the end. */
  lemma ReloadKeepsInv(s: State, next: File, w: World)
    requires Inv(s) && WellFormed(next)
    ensures AllSafe(ReloadPath(s, next, w)) && Inv(DaemonSteps.Reload(s, next, w))
  {
    if DiffForReload(s.config, next).Some? {
      PlanIsWhole(s.config, next);
      WholePlanIsReady(s, next);
      var acts := WholePlan(s.config, next);
      ActsKeep(s, acts, w, next);
      var path := ActsPath(s, acts, w);
      var done := Last(s, path);
      Adopted(done, next);
      hide Core, Safe, Fit;
      var end := done.(config := done.config.(sinks := next.sinks, probes := next.probes));
      CoreIsSafe(end);
      PathConcat(s, path, [end]);
      assert ReloadPath(s, next, w) == path + [end];
    }
  }

  lemma Adopted(done: State, next: File)
    requires Core(done) && Fit(done, [], next) && WellFormed(next) && done.handles.dir == done.config.pluginDir
    requires WatcherObj in done.alive && PipelineObj in done.alive
    ensures Inv(done.(config := done.config.(sinks := next.sinks, probes := next.probes)))
  {
    var end := done.(config := done.config.(sinks := next.sinks, probes := next.probes));
    forall kind, id | id in end.handles.Of(kind)
      ensures Fits(end, kind, id, end.config)
    {
      assert Fits(done, kind, id, next) || Drop(kind, id) in [];
    }
  }

  function Reloads(s: State, files: seq<(File, World)>): State
    decreases |files|
  {
    if files == [] then s else Reloads(DaemonSteps.Reload(s, files[0].0, files[0].1), files[1..])
  }

  /** Every state the reloads go through. */
  function ReloadsPath(s: State, files: seq<(File, World)>): seq<State>
    decreases |files|
  {
    if files == [] then []
    else
      ReloadPath(s, files[0].0, files[0].1) + ReloadsPath(DaemonSteps.Reload(s, files[0].0, files[0].1), files[1..])
  }

  /** Over any sequence of reloads with any failures: safe at every step of every one, and the invariant holds. */
  lemma {:induction false} ReloadsKeepInv(s: State, files: seq<(File, World)>)
    requires Inv(s) && forall i :: 0 <= i < |files| ==> WellFormed(files[i].0)
    ensures AllSafe(ReloadsPath(s, files)) && Last(s, ReloadsPath(s, files)) == Reloads(s, files)
    ensures Inv(Reloads(s, files))
    decreases |files|
  {
    if files != [] {
      var next, w := files[0].0, files[0].1;
      var s' := DaemonSteps.Reload(s, next, w);
      ReloadKeepsInv(s, next, w);
      ReloadsKeepInv(s', files[1..]);
      PathConcat(s, ReloadPath(s, next, w), ReloadsPath(s', files[1..]));
    }
    hide Inv, Safe, ReloadPath;
  }

  /** The invariant in the terms of an operator: what runs is configured, was built from the plugin now named, each
      plugin file is open once per instance of it, and the pipeline feeds exactly the daemon's sinks in order. */
  lemma InvMeans(s: State, kind: Kind, slot: Slot, path: string)
    requires Inv(s)
    ensures slot in s.Slots(kind) ==>
              var plugin := PluginFor(Configured(s.config, kind), slot.id);
              && plugin.Some? && slot.id in s.handles.Of(kind)
              && s.handles.Of(kind)[slot.id] == PluginPath(s.config.pluginDir, kind, plugin.value)
              && Component(kind, slot) in s.alive
    ensures forall id :: id in s.handles.Of(kind) <==> exists g :: Slot(id, g) in s.Slots(kind)
    ensures s.handles.open[path] == |Holders(s.handles.probes, path)| + |Holders(s.handles.sinks, path)|
    ensures |s.wired| == |s.sinks|
        && forall i :: 0 <= i < |s.sinks| ==> s.wired[i] == SinkObj(s.sinks[i].id, s.sinks[i].gen)
  {
    CoreFacts(s);
    var slots, handles := s.Slots(kind), s.handles.Of(kind);
    assert HandlesMatch(slots, handles);
    HandlesMean(slots, handles);
    if slot in slots {
      RunningFits(s, kind, slot);
    }
    hide Core, Fit, HandlesMatch, LoopKnown, Backed, Older, AliveExactly;
  }

  lemma RunningFits(s: State, kind: Kind, slot: Slot)
    requires Core(s) && Fit(s, [], s.config) && slot in s.Slots(kind)
    ensures slot.id in s.handles.Of(kind) && Component(kind, slot) in s.alive && Fits(s, kind, slot.id, s.config)
  {
    CoreFacts(s);
    assert HandlesMatch(s.Slots(kind), s.handles.Of(kind));
    assert Slot(slot.id, slot.gen) == slot;
    assert Fits(s, kind, slot.id, s.config) || Drop(kind, slot.id) in [];
    hide Core, Fits, LoopKnown, Backed, Older, Balanced;
  }

  lemma HandlesMean(slots: seq<Slot>, handles: map<string, string>)
    requires HandlesMatch(slots, handles)
    ensures forall id :: id in handles <==> exists g :: Slot(id, g) in slots
  {
    forall id | id in handles
      ensures exists g :: Slot(id, g) in slots
    {
      var i :| 0 <= i < |slots| && slots[i].id == id;
      assert Slot(id, slots[i].gen) == slots[i];
    }
  }

  // ---------------------------------------------------------------- reaching the target

  /** Every configured id runs. */
  ghost predicate AllRun(s: State) {
    forall kind, id :: PluginFor(Configured(s.config, kind), id).Some? ==> id in s.handles.Of(kind)
  }

  predicate SamePlugin(current: File, next: File, kind: Kind, id: string) {
    PluginFor(Configured(next, kind), id) == PluginFor(Configured(current, kind), id)
  }

  /** When nothing fails, what runs afterwards is exactly what `next` configures with another plugin than before, and
      what it configures with the same plugin and ran already. */
  lemma ReloadRunsExactly(s: State, next: File, w: World, kind: Kind, id: string)
    requires Inv(s) && WellFormed(next) && Good(w) && DiffForReload(s.config, next).Some?
    ensures id in DaemonSteps.Reload(s, next, w).handles.Of(kind) <==>
            PluginFor(Configured(next, kind), id).Some?
            && (!SamePlugin(s.config, next, kind, id) || id in s.handles.Of(kind))
  {
    WholePlanIsReady(s, next);
    WholePlanNames(s.config, next, kind, id);
    ReloadIsActs(s, next, w);
    ActsRunExactly(s, WholePlan(s.config, next), w);
    assert id in s.handles.Of(kind) ==> Fits(s, kind, id, s.config) || Drop(kind, id) in [];
    hide Core, Ready, Good, WholePlan, DaemonSteps.Reload, ReloadPath, ActsPath, ToAdd, AllSafe;
  }

  /** So if every configured id was running, exactly what `next` configures runs. */
  lemma ReloadReaches(s: State, next: File, w: World)
    requires Inv(s) && WellFormed(next) && AllRun(s) && Good(w) && DiffForReload(s.config, next).Some?
    ensures var s' := DaemonSteps.Reload(s, next, w);
            s'.config == next && AllRun(s') && Inv(s')
  {
    ReloadKeepsInv(s, next, w);
    ReloadIsActs(s, next, w);
    hide Inv, Good, WholePlan, DaemonSteps.Reload, ReloadPath, ActsPath;
    var s' := DaemonSteps.Reload(s, next, w);
    forall kind, id | PluginFor(Configured(next, kind), id).Some?
      ensures id in s'.handles.Of(kind)
    {
      ReloadRunsExactly(s, next, w, kind, id);
    }
  }

  /** And an id that ran and is configured the same before and after keeps its object. */
  lemma ReloadKeepsObjects(s: State, next: File, w: World, kind: Kind, slot: Slot)
    requires Inv(s) && WellFormed(next) && Good(w) && DiffForReload(s.config, next).Some?
    requires slot in s.Slots(kind) && SamePlugin(s.config, next, kind, slot.id)
    ensures slot in DaemonSteps.Reload(s, next, w).Slots(kind)
  {
    var acts := WholePlan(s.config, next);
    WholePlanIsReady(s, next);
    WholePlanNames(s.config, next, kind, slot.id);
    ReloadIsActs(s, next, w);
    ActsRunExactly(s, acts, w);
    hide Core, Ready, Fit, Good, Exactly, WholePlan, SamePlugin, DaemonSteps.Reload, ReloadPath, ActsPath;
    assert Drop(kind, slot.id) !in acts;
    assert slot in Last(s, ActsPath(s, acts, w)).Slots(kind);
  }

  lemma ReloadIsActs(s: State, next: File, w: World)
    requires Inv(s) && WellFormed(next) && DiffForReload(s.config, next).Some?
    ensures DaemonSteps.Reload(s, next, w) == Last(s, ActsPath(s, WholePlan(s.config, next), w)).(config := next)
  {
    var acts := WholePlan(s.config, next);
    PlanIsWhole(s.config, next);
    WholePlanIsReady(s, next);
    AcceptedExactly(s.config, next);
    hide Core, Ready, Fit, WholePlan, Plan, ActsPath;
    ActsKeep(s, acts, w, next);
  }

  /** Running and configured coincide when everything runs. */
  lemma AllRunMeans(s: State, kind: Kind, id: string)
    requires Inv(s) && AllRun(s)
    ensures id in s.handles.Of(kind) <==> PluginFor(Configured(s.config, kind), id).Some?
  {
    assert id in s.handles.Of(kind) ==> Fits(s, kind, id, s.config) || Drop(kind, id) in [];
  }

  /** A rejected reload changes nothing, and rejection is exactly a change outside the components. */
  lemma RejectedChangesNothing(s: State, next: File, w: World)
    ensures next != s.config.(probes := next.probes, sinks := next.sinks) ==> ReloadPath(s, next, w) == []
    ensures next != s.config.(probes := next.probes, sinks := next.sinks) ==> DaemonSteps.Reload(s, next, w) == s
  {
    AcceptedExactly(s.config, next);
  }

  /** A reload that assigns every id the same plugin does nothing but take over the file: in particular a configured id
      that failed to load is not tried again, and changed settings are not picked up. */
  lemma SamePluginsDoNothing(s: State, next: File, w: World)
    requires WellFormed(s.config) && WellFormed(next) && DiffForReload(s.config, next).Some?
    requires forall kind, id :: PluginFor(Configured(next, kind), id) == PluginFor(Configured(s.config, kind), id)
    ensures DaemonSteps.Reload(s, next, w) == s.(config := next)
  {
    PlanIsWhole(s.config, next);
    AcceptedExactly(s.config, next);
    NothingMissing(s.config.sinks, next.sinks, SinkKind, s.config, next);
    NothingMissing(s.config.probes, next.probes, ProbeKind, s.config, next);
    assert WholePlan(s.config, next) == [];
    assert ActsPath(s, [], w) == [];
  }

  lemma NothingMissing(current: Components, next: Components, kind: Kind, a: File, b: File)
    requires DistinctIds(current) && DistinctIds(next)
    requires current == Configured(a, kind) && next == Configured(b, kind)
    requires forall id :: PluginFor(Configured(b, kind), id) == PluginFor(Configured(a, kind), id)
    ensures Missing(current, next) == [] && Missing(next, current) == []
  {
    var removed, added := Missing(current, next), Missing(next, current);
    if removed != [] {
      MissingExactly(current, next, removed[0]);
    }
    if added != [] {
      MissingExactly(next, current, added[0]);
    }
  }
}

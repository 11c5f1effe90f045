/** The running set of probes and sinks and its live reload (src/core/daemon.cpp), one state per step that a failure or
    a dangling reference could show in. */
module DaemonSteps {
  import opened EventLoop
  import opened Config
  import opened Loader

  /** Everything the daemon constructs and destroys; `gen` tells successive objects under one id apart. */
  datatype Obj =
    | SinkObj(id: string, gen: nat)
    | ProbeObj(id: string, gen: nat)
    | EmitterObj(id: string, gen: nat)
    | WatcherObj
    | PipelineObj

  /** An entry of sinks_ or probes_: the instance id and which object it owns. */
  datatype Slot = Slot(id: string, gen: nat)

  datatype State = State(
    config: File,
    sinks: seq<Slot>,
    probes: seq<Slot>,
    handles: Handles,
    loop: Loop<Obj>,
    wired: seq<Obj>,      // the pipeline's sink pointers
    alive: set<Obj>,      // objects constructed and not yet destroyed
    gen: nat
  ) {
    function Slots(kind: Kind): seq<Slot> {
      if kind.SinkKind? then sinks else probes
    }
  }

  function Component(kind: Kind, slot: Slot): Obj {
    if kind.SinkKind? then SinkObj(slot.id, slot.gen) else ProbeObj(slot.id, slot.gen)
  }

  function SinkPointers(slots: seq<Slot>): seq<Obj> {
    seq(|slots|, i requires 0 <= i < |slots| => SinkObj(slots[i].id, slots[i].gen))
  }

  /** What wire_sinks makes of the pipeline's list: nothing while there is no pipeline. */
  function Wired(alive: set<Obj>, sinks: seq<Slot>): seq<Obj> {
    if PipelineObj in alive then SinkPointers(sinks) else []
  }

  function BindingOf(slot: Slot): Binding<Obj> {
    Binding(ProbeObj(slot.id, slot.gen), EmitterObj(slot.id, slot.gen))
  }

  function IndexOfId(slots: seq<Slot>, id: string): (i: nat)
    ensures i <= |slots| && (i < |slots| ==> slots[i].id == id)
    ensures forall k :: 0 <= k < i ==> slots[k].id != id
  {
    if slots == [] || slots[0].id == id then 0 else 1 + IndexOfId(slots[1..], id)
  }

  function Erase(slots: seq<Slot>, i: nat): seq<Slot>
    requires i < |slots|
  {
    slots[..i] + slots[i + 1..]
  }

  // ---------------------------------------------------------------- the steps, state by state

  /** What goes wrong outside: opening a plugin, starting a probe, arming its buffer, re-arming on a removal. */
  datatype World = World(
    opens: (Kind, string) -> Opened,
    starts: string -> bool,
    hasRing: string -> bool,
    arms: string -> bool,
    rearms: string -> nat -> bool)

  function LoadedAs(s: State, kind: Kind, id: string, plugin: string): State {
    s.(handles := Load(s.handles, kind, id, plugin, Built),
       alive := s.alive + {Component(kind, Slot(id, s.gen))},
       gen := s.gen + 1)
  }

  function Unloaded(s: State, kind: Kind, id: string): State {
    s.(handles := Unload(s.handles, kind, id))
  }

  function AddSinkPath(s: State, id: string, plugin: string, how: Opened): seq<State> {
    if !how.Built? then []
    else
      var s1 := LoadedAs(s, SinkKind, id, plugin);
      var s2 := s1.(sinks := s1.sinks + [Slot(id, s.gen)]);
      var s3 := s2.(wired := Wired(s2.alive, s2.sinks));
      [s1, s2, s3]
  }

  /** Unwired before it is flushed and destroyed, destroyed before its plugin is released. */
  function RemoveSinkPath(s: State, id: string): seq<State> {
    var i := IndexOfId(s.sinks, id);
    if i == |s.sinks| then []
    else
      var s1 := s.(sinks := Erase(s.sinks, i));
      var s2 := s1.(wired := Wired(s1.alive, s1.sinks));
      var s3 := s2.(alive := s2.alive - {Component(SinkKind, s.sinks[i])});
      [s1, s2, s3, Unloaded(s3, SinkKind, id)]
  }

  function AddProbePath(s: State, id: string, plugin: string, w: World): seq<State> {
    if !w.opens(ProbeKind, id).Built? then []
    else
      var slot := Slot(id, s.gen);
      var probe, emitter := Component(ProbeKind, slot), EmitterObj(id, s.gen);
      var s1 := LoadedAs(s, ProbeKind, id, plugin);
      if !w.starts(id) then
        var s2 := s1.(alive := s1.alive - {probe});
        [s1, s2, Unloaded(s2, ProbeKind, id)]
      else
        var s2 := s1.(alive := s1.alive + {emitter});
        [s1, s2] + BindPath(s2, slot, w)
  }

  /** Arming a started probe: bound and listed, or given back with its emitter destroyed last. */
  function BindPath(s2: State, slot: Slot, w: World): seq<State> {
    if w.hasRing(slot.id) && !w.arms(slot.id) then
      var s3 := s2.(alive := s2.alive - {Component(ProbeKind, slot)});
      var s4 := Unloaded(s3, ProbeKind, slot.id);
      [s3, s4, s4.(alive := s4.alive - {EmitterObj(slot.id, slot.gen)})]
    else
      var s3 := s2.(loop := Bind(s2.loop, BindingOf(slot), w.hasRing(slot.id), w.arms(slot.id)));
      [s3, s3.(probes := s3.probes + [slot])]
  }

  /** The slot that owns a probe object, or the length. */
  function IndexOfDead(slots: seq<Slot>, dead: Obj): (i: nat)
    ensures i <= |slots| && (i < |slots| ==> Component(ProbeKind, slots[i]) == dead)
    ensures forall k :: 0 <= k < i ==> Component(ProbeKind, slots[k]) != dead
  {
    if slots == [] || Component(ProbeKind, slots[0]) == dead then 0 else 1 + IndexOfDead(slots[1..], dead)
  }

  /** Destroys the slot of one probe, emitter and all. */
  function Forgotten(s: State, i: nat): State
    requires i < |s.probes|
  {
    s.(probes := Erase(s.probes, i),
       alive := s.alive - {Component(ProbeKind, s.probes[i]), EmitterObj(s.probes[i].id, s.probes[i].gen)})
  }

  /** Detach, destroy, unload, for each of the given probes that has a slot; the watcher has none. */
  function ForgetPath(s: State, dead: seq<Obj>): seq<State>
    decreases |dead|
  {
    if dead == [] then []
    else
      var i := IndexOfDead(s.probes, dead[0]);
      if i == |s.probes| then ForgetPath(s, dead[1..])
      else
        var s1 := Forgotten(s, i);
        var s2 := Unloaded(s1, ProbeKind, s.probes[i].id);
        [s1, s2] + ForgetPath(s2, dead[1..])
  }

  /** The probe itself first, then those its removal knocked out of the loop. */
  function RemoveProbePath(s: State, id: string, w: World): seq<State> {
    var i := IndexOfId(s.probes, id);
    if i == |s.probes| then []
    else
      var probe := Component(ProbeKind, s.probes[i]);
      var s1 := s.(loop := Unbind(s.loop, probe, w.rearms(id)));
      [s1] + ForgetPath(s1, [probe] + AlsoDropped(s.loop, probe, w.rearms(id)))
  }

  function Last(s: State, path: seq<State>): State {
    if path == [] then s else path[|path| - 1]
  }

  datatype Act = Drop(kind: Kind, id: string) | New(kind: Kind, id: string, plugin: string)

  function ActPath(s: State, act: Act, w: World): seq<State> {
    match act
    case Drop(SinkKind, id) => RemoveSinkPath(s, id)
    case Drop(ProbeKind, id) => RemoveProbePath(s, id, w)
    case New(SinkKind, id, plugin) => AddSinkPath(s, id, plugin, w.opens(SinkKind, id))
    case New(ProbeKind, id, plugin) => AddProbePath(s, id, plugin, w)
  }

  function ActsPath(s: State, acts: seq<Act>, w: World): seq<State>
    decreases |acts|
  {
    if acts == [] then []
    else
      var path := ActPath(s, acts[0], w);
      path + ActsPath(Last(s, path), acts[1..], w)
  }

  function Drops(kind: Kind, ids: seq<string>): seq<Act> {
    seq(|ids|, i requires 0 <= i < |ids| => Drop(kind, ids[i]))
  }

  function PluginAt(cs: Components, id: string): string {
    match PluginFor(cs, id)
    case None => id
    case Some(plugin) => plugin
  }

  function News(kind: Kind, ids: seq<string>, cs: Components): seq<Act> {
    seq(|ids|, i requires 0 <= i < |ids| => New(kind, ids[i], PluginAt(cs, ids[i])))
  }

  function Plan(diff: Diff, next: File): seq<Act> {
    Drops(SinkKind, diff.removedSinks) + News(SinkKind, diff.addedSinks, next.sinks)
    + Drops(ProbeKind, diff.removedProbes) + News(ProbeKind, diff.addedProbes, next.probes)
  }

  /** A reload with a readable file: nothing at all when it cannot be applied live. */
  function ReloadPath(s: State, next: File, w: World): seq<State> {
    match DiffForReload(s.config, next)
    case None => []
    case Some(diff) =>
      var path := ActsPath(s, Plan(diff, next), w);
      var done := Last(s, path);
      path + [done.(config := done.config.(sinks := next.sinks, probes := next.probes))]
  }

  function Reload(s: State, next: File, w: World): State {
    Last(s, ReloadPath(s, next, w))
  }

  // ---------------------------------------------------------------- safety of every step

  /** No binding and no sink pointer refers to a destroyed object. */
  ghost predicate RefsAlive(loop: Loop<Obj>, wired: seq<Obj>, alive: set<Obj>) {
    && (forall i :: 0 <= i < |loop.bindings| ==> loop.bindings[i].probe in alive && loop.bindings[i].out in alive)
    && (forall i :: 0 <= i < |wired| ==> wired[i] in alive)
  }

  predicate Is(o: Obj, kind: Kind) {
    if kind.SinkKind? then o.SinkObj? else o.ProbeObj?
  }

  function IdOf(o: Obj): string
    requires Is(o, SinkKind) || Is(o, ProbeKind)
  {
    o.id
  }

  /** Every living component still holds its own plugin reference: its id has a handle, which it shares with no
      other. */
  ghost predicate Held(alive: set<Obj>, kind: Kind, handles: map<string, string>) {
    && (forall o :: o in alive && Is(o, kind) ==> IdOf(o) in handles)
    && (forall o, o' :: o in alive && o' in alive && Is(o, kind) && Is(o', kind) && IdOf(o) == IdOf(o') ==> o == o')
  }

  ghost predicate Safe(s: State) {
    && Agree(s.loop)
    && RefsAlive(s.loop, s.wired, s.alive)
    && Held(s.alive, SinkKind, s.handles.sinks)
    && Held(s.alive, ProbeKind, s.handles.probes)
    && Balanced(s.handles)
  }

  ghost predicate DistinctSlots(slots: seq<Slot>) {
    forall i, j :: 0 <= i < j < |slots| ==> slots[i].id != slots[j].id
  }

  /** The handle map of a kind has exactly the running ids. */
  ghost predicate HandlesMatch(slots: seq<Slot>, handles: map<string, string>) {
    && DistinctSlots(slots)
    && (forall i :: 0 <= i < |slots| ==> slots[i].id in handles)
    && (forall id :: id in handles ==> exists i :: 0 <= i < |slots| && slots[i].id == id)
  }

  /** The two objects that are not components: each is constructed once, while starting. */
  predicate Service(o: Obj) {
    o.WatcherObj? || o.PipelineObj?
  }

  ghost predicate AliveExactly(alive: set<Obj>, sinks: seq<Slot>, probes: seq<Slot>) {
    forall o :: !Service(o) ==> (o in alive <==>
      match o
      case SinkObj(id, gen) => Slot(id, gen) in sinks
      case ProbeObj(id, gen) => Slot(id, gen) in probes
      case EmitterObj(id, gen) => Slot(id, gen) in probes
      case _ => true)
  }

  /** The watcher is bound only while it and the pipeline live. */
  ghost predicate Backed(loop: Loop<Obj>, alive: set<Obj>) {
    !NotBound(loop, WatcherObj) ==> WatcherObj in alive && PipelineObj in alive
  }

  ghost predicate NotBound(loop: Loop<Obj>, o: Obj) {
    forall i :: 0 <= i < |loop.bindings| ==> loop.bindings[i].probe != o
  }

  /** A binding is the watcher's, feeding the pipeline, or a running probe's, feeding its own emitter. */
  ghost predicate Known(b: Binding<Obj>, probes: seq<Slot>) {
    || b == Binding(WatcherObj, PipelineObj)
    || (b.probe.ProbeObj? && Slot(b.probe.id, b.probe.gen) in probes && b == BindingOf(Slot(b.probe.id, b.probe.gen)))
  }

  ghost predicate DistinctProbes(bs: seq<Binding<Obj>>) {
    forall i, j :: 0 <= i < j < |bs| ==> bs[i].probe != bs[j].probe
  }

  ghost predicate LoopKnown(loop: Loop<Obj>, probes: seq<Slot>) {
    && Agree(loop) && DistinctProbes(loop.bindings)
    && forall i :: 0 <= i < |loop.bindings| ==> Known(loop.bindings[i], probes)
  }

  /** What holds between any two acts of a reload, whatever failed. */
  ghost predicate Core(s: State) {
    && HandlesMatch(s.sinks, s.handles.sinks) && HandlesMatch(s.probes, s.handles.probes)
    && AliveExactly(s.alive, s.sinks, s.probes)
    && Older(s.sinks, s.gen) && Older(s.probes, s.gen)
    && s.wired == Wired(s.alive, s.sinks)
    && LoopKnown(s.loop, s.probes) && Backed(s.loop, s.alive)
    && Balanced(s.handles)
  }

  ghost predicate Older(slots: seq<Slot>, gen: nat) {
    forall i :: 0 <= i < |slots| ==> slots[i].gen < gen
  }

  ghost predicate AllSafe(path: seq<State>) {
    forall k :: 0 <= k < |path| ==> Safe(path[k])
  }

  lemma CoreIsSafe(s: State)
    requires Core(s)
    ensures Safe(s)
  {
    CoreRefs(s.loop, s.sinks, s.probes, s.alive);
    CoreHeld(s);
  }

  lemma CoreRefs(loop: Loop<Obj>, sinks: seq<Slot>, probes: seq<Slot>, alive: set<Obj>)
    requires LoopKnown(loop, probes) && AliveExactly(alive, sinks, probes) && Backed(loop, alive)
    ensures RefsAlive(loop, SinkPointers(sinks), alive) && RefsAlive(loop, Wired(alive, sinks), alive)
  {
    forall i | 0 <= i < |loop.bindings|
      ensures loop.bindings[i].probe in alive && loop.bindings[i].out in alive
    {
      assert Known(loop.bindings[i], probes);
    }
    forall i | 0 <= i < |sinks|
      ensures SinkPointers(sinks)[i] in alive
    {
      assert Slot(sinks[i].id, sinks[i].gen) == sinks[i];
    }
  }

  lemma CoreHeld(s: State)
    requires AliveExactly(s.alive, s.sinks, s.probes)
    requires HandlesMatch(s.sinks, s.handles.sinks) && HandlesMatch(s.probes, s.handles.probes)
    ensures Held(s.alive, SinkKind, s.handles.sinks) && Held(s.alive, ProbeKind, s.handles.probes)
  {
    forall o | o in s.alive && o.SinkObj?
      ensures Slot(o.id, o.gen) in s.sinks
    {
    }
    forall o | o in s.alive && o.ProbeObj?
      ensures Slot(o.id, o.gen) in s.probes
    {
    }
  }

  // ---------------------------------------------------------------- proofs, one list at a time

  lemma EraseKeepsOthers(slots: seq<Slot>, i: nat)
    requires DistinctSlots(slots) && i < |slots|
    ensures DistinctSlots(Erase(slots, i))
    ensures forall x :: x in Erase(slots, i) <==> x in slots && x != slots[i]
    ensures forall x :: x in Erase(slots, i) ==> x.id != slots[i].id
  {
    var e := Erase(slots, i);
    forall x | x in slots && x != slots[i]
      ensures x in e
    {
      var k :| 0 <= k < |slots| && slots[k] == x;
      assert e[if k < i then k else k - 1] == x;
    }
  }

  lemma HandlesDrop(slots: seq<Slot>, handles: map<string, string>, i: nat)
    requires HandlesMatch(slots, handles) && i < |slots|
    ensures HandlesMatch(Erase(slots, i), handles - {slots[i].id})
  {
    EraseKeepsOthers(slots, i);
    var e := Erase(slots, i);
    forall id | id in handles - {slots[i].id}
      ensures exists k :: 0 <= k < |e| && e[k].id == id
    {
      var k :| 0 <= k < |slots| && slots[k].id == id;
      assert slots[k] in e;
    }
  }

  lemma HandlesAdd(slots: seq<Slot>, handles: map<string, string>, slot: Slot, path: string)
    requires HandlesMatch(slots, handles) && slot.id !in handles
    ensures HandlesMatch(slots + [slot], handles[slot.id := path])
  {
    var more := slots + [slot];
    var handles' := handles[slot.id := path];
    forall id | id in handles'
      ensures exists k :: 0 <= k < |more| && more[k].id == id
    {
      if id == slot.id {
        assert more[|slots|].id == id;
      } else {
        var k :| 0 <= k < |slots| && slots[k].id == id;
        assert more[k].id == id;
      }
    }
  }

  lemma RefsGrow(loop: Loop<Obj>, wired: seq<Obj>, alive: set<Obj>, more: set<Obj>)
    requires RefsAlive(loop, wired, alive)
    ensures RefsAlive(loop, wired, alive + more)
  {
  }

  lemma HeldLoad(alive: set<Obj>, kind: Kind, handles: map<string, string>, slot: Slot, at: string)
    requires Held(alive, kind, handles) && slot.id !in handles
    ensures Held(alive + {Component(kind, slot)}, kind, handles[slot.id := at])
  {
  }

  lemma HeldOther(alive: set<Obj>, kind: Kind, handles: map<string, string>, o: Obj)
    requires Held(alive, kind, handles) && !Is(o, kind)
    ensures Held(alive + {o}, kind, handles)
  {
  }

  lemma HeldShrinks(alive: set<Obj>, kind: Kind, handles: map<string, string>, gone: set<Obj>)
    requires Held(alive, kind, handles)
    ensures Held(alive - gone, kind, handles)
  {
  }

  lemma AliveSinkAdded(alive: set<Obj>, sinks: seq<Slot>, probes: seq<Slot>, slot: Slot)
    requires AliveExactly(alive, sinks, probes)
    ensures AliveExactly(alive + {SinkObj(slot.id, slot.gen)}, sinks + [slot], probes)
  {
    assert forall x :: x in sinks + [slot] <==> x in sinks || x == slot;
  }

  lemma AliveSinkErased(alive: set<Obj>, sinks: seq<Slot>, probes: seq<Slot>, i: nat)
    requires AliveExactly(alive, sinks, probes) && DistinctSlots(sinks) && i < |sinks|
    ensures AliveExactly(alive - {SinkObj(sinks[i].id, sinks[i].gen)}, Erase(sinks, i), probes)
  {
    EraseKeepsOthers(sinks, i);
  }

  lemma AliveProbeAdded(alive: set<Obj>, sinks: seq<Slot>, probes: seq<Slot>, slot: Slot)
    requires AliveExactly(alive, sinks, probes)
    ensures AliveExactly(alive + {ProbeObj(slot.id, slot.gen)} + {EmitterObj(slot.id, slot.gen)},
                         sinks, probes + [slot])
  {
    assert forall x :: x in probes + [slot] <==> x in probes || x == slot;
  }

  lemma AliveProbeErased(alive: set<Obj>, sinks: seq<Slot>, probes: seq<Slot>, i: nat)
    requires AliveExactly(alive, sinks, probes) && DistinctSlots(probes) && i < |probes|
    ensures AliveExactly(alive - {ProbeObj(probes[i].id, probes[i].gen), EmitterObj(probes[i].id, probes[i].gen)},
                         sinks, Erase(probes, i))
  {
    EraseKeepsOthers(probes, i);
  }

  // ---------------------------------------------------------------- every act is safe at every step

  lemma AddSinkKeeps(s: State, id: string, plugin: string, how: Opened)
    requires Core(s) && id !in s.handles.sinks
    ensures AllSafe(AddSinkPath(s, id, plugin, how)) && Core(Last(s, AddSinkPath(s, id, plugin, how)))
  {
    hide Core, Safe, AddSinkPath, Wired, LoadedAs;
    AddSinkPathIs(s, id, plugin, how);
    if how.Built? {
      var s1 := LoadedAs(s, SinkKind, id, plugin);
      var s2 := s1.(sinks := s1.sinks + [Slot(id, s.gen)]);
      LoadedIsSafe(s, SinkKind, id, plugin);
      ListedIsSafe(s1, s2.sinks);
      AddedIsCore(s, id, plugin);
      CoreIsSafe(s2.(wired := Wired(s2.alive, s2.sinks)));
    }
  }

  lemma AddSinkPathIs(s: State, id: string, plugin: string, how: Opened)
    ensures !how.Built? ==> AddSinkPath(s, id, plugin, how) == []
    ensures how.Built? ==>
              var s1 := LoadedAs(s, SinkKind, id, plugin);
              var s2 := s1.(sinks := s1.sinks + [Slot(id, s.gen)]);
              AddSinkPath(s, id, plugin, how) == [s1, s2, s2.(wired := Wired(s2.alive, s2.sinks))]
  {
    hide LoadedAs, Wired;
  }

  lemma ListedIsSafe(s: State, sinks: seq<Slot>)
    requires Safe(s)
    ensures Safe(s.(sinks := sinks))
  {
  }

  lemma AddedIsCore(s: State, id: string, plugin: string)
    requires Core(s) && id !in s.handles.sinks
    ensures var s1 := LoadedAs(s, SinkKind, id, plugin);
            var sinks := s1.sinks + [Slot(id, s.gen)];
            Core(s1.(sinks := sinks, wired := Wired(s1.alive, sinks)))
  {
    var slot := Slot(id, s.gen);
    hide RefsAlive, Held, Balanced, AliveExactly, HandlesMatch, LoopKnown, Load, Older, Wired, PluginPath, Backed;
    CoreFacts(s);
    LoadBalancesExactly(s.handles, SinkKind, id, plugin, Built);
    LoadIs(s.handles, SinkKind, id, plugin);
    HandlesAdd(s.sinks, s.handles.sinks, slot, PluginPath(s.handles.dir, SinkKind, plugin));
    AliveSinkAdded(s.alive, s.sinks, s.probes, slot);
    OlderAdded(s.sinks, slot);
    OlderAged(s.probes, s.gen);
    BackedGrows(s.loop, s.alive, {Component(SinkKind, slot)});
  }

  lemma LoadIs(h: Handles, kind: Kind, id: string, plugin: string)
    ensures Load(h, kind, id, plugin, Built).Of(kind) == h.Of(kind)[id := PluginPath(h.dir, kind, plugin)]
    ensures kind.SinkKind? ==> Load(h, kind, id, plugin, Built).probes == h.probes
    ensures kind.ProbeKind? ==> Load(h, kind, id, plugin, Built).sinks == h.sinks
  {
  }

  lemma UnloadIs(h: Handles, kind: Kind, id: string)
    ensures Unload(h, kind, id).Of(kind) == h.Of(kind) - {id}
    ensures kind.SinkKind? ==> Unload(h, kind, id).probes == h.probes
    ensures kind.ProbeKind? ==> Unload(h, kind, id).sinks == h.sinks
  {
    if id !in h.Of(kind) {
      assert h.Of(kind) - {id} == h.Of(kind);
    }
  }

  lemma RemoveSinkKeeps(s: State, id: string)
    requires Core(s)
    ensures AllSafe(RemoveSinkPath(s, id)) && Core(Last(s, RemoveSinkPath(s, id)))
  {
    hide Core, Safe, RemoveSinkPath, Wired, Erase, Unloaded, HandlesMatch, AliveExactly, DistinctSlots;
    RemoveSinkPathIs(s, id);
    var i := IndexOfId(s.sinks, id);
    if i < |s.sinks| {
      var s1 := s.(sinks := Erase(s.sinks, i));
      var s2 := s1.(wired := Wired(s1.alive, s1.sinks));
      var s3 := s2.(alive := s2.alive - {Component(SinkKind, s.sinks[i])});
      CoreFacts(s);
      HandlesDistinct(s.sinks, s.handles.sinks);
      AliveSinkErased(s.alive, s.sinks, s.probes, i);
      UnwiredIsSafe(s, i);
      DestroyedIsCore(s, i);
      CoreIsSafe(Unloaded(s3, SinkKind, id));
    }
  }

  lemma RemoveSinkPathIs(s: State, id: string)
    ensures var i := IndexOfId(s.sinks, id);
            if i == |s.sinks| then RemoveSinkPath(s, id) == []
            else
              var s1 := s.(sinks := Erase(s.sinks, i));
              var s2 := s1.(wired := Wired(s1.alive, s1.sinks));
              var s3 := s2.(alive := s2.alive - {Component(SinkKind, s.sinks[i])});
              RemoveSinkPath(s, id) == [s1, s2, s3, Unloaded(s3, SinkKind, id)]
  {
    hide Wired, Erase, Unloaded;
  }

  /** Up to its destruction a sink being removed leaves every state safe. */
  lemma UnwiredIsSafe(s: State, i: nat)
    requires Core(s) && i < |s.sinks|
    requires AliveExactly(s.alive - {Component(SinkKind, s.sinks[i])}, Erase(s.sinks, i), s.probes)
    ensures var left, gone := Erase(s.sinks, i), {Component(SinkKind, s.sinks[i])};
            var s1 := s.(sinks := left);
            var s2 := s1.(wired := Wired(s.alive, left));
            Safe(s1) && Safe(s2) && Safe(s2.(alive := s2.alive - gone))
  {
    hide RefsAlive, Held, Balanced, AliveExactly, HandlesMatch, LoopKnown, Older, SinkPointers, Erase;
    var left, gone := Erase(s.sinks, i), {Component(SinkKind, s.sinks[i])};
    CoreIsSafe(s);
    CoreRefs(s.loop, left, s.probes, s.alive - gone);
    RefsGrow(s.loop, Wired(s.alive, left), s.alive - gone, s.alive);
    assert s.alive - gone + s.alive == s.alive;
    HeldShrinks(s.alive, SinkKind, s.handles.sinks, gone);
    HeldShrinks(s.alive, ProbeKind, s.handles.probes, gone);
  }

  lemma DestroyedIsCore(s: State, i: nat)
    requires Core(s) && i < |s.sinks|
    requires AliveExactly(s.alive - {Component(SinkKind, s.sinks[i])}, Erase(s.sinks, i), s.probes)
    ensures var left := Erase(s.sinks, i);
            var gone := {Component(SinkKind, s.sinks[i])};
            var s3 := s.(sinks := left, wired := Wired(s.alive, left), alive := s.alive - gone);
            Core(Unloaded(s3, SinkKind, s.sinks[i].id))
  {
    var id := s.sinks[i].id;
    hide RefsAlive, Held, Balanced, AliveExactly, HandlesMatch, LoopKnown, Unload, Older, SinkPointers, Erase;
    HandlesDrop(s.sinks, s.handles.sinks, i);
    UnloadBalances(s.handles, SinkKind, id);
    UnloadIs(s.handles, SinkKind, id);
    OlderErased(s.sinks, s.gen, i);
  }

  lemma OlderErased(slots: seq<Slot>, gen: nat, i: nat)
    requires Older(slots, gen) && i < |slots|
    ensures Older(Erase(slots, i), gen)
  {
  }

  lemma HandlesDistinct(slots: seq<Slot>, handles: map<string, string>)
    requires HandlesMatch(slots, handles)
    ensures DistinctSlots(slots)
  {
  }

  // ---------------------------------------------------------------- probes and the loop

  lemma KnownMore(b: Binding<Obj>, probes: seq<Slot>, slot: Slot)
    requires Known(b, probes)
    ensures Known(b, probes + [slot])
  {
  }

  lemma BindKnown(loop: Loop<Obj>, probes: seq<Slot>, slot: Slot, hasRing: bool, arms: bool)
    requires LoopKnown(loop, probes) && forall k :: 0 <= k < |probes| ==> probes[k].id != slot.id
    ensures LoopKnown(Bind(loop, BindingOf(slot), hasRing, arms), probes + [slot])
  {
    var bound := Bind(loop, BindingOf(slot), hasRing, arms);
    forall i | 0 <= i < |loop.bindings|
      ensures Known(loop.bindings[i], probes + [slot]) && loop.bindings[i].probe != ProbeObj(slot.id, slot.gen)
    {
      assert Known(loop.bindings[i], probes);
      KnownMore(loop.bindings[i], probes, slot);
    }
    assert slot == (probes + [slot])[|probes|];
    assert Known(BindingOf(slot), probes + [slot]);
  }

  lemma KnownErased(loop: Loop<Obj>, probes: seq<Slot>, i: nat)
    requires LoopKnown(loop, probes) && DistinctSlots(probes) && i < |probes|
    requires NotBound(loop, Component(ProbeKind, probes[i]))
    ensures LoopKnown(loop, Erase(probes, i))
  {
    EraseKeepsOthers(probes, i);
    forall k | 0 <= k < |loop.bindings|
      ensures Known(loop.bindings[k], Erase(probes, i))
    {
      assert Known(loop.bindings[k], probes);
    }
  }

  lemma OthersAreOthers(loop: Loop<Obj>, probe: Obj)
    requires DistinctProbes(loop.bindings)
    ensures DistinctProbes(Others(loop, probe))
    ensures forall b :: b in Others(loop, probe) ==> b in loop.bindings && b.probe != probe
  {
    var bs, at, others := loop.bindings, IndexOfProbe(loop.bindings, probe), Others(loop, probe);
    assert others == if at == |bs| then bs else bs[..at] + bs[at + 1..];
    hide IndexOfProbe, Others;
    assert |others| <= |bs| && forall i :: 0 <= i < |others| ==> others[i] == bs[if i < at then i else i + 1];
    forall b | b in others
      ensures b in bs && b.probe != probe
    {
      var i :| 0 <= i < |others| && others[i] == b;
      assert bs[if i < at then i else i + 1] == b;
    }
  }

  /** After a rebuild neither the removed probe nor any dropped one is bound. */
  lemma UnbindKnown(loop: Loop<Obj>, probes: seq<Slot>, probe: Obj, rearms: nat -> bool)
    requires LoopKnown(loop, probes)
    ensures var after := Unbind(loop, probe, rearms);
            && LoopKnown(after, probes) && NotBound(after, probe)
            && forall d :: d in AlsoDropped(loop, probe, rearms) ==> NotBound(after, d)
  {
    if Bound(loop, probe) {
      var others := Others(loop, probe);
      OthersAreOthers(loop, probe);
      PickKnown(others, probes, rearms);
    }
  }

  lemma PickKnown(others: seq<Binding<Obj>>, probes: seq<Slot>, rearms: nat -> bool)
    requires DistinctProbes(others) && forall b :: b in others ==> Known(b, probes)
    ensures DistinctProbes(Pick(others, rearms, true))
    ensures forall b :: b in Pick(others, rearms, true) ==> b in others
    ensures forall b, d :: b in Pick(others, rearms, true) && d in Pick(others, rearms, false) ==> b.probe != d.probe
  {
    var kept := PickIsOrdered(others, rearms, true);
    var lost := PickIsOrdered(others, rearms, false);
    hide Known, Pick;
    forall b, d | b in Pick(others, rearms, true) && d in Pick(others, rearms, false)
      ensures b.probe != d.probe
    {
      var i :| 0 <= i < |kept| && Pick(others, rearms, true)[i] == b;
      var j :| 0 <= j < |lost| && Pick(others, rearms, false)[j] == d;
      assert others[kept[i]] == b && others[lost[j]] == d;
    }
  }

  lemma LoadedIsSafe(s: State, kind: Kind, id: string, plugin: string)
    requires Core(s) && id !in s.handles.Of(kind)
    ensures Safe(LoadedAs(s, kind, id, plugin))
  {
    var slot := Slot(id, s.gen);
    hide RefsAlive, Held, Balanced, AliveExactly, HandlesMatch, LoopKnown, Load, Older;
    CoreIsSafe(s);
    LoadBalancesExactly(s.handles, kind, id, plugin, Built);
    LoadIs(s.handles, kind, id, plugin);
    RefsGrow(s.loop, s.wired, s.alive, {Component(kind, slot)});
    HeldLoad(s.alive, kind, s.handles.Of(kind), slot, PluginPath(s.handles.dir, kind, plugin));
    if kind.ProbeKind? {
      HeldOther(s.alive, SinkKind, s.handles.sinks, Component(kind, slot));
    } else {
      HeldOther(s.alive, ProbeKind, s.handles.probes, Component(kind, slot));
    }
  }

  lemma BackedGrows(loop: Loop<Obj>, alive: set<Obj>, more: set<Obj>)
    requires Backed(loop, alive)
    ensures Backed(loop, alive + more)
  {
  }

  lemma SafeWithEmitter(s: State, e: Obj)
    requires Safe(s) && e.EmitterObj?
    ensures Safe(s.(alive := s.alive + {e}))
  {
    hide RefsAlive, Held, Balanced;
    RefsGrow(s.loop, s.wired, s.alive, {e});
    HeldOther(s.alive, ProbeKind, s.handles.probes, e);
    HeldOther(s.alive, SinkKind, s.handles.sinks, e);
  }

  lemma SafeWithout(s: State, o: Obj)
    requires Safe(s) && RefsAlive(s.loop, s.wired, s.alive - {o})
    ensures Safe(s.(alive := s.alive - {o}))
  {
    hide RefsAlive, Held, Balanced;
    HeldShrinks(s.alive, ProbeKind, s.handles.probes, {o});
    HeldShrinks(s.alive, SinkKind, s.handles.sinks, {o});
  }

  lemma CoreAged(s: State)
    requires Core(s)
    ensures Core(s.(gen := s.gen + 1)) && RefsAlive(s.loop, s.wired, s.alive)
  {
    CoreIsSafe(s);
    OlderAged(s.sinks, s.gen);
    OlderAged(s.probes, s.gen);
    hide Held, Balanced, AliveExactly, HandlesMatch, LoopKnown, Older;
  }

  lemma OlderAged(slots: seq<Slot>, gen: nat)
    requires Older(slots, gen)
    ensures Older(slots, gen + 1)
  {
  }

  lemma CoreFacts(s: State)
    requires Core(s)
    ensures HandlesMatch(s.sinks, s.handles.sinks) && HandlesMatch(s.probes, s.handles.probes)
    ensures AliveExactly(s.alive, s.sinks, s.probes) && LoopKnown(s.loop, s.probes) && Balanced(s.handles)
    ensures Older(s.sinks, s.gen) && Older(s.probes, s.gen) && s.wired == Wired(s.alive, s.sinks)
    ensures Backed(s.loop, s.alive)
  {
  }

  lemma AddProbeKeeps(s: State, id: string, plugin: string, w: World)
    requires Core(s) && id !in s.handles.probes
    ensures AllSafe(AddProbePath(s, id, plugin, w)) && Core(Last(s, AddProbePath(s, id, plugin, w)))
  {
    if w.opens(ProbeKind, id).Built? {
      hide Core, Safe, RefsAlive, Load, Unload, HandlesMatch, AliveExactly;
      CoreFacts(s);
      CoreAged(s);
      CoreIsSafe(s.(gen := s.gen + 1));
      NoSlotYet(s.probes, s.handles.probes, id);
      NotYetAlive(s, Slot(id, s.gen));
      LoadedIsSafe(s, ProbeKind, id, plugin);
      UnloadOfLoad(s.handles, id, plugin);
      if !w.starts(id) {
        AddUnstartable(s, id, plugin, w);
      } else if w.hasRing(id) && !w.arms(id) {
        AddUnarmable(s, id, plugin, w);
      } else {
        AddRunning(s, id, plugin, w);
      }
    }
  }

  /** A failed start gives everything back. */
  lemma AddUnstartable(s: State, id: string, plugin: string, w: World)
    requires Core(s) && Safe(LoadedAs(s, ProbeKind, id, plugin)) && Core(s.(gen := s.gen + 1))
    requires Safe(s.(gen := s.gen + 1))
    requires Component(ProbeKind, Slot(id, s.gen)) !in s.alive && RefsAlive(s.loop, s.wired, s.alive)
    requires Unload(Load(s.handles, ProbeKind, id, plugin, Built), ProbeKind, id) == s.handles
    requires w.opens(ProbeKind, id).Built? && !w.starts(id)
    ensures AllSafe(AddProbePath(s, id, plugin, w)) && Core(Last(s, AddProbePath(s, id, plugin, w)))
  {
    hide Core, Safe, RefsAlive, Load, Unload;
    var probe := Component(ProbeKind, Slot(id, s.gen));
    var s1 := LoadedAs(s, ProbeKind, id, plugin);
    assert s1.alive - {probe} == s.alive;
    SafeWithout(s1, probe);
    var s2 := s1.(alive := s1.alive - {probe});
    assert Unloaded(s2, ProbeKind, id) == s.(gen := s.gen + 1);
    assert AddProbePath(s, id, plugin, w) == [s1, s2, s.(gen := s.gen + 1)];
  }

  /** So does a buffer that cannot be armed, the emitter going last. */
  lemma AddUnarmable(s: State, id: string, plugin: string, w: World)
    requires Core(s) && Safe(LoadedAs(s, ProbeKind, id, plugin)) && Core(s.(gen := s.gen + 1))
    requires Safe(s.(gen := s.gen + 1))
    requires Component(ProbeKind, Slot(id, s.gen)) !in s.alive && EmitterObj(id, s.gen) !in s.alive
    requires RefsAlive(s.loop, s.wired, s.alive)
    requires Unload(Load(s.handles, ProbeKind, id, plugin, Built), ProbeKind, id) == s.handles
    requires w.opens(ProbeKind, id).Built? && w.starts(id) && w.hasRing(id) && !w.arms(id)
    ensures AllSafe(AddProbePath(s, id, plugin, w)) && Core(Last(s, AddProbePath(s, id, plugin, w)))
  {
    hide Core, Safe, RefsAlive, Load, Unload;
    var probe, emitter := Component(ProbeKind, Slot(id, s.gen)), EmitterObj(id, s.gen);
    var s1 := LoadedAs(s, ProbeKind, id, plugin);
    SafeWithEmitter(s1, emitter);
    var s2 := s1.(alive := s1.alive + {emitter});
    assert s2.alive - {probe} == s.alive + {emitter};
    RefsGrow(s.loop, s.wired, s.alive, {emitter});
    SafeWithout(s2, probe);
    var s3 := s2.(alive := s2.alive - {probe});
    var s5 := s.(gen := s.gen + 1);
    SafeWithEmitter(s5, emitter);
    var s4 := s5.(alive := s5.alive + {emitter});
    assert Unloaded(s3, ProbeKind, id) == s4;
    assert s4.alive - {emitter} == s.alive;
    assert BindPath(s2, Slot(id, s.gen), w) == [s3, s4, s5];
    assert AddProbePath(s, id, plugin, w) == [s1, s2, s3, s4, s5];
  }

  lemma AddRunning(s: State, id: string, plugin: string, w: World)
    requires Core(s) && Safe(LoadedAs(s, ProbeKind, id, plugin)) && id !in s.handles.probes
    requires RefsAlive(s.loop, s.wired, s.alive)
    requires forall k :: 0 <= k < |s.probes| ==> s.probes[k].id != id
    requires w.opens(ProbeKind, id).Built? && w.starts(id) && (!w.hasRing(id) || w.arms(id))
    ensures AllSafe(AddProbePath(s, id, plugin, w)) && Core(Last(s, AddProbePath(s, id, plugin, w)))
  {
    var slot := Slot(id, s.gen);
    var emitter := EmitterObj(id, s.gen);
    hide RefsAlive, Held, Balanced, AliveExactly, HandlesMatch, LoopKnown, Load, Older, Bind, Agree, Known, Backed;
    var path := AddProbePath(s, id, plugin, w);
    var s1, s2, s3, s4 := path[0], path[1], path[2], path[3];
    SafeWithEmitter(s1, emitter);
    BindKnown(s.loop, s.probes, slot, w.hasRing(id), w.arms(id));
    LoopKnownAgrees(s3.loop, s4.probes);
    BindRefs(s.loop, slot, w.hasRing(id), w.arms(id), s.wired, s.alive);
    assert Safe(s3);
    OlderAdded(s.probes, slot);
    OlderAged(s.sinks, s.gen);
    BindBacked(s.loop, slot, w.hasRing(id), w.arms(id), s.alive, {Component(ProbeKind, slot)});
    BackedGrows(s3.loop, s.alive + {Component(ProbeKind, slot)}, {emitter});
    LoadIs(s.handles, ProbeKind, id, plugin);
    HandlesAdd(s.probes, s.handles.probes, slot, PluginPath(s.handles.dir, ProbeKind, plugin));
    AliveProbeAdded(s.alive, s.sinks, s.probes, slot);
    assert Core(s4);
    CoreIsSafe(s4);
  }

  lemma NoSlotYet(slots: seq<Slot>, handles: map<string, string>, id: string)
    requires HandlesMatch(slots, handles) && id !in handles
    ensures forall k :: 0 <= k < |slots| ==> slots[k].id != id
  {
  }

  lemma NotYetAlive(s: State, slot: Slot)
    requires AliveExactly(s.alive, s.sinks, s.probes) && forall k :: 0 <= k < |s.probes| ==> s.probes[k].id != slot.id
    ensures Component(ProbeKind, slot) !in s.alive && EmitterObj(slot.id, slot.gen) !in s.alive
  {
  }

  lemma UnloadOfLoad(h: Handles, id: string, plugin: string)
    requires id !in h.probes
    ensures Unload(Load(h, ProbeKind, id, plugin, Built), ProbeKind, id) == h
  {
    assert h.probes[id := PluginPath(h.dir, ProbeKind, plugin)] - {id} == h.probes;
  }

  lemma LoopKnownAgrees(loop: Loop<Obj>, probes: seq<Slot>)
    requires LoopKnown(loop, probes)
    ensures Agree(loop)
  {
  }

  lemma OlderAdded(slots: seq<Slot>, slot: Slot)
    requires Older(slots, slot.gen)
    ensures Older(slots + [slot], slot.gen + 1)
  {
  }

  lemma BindRefs(loop: Loop<Obj>, slot: Slot, hasRing: bool, arms: bool, wired: seq<Obj>, alive: set<Obj>)
    ensures RefsAlive(loop, wired, alive) ==>
              RefsAlive(Bind(loop, BindingOf(slot), hasRing, arms), wired,
                        alive + {Component(ProbeKind, slot)} + {EmitterObj(slot.id, slot.gen)})
  {
  }

  lemma BindBacked(loop: Loop<Obj>, slot: Slot, hasRing: bool, arms: bool, alive: set<Obj>, more: set<Obj>)
    requires Backed(loop, alive)
    ensures Backed(Bind(loop, BindingOf(slot), hasRing, arms), alive + more)
  {
    var bound := Bind(loop, BindingOf(slot), hasRing, arms);
    if NotBound(loop, WatcherObj) {
      assert NotBound(bound, WatcherObj);
    }
  }

  // ---------------------------------------------------------------- removing probes

  lemma PathConcat(s: State, a: seq<State>, b: seq<State>)
    ensures Last(s, a + b) == Last(Last(s, a), b)
    ensures AllSafe(a) && AllSafe(b) ==> AllSafe(a + b)
  {
  }

  ghost predicate NoneBound(loop: Loop<Obj>, dead: seq<Obj>) {
    forall k :: 0 <= k < |dead| ==> NotBound(loop, dead[k])
  }

  lemma {:induction false} ForgetKeeps(s: State, dead: seq<Obj>)
    requires Core(s) && NoneBound(s.loop, dead)
    ensures AllSafe(ForgetPath(s, dead)) && Core(Last(s, ForgetPath(s, dead)))
    decreases |dead|
  {
    hide Core, NotBound, AllSafe, ForgetPath, Last, Unloaded, Forgotten;
    ForgetHead(s, dead);
    if dead != [] {
      var i, rest := IndexOfDead(s.probes, dead[0]), dead[1..];
      assert NoneBound(s.loop, rest);
      if i == |s.probes| {
        ForgetKeeps(s, rest);
      } else {
        ForgetOne(s, i);
        var s1 := Forgotten(s, i);
        var s2 := Unloaded(s1, ProbeKind, s.probes[i].id);
        TwoSafe(s, s1, s2);
        ForgetKeeps(s2, rest);
        PathConcat(s, [s1, s2], ForgetPath(s2, rest));
      }
    }
  }

  lemma TwoSafe(s: State, s1: State, s2: State)
    requires Safe(s1) && Safe(s2)
    ensures AllSafe([s1, s2]) && Last(s, [s1, s2]) == s2
  {
  }

  /** Forgetting one probe touches neither the loop nor the probes still to forget. */
  lemma ForgetHead(s: State, dead: seq<Obj>)
    ensures dead == [] ==> ForgetPath(s, dead) == [] && Last(s, []) == s && AllSafe([])
    ensures dead != [] ==>
              var i := IndexOfDead(s.probes, dead[0]);
              if i == |s.probes| then ForgetPath(s, dead) == ForgetPath(s, dead[1..])
              else
                var s1 := Forgotten(s, i);
                var s2 := Unloaded(s1, ProbeKind, s.probes[i].id);
                s2.loop == s.loop && ForgetPath(s, dead) == [s1, s2] + ForgetPath(s2, dead[1..])
  {
    hide Unload;
  }

  lemma ForgetOne(s: State, i: nat)
    requires Core(s) && i < |s.probes| && NotBound(s.loop, Component(ProbeKind, s.probes[i]))
    ensures Safe(Forgotten(s, i))
    ensures Core(Unloaded(Forgotten(s, i), ProbeKind, s.probes[i].id))
    ensures Safe(Unloaded(Forgotten(s, i), ProbeKind, s.probes[i].id))
  {
    var slot := s.probes[i];
    var gone := {Component(ProbeKind, slot), EmitterObj(slot.id, slot.gen)};
    HandlesDistinct(s.probes, s.handles.probes);
    KnownErased(s.loop, s.probes, i);
    OlderErased(s.probes, s.gen, i);
    hide RefsAlive, Held, Balanced, AliveExactly, HandlesMatch, LoopKnown, Unload, Older, NotBound, Agree;
    CoreIsSafe(s);
    AliveProbeErased(s.alive, s.sinks, s.probes, i);
    CoreRefs(s.loop, s.sinks, Erase(s.probes, i), s.alive - gone);
    HeldShrinks(s.alive, ProbeKind, s.handles.probes, gone);
    HeldShrinks(s.alive, SinkKind, s.handles.sinks, gone);
    assert Safe(Forgotten(s, i));
    HandlesDrop(s.probes, s.handles.probes, i);
    UnloadBalances(s.handles, ProbeKind, slot.id);
    UnloadIs(s.handles, ProbeKind, slot.id);
    assert Core(Unloaded(Forgotten(s, i), ProbeKind, slot.id));
    CoreIsSafe(Unloaded(Forgotten(s, i), ProbeKind, slot.id));
  }

  lemma RemoveProbeKeeps(s: State, id: string, w: World)
    requires Core(s)
    ensures AllSafe(RemoveProbePath(s, id, w)) && Core(Last(s, RemoveProbePath(s, id, w)))
  {
    var i := IndexOfId(s.probes, id);
    if i < |s.probes| {
      var probe := Component(ProbeKind, s.probes[i]);
      var s1 := s.(loop := Unbind(s.loop, probe, w.rearms(id)));
      var dead := [probe] + AlsoDropped(s.loop, probe, w.rearms(id));
      UnboundIsCore(s, probe, w.rearms(id));
      hide Core, Safe, Unbind, AlsoDropped, NoneBound, ForgetPath;
      CoreIsSafe(s1);
      ForgetKeeps(s1, dead);
      PathConcat(s, [s1], ForgetPath(s1, dead));
    }
  }

  lemma PickIsSubset(bs: seq<Binding<Obj>>, rearms: nat -> bool, o: Obj)
    requires forall i :: 0 <= i < |bs| ==> bs[i].probe != o
    ensures forall i :: 0 <= i < |Pick(bs, rearms, true)| ==> Pick(bs, rearms, true)[i].probe != o
  {
    var order := PickIsOrdered(bs, rearms, true);
  }

  lemma UnbindStaysUnbound(loop: Loop<Obj>, probe: Obj, rearms: nat -> bool, o: Obj)
    requires NotBound(loop, o)
    ensures NotBound(Unbind(loop, probe, rearms), o)
  {
    PickIsSubset(Others(loop, probe), rearms, o);
  }

  lemma UnboundIsCore(s: State, probe: Obj, rearms: nat -> bool)
    requires Core(s)
    ensures Core(s.(loop := Unbind(s.loop, probe, rearms)))
    ensures NoneBound(Unbind(s.loop, probe, rearms), [probe] + AlsoDropped(s.loop, probe, rearms))
  {
    UnbindKnown(s.loop, s.probes, probe, rearms);
    if NotBound(s.loop, WatcherObj) {
      UnbindStaysUnbound(s.loop, probe, rearms, WatcherObj);
    }
    hide Balanced, AliveExactly, HandlesMatch, LoopKnown, Older, NotBound, Unbind, AlsoDropped, Wired;
  }

  /** What an act needs: nothing is loaded under an id that is running. */
  ghost predicate Addable(s: State, act: Act) {
    act.New? ==> act.id !in s.handles.Of(act.kind)
  }

  /** Every act, whatever fails in it, is safe at every step and restores the agreement. */
  lemma ActKeeps(s: State, act: Act, w: World)
    requires Core(s) && Addable(s, act)
    ensures AllSafe(ActPath(s, act, w)) && Core(Last(s, ActPath(s, act, w)))
  {
    hide Core, AllSafe, AddSinkPath, RemoveSinkPath, AddProbePath, RemoveProbePath;
    match act
    case Drop(SinkKind, id) => RemoveSinkKeeps(s, id);
    case Drop(ProbeKind, id) => RemoveProbeKeeps(s, id, w);
    case New(SinkKind, id, plugin) => AddSinkKeeps(s, id, plugin, w.opens(SinkKind, id));
    case New(ProbeKind, id, plugin) => AddProbeKeeps(s, id, plugin, w);
  }
}

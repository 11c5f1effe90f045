/** The Daemon object itself: its methods, statement by statement, pass through exactly the states of module DaemonSteps
    (src/core/daemon.cpp). */
module DaemonObject {
  import opened Text
  import opened EventLoop
  import opened Config
  import opened Loader
  import opened DaemonSteps
  import opened Startup
  import Kept = Reload

  /** A plan is carried out in parts. */
  lemma {:induction false} ActsConcat(s: State, a: seq<Act>, b: seq<Act>, w: World)
    ensures ActsPath(s, a + b, w) == ActsPath(s, a, w) + ActsPath(Last(s, ActsPath(s, a, w)), b, w)
    ensures Last(s, ActsPath(s, a + b, w)) ==
            Last(Last(s, ActsPath(s, a, w)), ActsPath(Last(s, ActsPath(s, a, w)), b, w))
    decreases |a|
  {
    hide ActPath;
    if a == [] {
      assert a + b == b;
    } else {
      var path := ActPath(s, a[0], w);
      var s' := Last(s, path);
      assert (a + b)[0] == a[0] && (a + b)[1..] == a[1..] + b;
      ActsConcat(s', a[1..], b, w);
      PathConcat(s, path, ActsPath(s', a[1..], w));
      PathConcat(s, path + ActsPath(s', a[1..], w), ActsPath(Last(s', ActsPath(s', a[1..], w)), b, w));
    }
  }

  lemma ActsLast(s: State, acts: seq<Act>, i: nat, w: World)
    requires i < |acts|
    ensures ActsPath(s, acts[..i + 1], w) ==
            ActsPath(s, acts[..i], w) + ActPath(Last(s, ActsPath(s, acts[..i], w)), acts[i], w)
    ensures Last(s, ActsPath(s, acts[..i + 1], w)) ==
            Last(Last(s, ActsPath(s, acts[..i], w)), ActPath(Last(s, ActsPath(s, acts[..i], w)), acts[i], w))
  {
    hide ActPath;
    var before := Last(s, ActsPath(s, acts[..i], w));
    var path := ActPath(before, acts[i], w);
    assert acts[..i + 1] == acts[..i] + [acts[i]];
    assert [acts[i]][1..] == [];
    assert ActsPath(Last(before, path), [], w) == [];
    assert ActsPath(before, [acts[i]], w) == path;
    ActsConcat(s, acts[..i], [acts[i]], w);
  }

  lemma NoActs(s: State, acts: seq<Act>, w: World)
    ensures ActsPath(s, acts[..0], w) == [] && Last(s, []) == s && acts[..|acts|] == acts
  {
  }

  lemma KeepsInv(s: State, loaded: Option<File>, w: World)
    ensures Kept.Inv(s) && loaded.Some? && WellFormed(loaded.value) ==>
              AllSafe(ReloadPath(s, loaded.value, w)) && Kept.Inv(Last(s, ReloadPath(s, loaded.value, w)))
  {
    if Kept.Inv(s) && loaded.Some? && WellFormed(loaded.value) {
      Kept.ReloadKeepsInv(s, loaded.value, w);
      hide Kept.Inv, ReloadPath, AllSafe;
    }
  }

  /** A probe that was built is either destroyed again or gets an emitter and is armed. */
  lemma AddProbePathIs(s: State, id: string, plugin: string, w: World)
    ensures var s1 := LoadedAs(s, ProbeKind, id, plugin);
            var s2 := s1.(alive := s1.alive - {ProbeObj(id, s.gen)});
            var s3 := s1.(alive := s1.alive + {EmitterObj(id, s.gen)});
            var armed := BindPath(s3, Slot(id, s.gen), w);
            AddProbePath(s, id, plugin, w) ==
            (if !w.opens(ProbeKind, id).Built? then []
             else if w.starts(id) then [s1] + ([s3] + armed) else [s1] + [s2, Unloaded(s2, ProbeKind, id)])
            && (w.opens(ProbeKind, id).Built? ==>
                  Last(s, AddProbePath(s, id, plugin, w)) ==
                  if w.starts(id) then Last(s3, armed) else Unloaded(s2, ProbeKind, id))
  {
    hide Load, Unload;
  }

  /** A plan is its sinks' part and then its probes' part. */
  lemma PlanInParts(s: State, diff: Diff, next: File, w: World)
    ensures var a := Drops(SinkKind, diff.removedSinks) + News(SinkKind, diff.addedSinks, next.sinks);
            var b := Drops(ProbeKind, diff.removedProbes) + News(ProbeKind, diff.addedProbes, next.probes);
            var s' := Last(s, ActsPath(s, a, w));
            ActsPath(s, Plan(diff, next), w) == ActsPath(s, a, w) + ActsPath(s', b, w)
            && Last(s, ActsPath(s, Plan(diff, next), w)) == Last(s', ActsPath(s', b, w))
  {
    var a := Drops(SinkKind, diff.removedSinks) + News(SinkKind, diff.addedSinks, next.sinks);
    var b := Drops(ProbeKind, diff.removedProbes) + News(ProbeKind, diff.addedProbes, next.probes);
    PlanOfParts(diff, next);
    hide Plan, Drops, News, ActsPath, Last;
    ActsConcat(s, a, b, w);
  }

  lemma PlanOfParts(diff: Diff, next: File)
    ensures Plan(diff, next) ==
            (Drops(SinkKind, diff.removedSinks) + News(SinkKind, diff.addedSinks, next.sinks))
            + (Drops(ProbeKind, diff.removedProbes) + News(ProbeKind, diff.addedProbes, next.probes))
  {
    hide Drops, News;
  }

  /** One probe is forgotten first, then others. */
  lemma FirstForgotten(s: State, i: nat, others: seq<Obj>)
    requires i < |s.probes| && IndexOfDead(s.probes, Component(ProbeKind, s.probes[i])) == i
    ensures var f := Forgotten(s, i);
            var s' := Unloaded(f, ProbeKind, s.probes[i].id);
            var path := [f, s'] + ForgetPath(s', others);
            ForgetPath(s, [Component(ProbeKind, s.probes[i])] + others) == path
            && Last(s, path) == Last(s', ForgetPath(s', others))
  {
    var dead := [Component(ProbeKind, s.probes[i])] + others;
    assert dead[1..] == others;
    hide Unload, Forgotten;
  }

  lemma NothingForgotten(s: State, dead: seq<Obj>)
    ensures ForgetPath(s, dead[..0]) == [] && Last(s, []) == s && dead[..|dead|] == dead
  {
  }

  lemma NoneOrOne(s: State, dead: Obj)
    ensures var i := IndexOfDead(s.probes, dead);
            ForgetPath(s, [dead]) == if i == |s.probes| then [] else
              [Forgotten(s, i), Unloaded(Forgotten(s, i), ProbeKind, s.probes[i].id)]
  {
    assert [dead][1..] == [];
    assert forall s' :: ForgetPath(s', []) == [];
    hide Unload, Forgotten;
  }

  lemma NextForgotten(s: State, dead: seq<Obj>)
    requires dead != []
    ensures var path := ForgetPath(s, [dead[0]]);
            var s' := Last(s, path);
            ForgetPath(s, dead) == path + ForgetPath(s', dead[1..])
            && Last(s, ForgetPath(s, dead)) == Last(s', ForgetPath(s', dead[1..]))
  {
    NoneOrOne(s, dead[0]);
    var path := ForgetPath(s, [dead[0]]);
    PathConcat(s, path, ForgetPath(Last(s, path), dead[1..]));
    hide Unload, Forgotten;
  }

  lemma {:induction false} ForgetInParts(s: State, a: seq<Obj>, b: seq<Obj>)
    ensures ForgetPath(s, a + b) == ForgetPath(s, a) + ForgetPath(Last(s, ForgetPath(s, a)), b)
    ensures Last(s, ForgetPath(s, a + b)) == Last(Last(s, ForgetPath(s, a)), ForgetPath(Last(s, ForgetPath(s, a)), b))
    decreases |a|
  {
    hide ForgetPath;
    if a == [] {
      NothingForgotten(s, a);
      assert a[..0] == a && a + b == b;
    } else {
      var path := ForgetPath(s, [a[0]]);
      var s' := Last(s, path);
      NextForgotten(s, a);
      NextForgotten(s, a + b);
      assert (a + b)[1..] == a[1..] + b;
      ForgetInParts(s', a[1..], b);
      hide Last;
    }
  }

  lemma LastForgotten(s: State, dead: seq<Obj>, k: nat)
    requires k < |dead|
    ensures ForgetPath(s, dead[..k + 1]) ==
            ForgetPath(s, dead[..k]) + ForgetPath(Last(s, ForgetPath(s, dead[..k])), [dead[k]])
    ensures Last(s, ForgetPath(s, dead[..k + 1])) ==
            Last(Last(s, ForgetPath(s, dead[..k])), ForgetPath(Last(s, ForgetPath(s, dead[..k])), [dead[k]]))
  {
    assert dead[..k + 1] == dead[..k] + [dead[k]];
    ForgetInParts(s, dead[..k], [dead[k]]);
  }

  /** The slot found by its id is also the slot found by its object. */
  lemma FoundTwice(slots: seq<Slot>, id: string)
    requires IndexOfId(slots, id) < |slots|
    ensures var i := IndexOfId(slots, id); IndexOfDead(slots, Component(ProbeKind, slots[i])) == i
  {
  }

  class Daemon {
    const loop: Events<Obj>
    const loader: PluginLoader
    var config: File
    var sinks: seq<Slot>
    var probes: seq<Slot>
    var wired: seq<Obj>
    var pipeline: bool           // there is a pipeline to wire
    var gen: nat
    ghost var alive: set<Obj>
    ghost var seen: seq<State>   // every state passed through

    ghost function Now(): State
      reads this`config, this`sinks, this`probes, this`wired, this`gen, this`alive, loop, loader
    {
      State(config, sinks, probes, loader.Now(), loop.Now(), wired, alive, gen)
    }

    /** The object went through `path` and is where it ends. */
    twostate predicate Passed(path: seq<State>)
      reads this, loop, loader
    {
      seen == old(seen) + path && Now() == Last(old(Now()), path)
    }

    /** Nothing is wired to a pipeline that does not exist. */
    ghost predicate Valid()
      reads this`pipeline, this`alive, this`wired
    {
      pipeline == (PipelineObj in alive) && (!pipeline ==> wired == [])
    }

    constructor (config: File)
      ensures Valid() && Now() == Fresh(config) && seen == []
      ensures fresh(loop) && fresh(loader)
    {
      loop := new Events<Obj>();
      loader := new PluginLoader(config.pluginDir);
      this.config := config;
      sinks, probes, wired, pipeline, gen := [], [], [], false, 0;
      alive, seen := {}, [];
    }

    method WireSinks()
      requires Valid()
      modifies this`wired
      ensures Valid() && wired == Wired(alive, sinks)
    {
      if !pipeline {
        return;
      }
      var pointers: seq<Obj> := [];
      var i := 0;
      while i < |sinks|
        invariant 0 <= i <= |sinks| && pointers == SinkPointers(sinks)[..i]
      {
        pointers := pointers + [SinkObj(sinks[i].id, sinks[i].gen)];
        i := i + 1;
      }
      assert SinkPointers(sinks)[..|sinks|] == SinkPointers(sinks);
      wired := pointers;
    }

    method AddSink(id: string, plugin: string, how: Opened)
      requires Valid()
      modifies this, loop, loader
      ensures Valid()
      ensures Passed(AddSinkPath(old(Now()), id, plugin, how))
    {
      hide Load, Wired, LoadedAs, AddSinkPath;
      AddSinkPathIs(Now(), id, plugin, how);
      var built := BuildSink(id, plugin, how);
      if built {
        ListSink(id);
      }
    }

    method BuildSink(id: string, plugin: string, how: Opened) returns (built: bool)
      requires Valid()
      modifies this`alive, this`gen, this`seen, loader
      ensures Valid() && built == how.Built?
      ensures Passed(if built then [LoadedAs(old(Now()), SinkKind, id, plugin)] else [])
      ensures built ==> gen == old(gen) + 1
    {
      hide Load;
      built := loader.LoadSink(id, plugin, how);
      if built {
        alive, gen := alive + {SinkObj(id, gen)}, gen + 1;
        seen := seen + [Now()];
      }
    }

    method ListSink(id: string)
      requires Valid() && gen > 0
      modifies this`sinks, this`wired, this`seen
      ensures Valid()
      ensures var s2 := old(Now()).(sinks := old(sinks) + [Slot(id, gen - 1)]);
              var s3 := s2.(wired := Wired(s2.alive, s2.sinks));
              seen == old(seen) + [s2, s3] && Now() == s3
    {
      hide Wired;
      sinks := sinks + [Slot(id, gen - 1)];
      ghost var s2 := Now();
      WireSinks();
      seen := seen + [s2, Now()];
    }

    method RemoveSink(id: string)
      requires Valid()
      modifies this, loop, loader
      ensures Valid()
      ensures Passed(RemoveSinkPath(old(Now()), id))
    {
      hide Wired, Unloaded;
      var i := IndexOfId(sinks, id);
      if i == |sinks| {
        return;
      }
      var doomed := sinks[i];
      UnwireSink(i);
      DestroySink(id, doomed);
    }

    /** Out of the list and out of the pipeline. */
    method UnwireSink(i: nat)
      requires Valid() && i < |sinks|
      modifies this`sinks, this`wired, this`seen
      ensures Valid()
      ensures var s1 := old(Now()).(sinks := Erase(old(sinks), i));
              var s2 := s1.(wired := Wired(s1.alive, s1.sinks));
              seen == old(seen) + [s1, s2] && Now() == s2
    {
      hide Wired;
      sinks := sinks[..i] + sinks[i + 1..];
      ghost var s1 := Now();
      WireSinks();
      seen := seen + [s1, Now()];
    }

    /** Destroyed before its plugin is released. */
    method DestroySink(id: string, doomed: Slot)
      requires Valid()
      modifies this`alive, this`seen, loader
      ensures Valid()
      ensures var s3 := old(Now()).(alive := old(alive) - {Component(SinkKind, doomed)});
              var s4 := Unloaded(s3, SinkKind, id);
              seen == old(seen) + [s3, s4] && Now() == s4
    {
      hide Unload;
      alive := alive - {SinkObj(doomed.id, doomed.gen)};
      ghost var s3 := Now();
      loader.UnloadSink(id);
      seen := seen + [s3, Now()];
    }

    method AddProbe(id: string, plugin: string, w: World)
      requires Valid()
      modifies this, loop, loader
      ensures Valid()
      ensures Passed(AddProbePath(old(Now()), id, plugin, w))
    {
      hide Load, Unload, BindPath, LoadedAs, AddProbePath;
      AddProbePathIs(Now(), id, plugin, w);
      var built := BuildProbe(id, plugin, w.opens(ProbeKind, id));
      if !built {
        return;
      }
      if w.starts(id) {
        BindProbe(id, w);
      } else {
        DiscardProbe(id);
      }
    }

    method BuildProbe(id: string, plugin: string, how: Opened) returns (built: bool)
      requires Valid()
      modifies this`alive, this`gen, this`seen, loader
      ensures Valid() && built == how.Built?
      ensures Passed(if built then [LoadedAs(old(Now()), ProbeKind, id, plugin)] else [])
      ensures built ==> gen == old(gen) + 1
    {
      hide Load;
      built := loader.LoadProbe(id, plugin, how);
      if built {
        alive, gen := alive + {ProbeObj(id, gen)}, gen + 1;
        seen := seen + [Now()];
      }
    }

    /** A probe that would not start: destroyed, then its plugin released. */
    method DiscardProbe(id: string)
      requires Valid()
      requires gen > 0
      modifies this, loader
      ensures Valid()
      ensures gen == old(gen)
      ensures var s2 := old(Now()).(alive := old(alive) - {ProbeObj(id, old(gen) - 1)});
              seen == old(seen) + [s2, Unloaded(s2, ProbeKind, id)] && Now() == Unloaded(s2, ProbeKind, id)
    {
      hide Unload;
      alive := alive - {ProbeObj(id, gen - 1)};
      ghost var s2 := Now();
      loader.UnloadProbe(id);
      seen := seen + [s2, Now()];
    }

    /** A started probe: its emitter, its binding, its slot; or all of it given back if it cannot be armed. */
    method BindProbe(id: string, w: World)
      requires Valid()
      requires gen > 0
      modifies this, loop, loader
      ensures Valid()
      ensures var s1, probe, emitter := old(Now()), ProbeObj(id, old(gen) - 1), EmitterObj(id, old(gen) - 1);
              var s2 := s1.(alive := s1.alive + {emitter});
              var path := BindPath(s2, Slot(id, s1.gen - 1), w);
              seen == old(seen) + ([s2] + path) && Now() == Last(s2, path)
    {
      hide BindPath;
      alive := alive + {EmitterObj(id, gen - 1)};
      seen := seen + [Now()];
      ArmProbe(id, w);
    }

    method ArmProbe(id: string, w: World)
      requires Valid() && gen > 0
      modifies this, loop, loader
      ensures Valid()
      ensures Passed(BindPath(old(Now()), Slot(id, old(gen) - 1), w))
    {
      hide Unload, Unloaded, Bind;
      var ok := loop.Add(ProbeObj(id, gen - 1), EmitterObj(id, gen - 1), w.hasRing(id), w.arms(id));
      if ok {
        ListProbe(id);
      } else {
        GiveBack(id);
      }
    }

    method ListProbe(id: string)
      requires Valid()
      requires gen > 0
      modifies this`probes, this`seen
      ensures Valid()
      ensures var s3 := old(Now()); var s4 := s3.(probes := s3.probes + [Slot(id, gen - 1)]);
              seen == old(seen) + [s3, s4] && Now() == s4
    {
      ghost var s3 := Now();
      probes := probes + [Slot(id, gen - 1)];
      seen := seen + [s3, Now()];
    }

    /** A probe that could not be armed: destroyed, its plugin released, its emitter destroyed on the way out. */
    method GiveBack(id: string)
      requires Valid()
      requires gen > 0
      modifies this, loader
      ensures Valid()
      ensures var s2, probe, emitter := old(Now()), ProbeObj(id, old(gen) - 1), EmitterObj(id, old(gen) - 1);
              var s3 := s2.(alive := s2.alive - {probe});
              var s4 := Unloaded(s3, ProbeKind, id);
              var s5 := s4.(alive := s4.alive - {emitter});
              seen == old(seen) + [s3, s4, s5] && Now() == s5
    {
      hide Unload;
      DiscardProbe(id);
      alive := alive - {EmitterObj(id, gen - 1)};
      seen := seen + [Now()];
    }

    /** Erasing the slot destroys the emitter and the probe; only then is the plugin released. */
    method Forget(i: nat)
      requires Valid()
      requires i < |probes|
      modifies this, loader
      ensures Valid()
      ensures Passed([Forgotten(old(Now()), i), Unloaded(Forgotten(old(Now()), i), ProbeKind, old(probes)[i].id)])
    {
      var dead := probes[i];
      probes := probes[..i] + probes[i + 1..];
      alive := alive - {ProbeObj(dead.id, dead.gen), EmitterObj(dead.id, dead.gen)};
      ghost var s1 := Now();
      loader.UnloadProbe(dead.id);
      seen := seen + [s1, Now()];
      hide Unload;
    }

    method RemoveProbe(id: string, w: World)
      requires Valid()
      modifies this, loop, loader
      ensures Valid()
      ensures Passed(RemoveProbePath(old(Now()), id, w))
    {
      var it := IndexOfId(probes, id);
      if it < |probes| {
        RemoveListed(it, id, w);
      }
    }

    method RemoveListed(it: nat, id: string, w: World)
      requires Valid()
      requires it == IndexOfId(probes, id) < |probes|
      modifies this, loop, loader
      ensures Valid()
      ensures Passed(RemoveProbePath(old(Now()), id, w))
    {
      hide Unbind, AlsoDropped, ForgetPath;
      ghost var s := Now();
      var alsoDropped := Detach(it, w.rearms(id));
      FoundTwice(probes, id);
      ForgetThen(it, alsoDropped);
    }

    method Detach(it: nat, rearms: nat -> bool) returns (alsoDropped: seq<Obj>)
      requires it < |probes|
      modifies this`seen, loop
      ensures var s := old(Now()); var probe := Component(ProbeKind, s.probes[it]);
              Now() == s.(loop := Unbind(s.loop, probe, rearms)) && seen == old(seen) + [Now()]
              && alsoDropped == AlsoDropped(s.loop, probe, rearms)
    {
      hide Unbind, AlsoDropped;
      alsoDropped := loop.Remove(ProbeObj(probes[it].id, probes[it].gen), rearms);
      seen := seen + [Now()];
    }

    /** Forgets one probe and then others. */
    method ForgetThen(i: nat, others: seq<Obj>)
      requires Valid()
      requires i < |probes| && IndexOfDead(probes, Component(ProbeKind, probes[i])) == i
      modifies this, loader
      ensures Valid()
      ensures Passed(ForgetPath(old(Now()), [Component(ProbeKind, old(probes)[i])] + others))
    {
      hide Unload, Forgotten, ForgetPath;
      ghost var s := Now();
      Forget(i);
      ForgetAll(others);
      FirstForgotten(s, i, others);
    }

    method ForgetAll(dead: seq<Obj>)
      requires Valid()
      modifies this, loader
      ensures Valid()
      ensures Passed(ForgetPath(old(Now()), dead))
    {
      hide ForgetPath;
      ghost var s := Now();
      NothingForgotten(s, dead);
      for k := 0 to |dead|
        invariant Valid() && Passed(ForgetPath(s, dead[..k]))
      {
        ForgetIfListed(dead[k]);
        LastForgotten(s, dead, k);
      }
    }

    method ForgetIfListed(dead: Obj)
      requires Valid()
      modifies this, loader
      ensures Valid()
      ensures Passed(ForgetPath(old(Now()), [dead]))
    {
      var it := IndexOfDead(probes, dead);
      NoneOrOne(Now(), dead);
      if it < |probes| {
        hide ForgetPath, Unload, Forgotten;
        Forget(it);
      }
    }

    method RemoveSinks(ids: seq<string>, w: World)
      requires Valid()
      modifies this, loop, loader
      ensures Valid()
      ensures Passed(ActsPath(old(Now()), Drops(SinkKind, ids), w))
    {
      hide RemoveSinkPath, ActsPath;
      ghost var s, acts := Now(), Drops(SinkKind, ids);
      NoActs(s, acts, w);
      for i := 0 to |ids|
        invariant Valid() && Passed(ActsPath(s, acts[..i], w))
      {
        RemoveSink(ids[i]);
        ActsLast(s, acts, i, w);
      }
    }

    method AddSinks(ids: seq<string>, cs: Components, w: World)
      requires Valid()
      modifies this, loop, loader
      ensures Valid()
      ensures Passed(ActsPath(old(Now()), News(SinkKind, ids, cs), w))
    {
      hide AddSinkPath, ActsPath;
      ghost var s, acts := Now(), News(SinkKind, ids, cs);
      NoActs(s, acts, w);
      for i := 0 to |ids|
        invariant Valid() && Passed(ActsPath(s, acts[..i], w))
      {
        AddSink(ids[i], PluginAt(cs, ids[i]), w.opens(SinkKind, ids[i]));
        ActsLast(s, acts, i, w);
      }
    }

    method RemoveProbes(ids: seq<string>, w: World)
      requires Valid()
      modifies this, loop, loader
      ensures Valid()
      ensures Passed(ActsPath(old(Now()), Drops(ProbeKind, ids), w))
    {
      hide RemoveProbePath, ActsPath;
      ghost var s, acts := Now(), Drops(ProbeKind, ids);
      NoActs(s, acts, w);
      for i := 0 to |ids|
        invariant Valid() && Passed(ActsPath(s, acts[..i], w))
      {
        RemoveProbe(ids[i], w);
        ActsLast(s, acts, i, w);
      }
    }

    method AddProbes(ids: seq<string>, cs: Components, w: World)
      requires Valid()
      modifies this, loop, loader
      ensures Valid()
      ensures Passed(ActsPath(old(Now()), News(ProbeKind, ids, cs), w))
    {
      hide AddProbePath, ActsPath;
      ghost var s, acts := Now(), News(ProbeKind, ids, cs);
      NoActs(s, acts, w);
      for i := 0 to |ids|
        invariant Valid() && Passed(ActsPath(s, acts[..i], w))
      {
        AddProbe(ids[i], PluginAt(cs, ids[i]), w);
        ActsLast(s, acts, i, w);
      }
    }

    method ApplyDiff(diff: Diff, next: File, w: World)
      requires Valid()
      modifies this, loop, loader
      ensures Valid()
      ensures Passed(ActsPath(old(Now()), Plan(diff, next), w))
    {
      hide ActsPath, Plan, Drops, News;
      ApplySinkDiff(diff, next, w);
      ApplyProbeDiff(diff, next, w);
      PlanInParts(old(Now()), diff, next, w);
    }

    method ApplySinkDiff(diff: Diff, next: File, w: World)
      requires Valid()
      modifies this, loop, loader
      ensures Valid()
      ensures Passed(ActsPath(old(Now()),
                              Drops(SinkKind, diff.removedSinks) + News(SinkKind, diff.addedSinks, next.sinks), w))
    {
      hide ActsPath, Drops, News;
      RemoveSinks(diff.removedSinks, w);
      AddSinks(diff.addedSinks, next.sinks, w);
      ActsConcat(old(Now()), Drops(SinkKind, diff.removedSinks), News(SinkKind, diff.addedSinks, next.sinks), w);
    }

    method ApplyProbeDiff(diff: Diff, next: File, w: World)
      requires Valid()
      modifies this, loop, loader
      ensures Valid()
      ensures Passed(ActsPath(old(Now()),
                              Drops(ProbeKind, diff.removedProbes) + News(ProbeKind, diff.addedProbes, next.probes), w))
    {
      hide ActsPath, Drops, News;
      RemoveProbes(diff.removedProbes, w);
      AddProbes(diff.addedProbes, next.probes, w);
      ActsConcat(old(Now()), Drops(ProbeKind, diff.removedProbes), News(ProbeKind, diff.addedProbes, next.probes), w);
    }

    /** The watcher is destroyed again if it does not come up. */
    method StartWatcher(b: Bringup) returns (ok: bool)
      requires Valid()
      modifies this`alive, this`seen, loop
      ensures Valid() && ok == !b.WatcherFails()
      ensures var s := old(Now()).(alive := old(alive) + {WatcherObj});
              var s' := if b.WatcherFails() then s.(alive := s.alive - {WatcherObj})
                        else s.(loop := Bind(s.loop, WATCHER_BINDING, b.hasRing, b.arms));
              seen == old(seen) + [s, s'] && Now() == s'
    {
      hide Bind;
      alive := alive + {WatcherObj};
      ghost var s := Now();
      if !b.watcherStarts {
        alive := alive - {WatcherObj};
        seen := seen + [s, Now()];
        return false;
      }
      ok := loop.Add(WatcherObj, PipelineObj, b.hasRing, b.arms);
      if !ok {
        alive := alive - {WatcherObj};
      }
      seen := seen + [s, Now()];
    }

    /** The pipeline is built over the sinks already loaded, then the watcher feeds the resolver. */
    method StartServices(b: Bringup) returns (ok: bool)
      requires Valid()
      modifies this, loop
      ensures Valid() && ok == !b.WatcherFails()
      ensures Passed(ServicesPath(old(Now()), b))
      ensures config == old(config) && sinks == old(sinks)
    {
      hide Bind, Wired;
      pipeline, alive := true, alive + {PipelineObj};
      ghost var s1 := Now();
      WireSinks();
      seen := seen + [s1, Now()];
      ok := StartWatcher(b);
    }

    method Start(b: Bringup, w: World) returns (ok: bool)
      requires Valid() && WellFormed(config) && Now() == Fresh(config)
      modifies this, loop, loader
      ensures Valid() && ok == Started(old(Now()), b, w)
      ensures Passed(StartPath(old(Now()), b, w))
      ensures AllSafe(seen[|old(seen)|..]) && (ok ==> Kept.Inv(Now()))
    {
      hide Kept.Inv, Safe, Core, ActsPath, ServicesPath, SinkActs, ProbeActs, StartPath, Last;
      StartEstablishesInv(config, b, w);
      StartEndsEarly(config, b, w);
      if config.pluginDir == "" || !b.rootFound || !b.resolverStarts {
        return false;
      }
      StartSinks(w);
      if sinks == [] {
        return false;
      }
      StartInParts(config, b, w);
      ok := StartRest(b, w);
    }

    method StartSinks(w: World)
      requires Valid() && WellFormed(config) && Now() == Fresh(config)
      modifies this, loop, loader
      ensures Valid() && config == old(config)
      ensures Passed(ActsPath(old(Now()), SinkActs(config), w))
    {
      hide ActsPath, Core, Kept.Fit;
      SinksUpKeeps(config, w);
      AddSinks(Ids(config.sinks), config.sinks, w);
    }

    method StartRest(b: Bringup, w: World) returns (ok: bool)
      requires Valid()
      modifies this, loop, loader
      ensures Valid()
      ensures var services := ServicesPath(old(Now()), b);
              var s2 := Last(old(Now()), services);
              var rest := if b.WatcherFails() then [] else ActsPath(s2, ProbeActs(old(config)), w);
              seen == old(seen) + (services + rest) && Now() == Last(s2, rest)
              && ok == (!b.WatcherFails() && probes != [])
    {
      hide ActsPath, ServicesPath;
      ok := StartServices(b);
      if !ok {
        return;
      }
      AddProbes(Ids(config.probes), config.probes, w);
      ok := probes != [];
    }

    /** SIGHUP; `loaded` is None when there is no file or it cannot be read. */
    method ReloadConfig(loaded: Option<File>, w: World)
      requires Valid()
      modifies this, loop, loader
      ensures Valid()
      ensures loaded.None? ==> Passed([])
      ensures loaded.Some? ==> Passed(ReloadPath(old(Now()), loaded.value, w))
      ensures Kept.Inv(old(Now())) && (loaded.Some? ==> WellFormed(loaded.value)) ==>
                Kept.Inv(Now()) && AllSafe(seen[|old(seen)|..])
    {
      hide Kept.Inv, Safe, DiffForReload, ActsPath, Plan;
      KeepsInv(Now(), loaded, w);
      if loaded.None? {
        return;
      }
      var next := loaded.value;
      var diff := DiffFiles(config, next);
      if diff.None? {
        return;
      }
      ApplyDiff(diff.value, next, w);
      config := config.(sinks := next.sinks, probes := next.probes);
      seen := seen + [Now()];
    }

    /** The running daemon carries out every reload whose file can be read, one after the other. */
    method Serve(reloads: seq<(Option<File>, World)>)
      requires Valid() && Kept.Inv(Now())
      requires forall k :: 0 <= k < |reloads| && reloads[k].0.Some? ==> WellFormed(reloads[k].0.value)
      modifies this, loop, loader
      ensures Valid() && Passed(Kept.ReloadsPath(old(Now()), Readable(reloads)))
      ensures Now() == Kept.Reloads(old(Now()), Readable(reloads))
      ensures Kept.Inv(Now()) && AllSafe(seen[|old(seen)|..])
    {
      hide Kept.Inv, Safe, ReloadPath, Kept.Reloads, Kept.ReloadsPath;
      ReadableFit(reloads);
      Kept.ReloadsKeepInv(Now(), Readable(reloads));
      ghost var s := Now();
      assert reloads[0..] == reloads;
      for k := 0 to |reloads|
        invariant Valid()
        invariant seen + Kept.ReloadsPath(Now(), Readable(reloads[k..])) ==
                  old(seen) + Kept.ReloadsPath(s, Readable(reloads))
        invariant Kept.Reloads(Now(), Readable(reloads[k..])) == Kept.Reloads(s, Readable(reloads))
      {
        NextReload(Now(), reloads[k..], seen);
        assert reloads[k..][0] == reloads[k] && reloads[k..][1..] == reloads[k + 1..];
        ReloadConfig(reloads[k].0, reloads[k].1);
      }
      NoMoreReloads(Now());
      assert reloads[|reloads|..] == [];
      assert seen + [] == seen;
    }
  }

  /** The reloads that find a file they can read. */
  function Readable(reloads: seq<(Option<File>, World)>): seq<(File, World)> {
    if reloads == [] then []
    else
      var (loaded, w) := reloads[0];
      if loaded.None? then Readable(reloads[1..]) else [(loaded.value, w)] + Readable(reloads[1..])
  }

  lemma {:induction false} ReadableFit(reloads: seq<(Option<File>, World)>)
    requires forall k :: 0 <= k < |reloads| && reloads[k].0.Some? ==> WellFormed(reloads[k].0.value)
    ensures forall k :: 0 <= k < |Readable(reloads)| ==> WellFormed(Readable(reloads)[k].0)
  {
    if reloads != [] {
      assert reloads[0].0.Some? ==> WellFormed(reloads[0].0.value);
      ReadableFit(reloads[1..]);
    }
    hide WellFormed;
  }

  lemma NoMoreReloads(s: State)
    ensures Readable([]) == [] && Kept.ReloadsPath(s, []) == [] && Kept.Reloads(s, []) == s
  {
  }

  lemma NextReadable(reloads: seq<(Option<File>, World)>)
    requires reloads != []
    ensures var (loaded, w) := reloads[0];
            Readable(reloads) ==
            if loaded.None? then Readable(reloads[1..]) else [(loaded.value, w)] + Readable(reloads[1..])
  {
  }

  lemma FirstReload(s: State, next: File, w: World, rest: seq<(File, World)>)
    ensures var path := ReloadPath(s, next, w);
            && Kept.ReloadsPath(s, [(next, w)] + rest) == path + Kept.ReloadsPath(Last(s, path), rest)
            && Kept.Reloads(s, [(next, w)] + rest) == Kept.Reloads(Last(s, path), rest)
  {
    hide ReloadPath;
    assert ([(next, w)] + rest)[1..] == rest;
  }

  /** A reload that finds no file is skipped; one that does comes before those still to come. */
  lemma NextReload(s: State, reloads: seq<(Option<File>, World)>, seen: seq<State>)
    requires reloads != []
    ensures var (loaded, w) := reloads[0];
            var path := if loaded.None? then [] else ReloadPath(s, loaded.value, w);
            var s', rest := Last(s, path), Readable(reloads[1..]);
            && seen + Kept.ReloadsPath(s, Readable(reloads)) == (seen + path) + Kept.ReloadsPath(s', rest)
            && Kept.Reloads(s, Readable(reloads)) == Kept.Reloads(s', rest)
  {
    hide ReloadPath, Readable, Kept.ReloadsPath, Kept.Reloads;
    NextReadable(reloads);
    var (loaded, w) := reloads[0];
    var rest := Readable(reloads[1..]);
    if loaded.Some? {
      FirstReload(s, loaded.value, w, rest);
      var path := ReloadPath(s, loaded.value, w);
      var more := Kept.ReloadsPath(Last(s, path), rest);
      assert seen + (path + more) == (seen + path) + more;
    } else {
      assert seen + [] == seen;
    }
  }

  /** A whole life: constructed, started, and every readable reload carried out in order if it came up. Every state
      passed through is safe, and if it came up the invariant holds to the end. */
  method Live(config: File, b: Bringup, w: World, reloads: seq<(Option<File>, World)>)
      returns (daemon: Daemon, up: bool)
    requires WellFormed(config)
    requires forall k :: 0 <= k < |reloads| && reloads[k].0.Some? ==> WellFormed(reloads[k].0.value)
    ensures up == Started(Fresh(config), b, w)
    ensures var start := StartPath(Fresh(config), b, w); var started := Last(Fresh(config), start);
            && daemon.seen == start + (if up then Kept.ReloadsPath(started, Readable(reloads)) else [])
            && daemon.Now() == if up then Kept.Reloads(started, Readable(reloads)) else started
    ensures AllSafe(daemon.seen) && (up ==> Kept.Inv(daemon.Now()))
  {
    hide Kept.Inv, Safe, Started, StartPath, Kept.Reloads, Kept.ReloadsPath, Readable;
    daemon := new Daemon(config);
    up := daemon.Start(b, w);
    ghost var started := daemon.seen;
    assert started == [] + StartPath(Fresh(config), b, w);
    assert started[0..] == started && AllSafe(started);
    if up {
      daemon.Serve(reloads);
      assert daemon.seen == started + daemon.seen[|started|..];
    }
  }
}

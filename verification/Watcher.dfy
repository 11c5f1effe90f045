/** When the cgroup watcher falls out of the event loop, and that it never comes back (src/core/daemon.cpp). */
module Watcher {
  import opened EventLoop
  import opened Config
  import opened Loader
  import opened DaemonSteps
  import opened Reload
  import opened Startup

  lemma {:induction false} ForgetKeepsLoop(s: State, dead: seq<Obj>)
    ensures Last(s, ForgetPath(s, dead)).loop == s.loop
    decreases |dead|
  {
    if dead != [] {
      var i := IndexOfDead(s.probes, dead[0]);
      if i == |s.probes| {
        ForgetKeepsLoop(s, dead[1..]);
      } else {
        var s1 := Forgotten(s, i);
        var s2 := Unloaded(s1, ProbeKind, s.probes[i].id);
        ForgetKeepsLoop(s2, dead[1..]);
        PathConcat(s, [s1, s2], ForgetPath(s2, dead[1..]));
      }
    }
  }

  lemma ActNeverBindsWatcher(s: State, act: Act, w: World)
    requires NotBound(s.loop, WatcherObj)
    ensures NotBound(Last(s, ActPath(s, act, w)).loop, WatcherObj)
  {
    if act.Drop? && act.kind.ProbeKind? {
      var i := IndexOfId(s.probes, act.id);
      if i < |s.probes| {
        var probe := Component(ProbeKind, s.probes[i]);
        var s1 := s.(loop := Unbind(s.loop, probe, w.rearms(act.id)));
        var dead := [probe] + AlsoDropped(s.loop, probe, w.rearms(act.id));
        UnbindStaysUnbound(s.loop, probe, w.rearms(act.id), WatcherObj);
        hide NotBound, Unbind, AlsoDropped;
        ForgetKeepsLoop(s1, dead);
        PathConcat(s, [s1], ForgetPath(s1, dead));
      }
    } else {
      hide Load, Unload;
    }
  }

  lemma {:induction false} ActsNeverBindWatcher(s: State, acts: seq<Act>, w: World)
    requires NotBound(s.loop, WatcherObj)
    ensures NotBound(Last(s, ActsPath(s, acts, w)).loop, WatcherObj)
    decreases |acts|
  {
    if acts != [] {
      ActNeverBindsWatcher(s, acts[0], w);
      hide NotBound, ActPath;
      var path := ActPath(s, acts[0], w);
      ActsNeverBindWatcher(Last(s, path), acts[1..], w);
      PathConcat(s, path, ActsPath(Last(s, path), acts[1..], w));
    }
  }

  /** Once a rebuild has failed to re-arm the cgroup watcher, no sequence of reloads binds it again: it stays alive and
      deaf, attribution running on what the table already holds. */
  lemma {:induction false} LostWatcherStaysLost(s: State, files: seq<(File, World)>)
    requires NotBound(s.loop, WatcherObj)
    ensures NotBound(Reloads(s, files).loop, WatcherObj)
    decreases |files|
  {
    if files != [] {
      var next, w := files[0].0, files[0].1;
      if DiffForReload(s.config, next).Some? {
        ActsNeverBindWatcher(s, Plan(DiffForReload(s.config, next).value, next), w);
      }
      LostWatcherStaysLost(DaemonSteps.Reload(s, next, w), files[1..]);
    }
  }

  // ---------------------------------------------------------------- exactly when

  /** The removal of `id` rebuilds the loop, and the watcher's buffer is the one that does not re-arm. */
  predicate LosesWatcher(s: State, id: string, w: World) {
    var i := IndexOfId(s.probes, id);
    i < |s.probes|
    && var probe := Component(ProbeKind, s.probes[i]);
    Bound(s.loop, probe) && !w.rearms(id)(IndexOfProbe(Others(s.loop, probe), WatcherObj))
  }

  /** Of distinct bindings, one survives the rebuild exactly when it re-arms. */
  lemma SurvivesExactly(bs: seq<Binding<Obj>>, rearms: nat -> bool, o: Obj)
    requires DistinctProbes(bs) && IndexOfProbe(bs, o) < |bs|
    ensures (exists i :: 0 <= i < |Pick(bs, rearms, true)| && Pick(bs, rearms, true)[i].probe == o) <==>
            rearms(IndexOfProbe(bs, o))
  {
    var at, kept := IndexOfProbe(bs, o), Pick(bs, rearms, true);
    var order := PickIsOrdered(bs, rearms, true);
    hide Pick, IndexOfProbe;
    if rearms(at) {
      assert at in order;
      var k :| 0 <= k < |order| && order[k] == at;
      assert kept[k] == bs[at];
    }
    if i :| 0 <= i < |kept| && kept[i].probe == o {
      assert bs[order[i]] == kept[i];
      assert order[i] == at;
    }
  }

  lemma OthersKeep(loop: Loop<Obj>, probe: Obj, o: Obj)
    requires !NotBound(loop, o) && o != probe
    ensures IndexOfProbe(Others(loop, probe), o) < |Others(loop, probe)|
  {
    var i :| 0 <= i < |loop.bindings| && loop.bindings[i].probe == o;
    var at, others := IndexOfProbe(loop.bindings, probe), Others(loop, probe);
    assert others[if i < at then i else i - 1].probe == o;
  }

  lemma UnbindLosesExactly(loop: Loop<Obj>, probe: Obj, rearms: nat -> bool)
    requires DistinctProbes(loop.bindings) && !NotBound(loop, WatcherObj) && probe != WatcherObj
    ensures NotBound(Unbind(loop, probe, rearms), WatcherObj) <==>
            Bound(loop, probe) && !rearms(IndexOfProbe(Others(loop, probe), WatcherObj))
  {
    OthersKeep(loop, probe, WatcherObj);
    OthersAreOthers(loop, probe);
    hide Others, Pick, IndexOfProbe;
    var after, others := Unbind(loop, probe, rearms), Others(loop, probe);
    if Bound(loop, probe) {
      SurvivesExactly(others, rearms, WatcherObj);
      assert after.bindings == Pick(others, rearms, true);
      assert NotBound(after, WatcherObj) <==>
        !exists i :: 0 <= i < |after.bindings| && after.bindings[i].probe == WatcherObj;
    } else {
      assert after == loop;
    }
  }

  /** The removal that should detach and forget what it drops forgets the watcher only as far as the loop goes: bound
      before, it is unbound afterwards exactly when the probe was bound and the watcher's buffer does not re-arm. */
  lemma RemovalLosesExactly(s: State, id: string, w: World)
    requires Core(s) && !NotBound(s.loop, WatcherObj)
    ensures NotBound(Last(s, RemoveProbePath(s, id, w)).loop, WatcherObj) <==> LosesWatcher(s, id, w)
    ensures Core(Last(s, RemoveProbePath(s, id, w)))
    ensures WatcherObj in Last(s, RemoveProbePath(s, id, w)).alive
  {
    CoreFacts(s);
    RemoveProbeKeeps(s, id, w);
    DropProbeEffect(s, id, w);
    var i := IndexOfId(s.probes, id);
    if i < |s.probes| {
      var probe := Component(ProbeKind, s.probes[i]);
      var s1 := s.(loop := Unbind(s.loop, probe, w.rearms(id)));
      RemovedEnd(s, i, id, w);
      ForgetKeepsLoop(s1, [probe] + AlsoDropped(s.loop, probe, w.rearms(id)));
      UnbindLosesExactly(s.loop, probe, w.rearms(id));
    }
    hide Core, NotBound, Unbind, AlsoDropped, ForgetPath, RemoveProbePath, AllSafe, Bound, Others, GoodEffect;
  }

  /** No other act of a reload loses it. */
  lemma ActLosesExactly(s: State, act: Act, w: World)
    requires Core(s) && !NotBound(s.loop, WatcherObj)
    ensures NotBound(Last(s, ActPath(s, act, w)).loop, WatcherObj) <==>
            act.Drop? && act.kind.ProbeKind? && LosesWatcher(s, act.id, w)
  {
    if act.Drop? && act.kind.ProbeKind? {
      RemovalLosesExactly(s, act.id, w);
      hide Core, NotBound, RemoveProbePath, LosesWatcher;
    } else {
      var i :| 0 <= i < |s.loop.bindings| && s.loop.bindings[i].probe == WatcherObj;
      OtherActsKeepBindings(s, act, w);
      hide Core, ActPath, LosesWatcher;
    }
  }

  lemma OtherActsKeepBindings(s: State, act: Act, w: World)
    requires !(act.Drop? && act.kind.ProbeKind?)
    ensures s.loop.bindings <= Last(s, ActPath(s, act, w)).loop.bindings
  {
    hide Load, Unload;
  }

  // ---------------------------------------------------------------- from a fresh start

  lemma AddedIsBound(s: State, id: string, plugin: string, w: World)
    requires Good(w) && w.hasRing(id)
    ensures var s', slot := Last(s, AddProbePath(s, id, plugin, w)), Slot(id, s.gen);
            s'.probes == s.probes + [slot] && s'.loop.bindings == s.loop.bindings + [BindingOf(slot)]
  {
    hide Load, Unload;
    assert w.opens(ProbeKind, id).Built? && w.starts(id) && w.arms(id);
  }

  lemma OneAct(s: State, act: Act, w: World)
    ensures ActsPath(s, [act], w) == ActPath(s, act, w)
  {
    hide ActPath;
    assert [act][1..] == [];
  }

  /** A daemon started with a single probe has the watcher bound before it. */
  lemma StartedWithOne(config: File, b: Bringup, w: World, id: string)
    requires WellFormed(config) && config.sinks != [] && Ids(config.probes) == [id]
    requires Attempted(Fresh(config), b) && !b.WatcherFails() && b.hasRing && Good(w) && w.hasRing(id)
    ensures var s := Last(Fresh(config), StartPath(Fresh(config), b, w));
            |s.probes| == 1 && s.probes[0].id == id && s.loop.bindings == [WATCHER_BINDING, BindingOf(s.probes[0])]
  {
    hide Core, Fit, Good, AllSafe, StartPath, ActsPath, AddProbePath, SinksUp, PluginFor;
    SinksUpKeeps(config, w);
    SinksComeUp(config, w);
    var s1, s2 := SinksUp(Fresh(config), w), ServicesUp(Fresh(config), b, w);
    ServicesKeep(s1, b);
    StartEnds(config, b, w);
    var plugin := PluginAt(config.probes, id);
    assert ProbeActs(config) == [New(ProbeKind, id, plugin)];
    OneAct(s2, New(ProbeKind, id, plugin), w);
    AddedIsBound(s2, id, plugin, w);
    assert s2.loop.bindings == [WATCHER_BINDING] && s2.probes == [];
  }

  /** Reloading without the single probe removes it and nothing else. */
  lemma ReloadWithoutOne(s: State, id: string, w: World)
    requires WellFormed(s.config) && Ids(s.config.probes) == [id]
    ensures DaemonSteps.Reload(s, s.config.(probes := []), w).loop == Last(s, RemoveProbePath(s, id, w)).loop
  {
    hide RemoveProbePath, PluginFor, PluginAt;
    var next := s.config.(probes := []);
    assert |Ids(s.config.probes)| == 1 && Ids(s.config.probes)[0] == id;
    assert s.config.probes == [s.config.probes[0]];
    NothingMissing(s.config.sinks, next.sinks, SinkKind, s.config, next);
    OneMissing(s.config.probes[0]);
    assert Plan(DiffForReload(s.config, next).value, next) == [Drop(ProbeKind, id)];
    OneAct(s, Drop(ProbeKind, id), w);
  }

  lemma OneMissing(entry: (string, Settings))
    ensures Missing([entry], []) == [entry.0] && Missing([], [entry]) == []
  {
    assert [entry][..0] == [];
  }

  /** From a fresh start: whatever the configuration with a single probe, removing that probe by a reload in which no
      buffer re-arms leaves the daemon running with its watcher alive and deaf. */
  lemma ReloadCanLoseWatcher(config: File, b: Bringup, w: World, id: string, w': World)
    requires WellFormed(config) && config.sinks != [] && Ids(config.probes) == [id]
    requires Attempted(Fresh(config), b) && !b.WatcherFails() && b.hasRing && Good(w) && w.hasRing(id)
    requires !w'.rearms(id)(0)
    ensures Started(Fresh(config), b, w)
    ensures var s := Last(Fresh(config), StartPath(Fresh(config), b, w));
            var s' := DaemonSteps.Reload(s, config.(probes := []), w');
            Inv(s) && !NotBound(s.loop, WatcherObj) && Inv(s') && NotBound(s'.loop, WatcherObj)
  {
    hide Core, Inv, Fit, Good, AllSafe, AllRun, StartPath, RemoveProbePath, ReloadPath;
    StartSucceeds(config, b, w);
    StartedWithOne(config, b, w, id);
    var s := Last(Fresh(config), StartPath(Fresh(config), b, w));
    InvIsCore(s);
    StartKeepsConfig(config, b, w);
    ReloadWithoutOne(s, id, w');
    RemovalLosesExactly(s, id, w');
    LosesTheOnly(s, id, w');
    ReloadKeepsInv(s, config.(probes := []), w');
  }

  lemma InvIsCore(s: State)
    requires Inv(s)
    ensures Core(s) && WellFormed(s.config)
  {
    hide Core, Fit;
  }

  lemma LosesTheOnly(s: State, id: string, w: World)
    requires |s.probes| == 1 && s.probes[0].id == id && s.loop.bindings == [WATCHER_BINDING, BindingOf(s.probes[0])]
    ensures LosesWatcher(s, id, w) <==> !w.rearms(id)(0)
  {
    var probe := Component(ProbeKind, s.probes[0]);
    assert IndexOfProbe(s.loop.bindings, probe) == 1;
    assert Others(s.loop, probe) == [WATCHER_BINDING];
  }

  const ONE_PROBE: File :=
    File("", "", "", "/plugins", 1, 0, false, [("exec", map[])], [("stdout_json", map[])])

  const ALL_WELL: World := World((kind, id) => Built, id => true, id => true, id => true, id => n => true)

  const NONE_REARM: World := ALL_WELL.(rearms := id => n => false)

  const ALL_UP: Bringup := Bringup(true, true, true, true, true)

  /** One such daemon, so this does happen. */
  lemma WatcherIsLost()
    ensures var s := Last(Fresh(ONE_PROBE), StartPath(Fresh(ONE_PROBE), ALL_UP, ALL_WELL));
            var s' := DaemonSteps.Reload(s, ONE_PROBE.(probes := []), NONE_REARM);
            Started(Fresh(ONE_PROBE), ALL_UP, ALL_WELL) && Inv(s) && !NotBound(s.loop, WatcherObj)
            && Inv(s') && NotBound(s'.loop, WatcherObj)
  {
    hide Inv, StartPath, ReloadPath, Started, DaemonSteps.Reload, Last;
    assert Ids(ONE_PROBE.probes) == ["exec"];
    ReloadCanLoseWatcher(ONE_PROBE, ALL_UP, ALL_WELL, "exec", NONE_REARM);
  }
}

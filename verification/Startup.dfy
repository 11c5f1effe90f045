/** Bringing the daemon up (start in src/core/daemon.cpp): sinks, the pipeline, the cgroup watcher, probes, in that
    order. */
module Startup {
  import opened Text
  import opened EventLoop
  import opened Config
  import opened Loader
  import opened DaemonSteps
  import opened Reload

  /** What starting finds outside: the cgroup root, the bootstrap scan, and how the watcher comes up. */
  datatype Bringup = Bringup(rootFound: bool, resolverStarts: bool, watcherStarts: bool, hasRing: bool, arms: bool) {
    predicate WatcherFails() {
      !watcherStarts || (hasRing && !arms)
    }
  }

  const WATCHER_BINDING: Binding<Obj> := Binding(WatcherObj, PipelineObj)

  function Ids(cs: Components): seq<string> {
    seq(|cs|, i requires 0 <= i < |cs| => cs[i].0)
  }

  /** A daemon just constructed. */
  function Fresh(config: File): State {
    State(config, [], [], Handles(config.pluginDir, map[], map[], multiset{}), Loop(None, []), [], {}, 0)
  }

  function SinkActs(config: File): seq<Act> {
    News(SinkKind, Ids(config.sinks), config.sinks)
  }

  function ProbeActs(config: File): seq<Act> {
    News(ProbeKind, Ids(config.probes), config.probes)
  }

  /** The pipeline over the sinks already there, then the watcher; a watcher that fails is destroyed again. */
  function ServicesPath(s: State, b: Bringup): seq<State> {
    var s1 := s.(alive := s.alive + {PipelineObj});
    var s2 := s1.(wired := Wired(s1.alive, s1.sinks));
    var s3 := s2.(alive := s2.alive + {WatcherObj});
    [s1, s2, s3,
     if b.WatcherFails() then s3.(alive := s3.alive - {WatcherObj})
     else s3.(loop := Bind(s3.loop, WATCHER_BINDING, b.hasRing, b.arms))]
  }

  predicate Attempted(s: State, b: Bringup) {
    s.config.pluginDir != "" && b.rootFound && b.resolverStarts
  }

  function SinksUp(s: State, w: World): State {
    Last(s, ActsPath(s, SinkActs(s.config), w))
  }

  function ServicesUp(s: State, b: Bringup, w: World): State {
    Last(SinksUp(s, w), ServicesPath(SinksUp(s, w), b))
  }

  /** Starting stops where something is missing that it cannot do without. */
  function StartPath(s: State, b: Bringup, w: World): seq<State> {
    if !Attempted(s, b) then []
    else
      var sinks := ActsPath(s, SinkActs(s.config), w);
      if SinksUp(s, w).sinks == [] then sinks
      else if b.WatcherFails() then sinks + ServicesPath(SinksUp(s, w), b)
      else
        sinks + ServicesPath(SinksUp(s, w), b) + ActsPath(ServicesUp(s, b, w), ProbeActs(s.config), w)
  }

  predicate Started(s: State, b: Bringup, w: World) {
    && Attempted(s, b) && SinksUp(s, w).sinks != [] && !b.WatcherFails()
    && Last(s, StartPath(s, b, w)).probes != []
  }

  // ---------------------------------------------------------------- safe at every step

  lemma FreshIsCore(config: File)
    ensures Core(Fresh(config))
  {
  }

  lemma NewsTarget(cs: Components, k: nat)
    requires DistinctIds(cs) && k < |cs|
    ensures PluginFor(cs, cs[k].0) == Some(PluginAt(cs, cs[k].0))
  {
    LookupOf(cs, k);
  }

  /** Loading everything a file configures of one kind, when nothing of that kind runs. */
  lemma NewsAreReady(s: State, kind: Kind, config: File)
    requires WellFormed(config) && s.handles.Of(kind) == map[]
    ensures var cs := Configured(config, kind);
            Ready(s, News(kind, Ids(cs), cs)) && Targets(News(kind, Ids(cs), cs), config)
  {
    var cs := Configured(config, kind);
    var acts := News(kind, Ids(cs), cs);
    forall k | 0 <= k < |acts|
      ensures PluginFor(Configured(config, acts[k].kind), acts[k].id) == Some(acts[k].plugin)
    {
      NewsTarget(cs, k);
    }
    hide PluginFor, PluginAt;
  }

  /** Loading sinks leaves everything but sinks alone. */
  lemma {:induction false} SinksOnly(s: State, acts: seq<Act>, w: World)
    requires forall k :: 0 <= k < |acts| ==> acts[k].New? && acts[k].kind.SinkKind?
    ensures var s' := Last(s, ActsPath(s, acts, w));
            s'.handles.probes == s.handles.probes && s'.probes == s.probes && s'.loop == s.loop
    decreases |acts|
  {
    if acts != [] {
      var path := ActPath(s, acts[0], w);
      SinksOnly(Last(s, path), acts[1..], w);
      PathConcat(s, path, ActsPath(Last(s, path), acts[1..], w));
    }
  }

  lemma AliveServices(alive: set<Obj>, sinks: seq<Slot>, probes: seq<Slot>, o: Obj)
    requires AliveExactly(alive, sinks, probes) && Service(o)
    ensures AliveExactly(alive + {o}, sinks, probes) && AliveExactly(alive - {o}, sinks, probes)
  {
  }

  lemma SafeWithService(s: State, o: Obj)
    requires Safe(s) && Service(o)
    ensures Safe(s.(alive := s.alive + {o}))
  {
    hide RefsAlive, Held, Balanced;
    RefsGrow(s.loop, s.wired, s.alive, {o});
    HeldOther(s.alive, ProbeKind, s.handles.probes, o);
    HeldOther(s.alive, SinkKind, s.handles.sinks, o);
  }

  lemma PipelineIsCore(s: State)
    requires Core(s)
    ensures var s1 := s.(alive := s.alive + {PipelineObj}); Core(s1.(wired := Wired(s1.alive, s1.sinks)))
  {
    hide Balanced, AliveExactly, HandlesMatch, LoopKnown, Older, Backed, SinkPointers;
    CoreFacts(s);
    AliveServices(s.alive, s.sinks, s.probes, PipelineObj);
    BackedGrows(s.loop, s.alive, {PipelineObj});
  }

  lemma WatcherIsCore(s: State)
    requires Core(s) && NotBound(s.loop, WatcherObj)
    ensures Core(s.(alive := s.alive + {WatcherObj})) && Core(s.(alive := s.alive + {WatcherObj} - {WatcherObj}))
  {
    hide Balanced, AliveExactly, HandlesMatch, LoopKnown, Older, SinkPointers, NotBound;
    CoreFacts(s);
    AliveServices(s.alive, s.sinks, s.probes, WatcherObj);
    AliveServices(s.alive + {WatcherObj}, s.sinks, s.probes, WatcherObj);
  }

  lemma BoundIsCore(s: State, hasRing: bool, arms: bool)
    requires Core(s) && NotBound(s.loop, WatcherObj) && WatcherObj in s.alive && PipelineObj in s.alive
    ensures Core(s.(loop := Bind(s.loop, WATCHER_BINDING, hasRing, arms)))
  {
    hide Balanced, AliveExactly, HandlesMatch, Older, Wired, Known;
    assert Known(WATCHER_BINDING, s.probes) by {
      KnownWatcher(s.probes);
    }
  }

  lemma KnownWatcher(probes: seq<Slot>)
    ensures Known(WATCHER_BINDING, probes)
  {
  }

  lemma ServicesKeep(s: State, b: Bringup)
    requires Core(s) && NotBound(s.loop, WatcherObj)
    ensures var path := ServicesPath(s, b);
            && AllSafe(path) && Core(Last(s, path))
            && (!b.WatcherFails() ==> WatcherObj in Last(s, path).alive && PipelineObj in Last(s, path).alive)
            && Last(s, path).handles == s.handles && Last(s, path).config == s.config
            && Last(s, path).probes == s.probes
  {
    var s1 := s.(alive := s.alive + {PipelineObj});
    var s2 := s1.(wired := Wired(s1.alive, s1.sinks));
    var s3 := s2.(alive := s2.alive + {WatcherObj});
    CoreIsSafe(s);
    SafeWithService(s, PipelineObj);
    PipelineIsCore(s);
    CoreIsSafe(s2);
    WatcherIsCore(s2);
    CoreIsSafe(s3);
    if b.WatcherFails() {
      CoreIsSafe(s2.(alive := s2.alive + {WatcherObj} - {WatcherObj}));
    } else {
      BoundIsCore(s3, b.hasRing, b.arms);
      CoreIsSafe(s3.(loop := Bind(s3.loop, WATCHER_BINDING, b.hasRing, b.arms)));
    }
    hide Core, Safe, Wired, Bind, NotBound;
  }

  lemma SinksUpKeeps(config: File, w: World)
    requires WellFormed(config)
    ensures var s := Fresh(config); var s' := SinksUp(s, w);
            && AllSafe(ActsPath(s, SinkActs(config), w)) && Core(s') && Fit(s', [], config)
            && s'.config == config && s'.handles.dir == config.pluginDir
            && s'.handles.probes == map[] && s'.probes == [] && s'.loop == Loop(None, [])
  {
    var s := Fresh(config);
    FreshIsCore(config);
    NewsAreReady(s, SinkKind, config);
    ActsKeep(s, SinkActs(config), w, config);
    SinksOnly(s, SinkActs(config), w);
    hide Core, Ready, Targets, ActsPath, AllSafe;
  }

  lemma FitLater(s: State, acts: seq<Act>, next: File)
    requires Fit(s, [], next)
    ensures Fit(s, acts, next)
  {
    forall kind, id | id in s.handles.Of(kind)
      ensures Fits(s, kind, id, next)
    {
      assert Fits(s, kind, id, next) || Drop(kind, id) in [];
    }
  }

  /** After the services, the probes. */
  lemma ProbesUpKeep(s: State, config: File, w: World)
    requires Core(s) && WellFormed(config) && Fit(s, [], config) && s.config == config
    requires s.handles.dir == config.pluginDir && s.handles.probes == map[]
    requires WatcherObj in s.alive && PipelineObj in s.alive
    ensures AllSafe(ActsPath(s, ProbeActs(config), w)) && Inv(Last(s, ActsPath(s, ProbeActs(config), w)))
  {
    NewsAreReady(s, ProbeKind, config);
    FitLater(s, ProbeActs(config), config);
    ActsKeep(s, ProbeActs(config), w, config);
    hide Core, Ready, Targets, Fit, ActsPath, AllSafe;
  }

  /** However starting goes: safe at every step, consistent where it stops, and when it succeeds the reload invariant
      holds. */
  lemma StartEstablishesInv(config: File, b: Bringup, w: World)
    requires WellFormed(config)
    ensures AllSafe(StartPath(Fresh(config), b, w)) && Core(Last(Fresh(config), StartPath(Fresh(config), b, w)))
    ensures Started(Fresh(config), b, w) ==> Inv(Last(Fresh(config), StartPath(Fresh(config), b, w)))
  {
    var s := Fresh(config);
    FreshIsCore(config);
    if Attempted(s, b) {
      SinksUpKeeps(config, w);
      var s1, sinks := SinksUp(s, w), ActsPath(s, SinkActs(config), w);
      if s1.sinks != [] {
        ServicesKeep(s1, b);
        var s2, services := ServicesUp(s, b, w), ServicesPath(s1, b);
        PathConcat(s, sinks, services);
        if !b.WatcherFails() {
          FitElsewhere(s1, s2, config);
          ProbesUpKeep(s2, config, w);
          PathConcat(s, sinks + services, ActsPath(s2, ProbeActs(config), w));
        }
      }
    }
    hide Core, Inv, Fit, AllSafe, ActsPath, ServicesPath, SinkActs, ProbeActs;
  }

  lemma FitElsewhere(s: State, s': State, next: File)
    requires Fit(s, [], next) && s'.handles == s.handles
    ensures Fit(s', [], next)
  {
    forall kind, id | id in s'.handles.Of(kind)
      ensures Fits(s', kind, id, next) || Drop(kind, id) in []
    {
      assert Fits(s, kind, id, next) || Drop(kind, id) in [];
    }
  }

  // ---------------------------------------------------------------- and when nothing fails

  lemma NewsName(kind: Kind, cs: Components, id: string)
    ensures PluginFor(cs, id).Some? ==> ToAdd(News(kind, Ids(cs), cs), kind, id)
    ensures forall k :: Drop(k, id) !in News(kind, Ids(cs), cs)
  {
    var acts := News(kind, Ids(cs), cs);
    if PluginFor(cs, id).Some? {
      var i :| 0 <= i < |cs| && cs[i] == (id, Lookup(cs, id).value);
      assert acts[i].New? && acts[i].kind == kind && acts[i].id == id;
    }
    hide PluginAt, PluginFor;
  }

  /** Carrying out additions binds more, never less. */
  lemma {:induction false} NewsKeepBindings(s: State, acts: seq<Act>, w: World)
    requires forall k :: 0 <= k < |acts| ==> acts[k].New?
    ensures s.loop.bindings <= Last(s, ActsPath(s, acts, w)).loop.bindings
    decreases |acts|
  {
    if acts != [] {
      var path := ActPath(s, acts[0], w);
      NewKeepsBindings(s, acts[0], w);
      hide ActPath;
      NewsKeepBindings(Last(s, path), acts[1..], w);
      PathConcat(s, path, ActsPath(Last(s, path), acts[1..], w));
    }
  }

  lemma NewKeepsBindings(s: State, act: Act, w: World)
    requires act.New?
    ensures s.loop.bindings <= Last(s, ActPath(s, act, w)).loop.bindings
  {
    hide Load, Unload;
  }

  /** All of the kind that the file configures runs after loading it. */
  lemma NewsAllRun(s: State, kind: Kind, config: File, w: World)
    requires Core(s) && WellFormed(config) && Good(w) && s.handles.Of(kind) == map[]
    ensures var cs := Configured(config, kind);
            var s' := Last(s, ActsPath(s, News(kind, Ids(cs), cs), w));
            && (forall id :: PluginFor(cs, id).Some? ==> id in s'.handles.Of(kind))
            && (forall id :: id in s.handles.Of(OtherKind(kind)) ==> id in s'.handles.Of(OtherKind(kind)))
  {
    var cs := Configured(config, kind);
    var acts := News(kind, Ids(cs), cs);
    NewsAreReady(s, kind, config);
    ActsRunExactly(s, acts, w);
    var s' := Last(s, ActsPath(s, acts, w));
    hide Core, Ready, Targets, Good, PluginFor, News, ActsPath, Last, ToAdd;
    forall id
      ensures PluginFor(cs, id).Some? ==> id in s'.handles.Of(kind)
      ensures id in s.handles.Of(OtherKind(kind)) ==> id in s'.handles.Of(OtherKind(kind))
    {
      NewsName(kind, cs, id);
    }
  }

  lemma RunningMeansListed(s: State, kind: Kind, id: string)
    requires Core(s) && id in s.handles.Of(kind)
    ensures s.Slots(kind) != []
  {
    CoreFacts(s);
    assert HandlesMatch(s.Slots(kind), s.handles.Of(kind));
  }

  lemma FirstIsConfigured(cs: Components)
    requires DistinctIds(cs) && cs != []
    ensures PluginFor(cs, cs[0].0).Some?
  {
    LookupOf(cs, 0);
  }

  lemma SinksComeUp(config: File, w: World)
    requires WellFormed(config) && config.sinks != [] && Good(w)
    ensures var s := SinksUp(Fresh(config), w);
            s.sinks != [] && forall id :: PluginFor(config.sinks, id).Some? ==> id in s.handles.sinks
  {
    SinksUpKeeps(config, w);
    FreshIsCore(config);
    NewsAllRun(Fresh(config), SinkKind, config, w);
    FirstIsConfigured(config.sinks);
    RunningMeansListed(SinksUp(Fresh(config), w), SinkKind, config.sinks[0].0);
    hide Core, Fit, Good, AllSafe, ActsPath, PluginFor;
  }

  lemma ProbesComeUp(s: State, config: File, w: World)
    requires Core(s) && WellFormed(config) && Good(w) && s.config == config && config.probes != []
    requires s.handles.probes == map[] && Fit(s, [], config) && s.handles.dir == config.pluginDir
    requires forall id :: PluginFor(config.sinks, id).Some? ==> id in s.handles.sinks
    ensures var s' := Last(s, ActsPath(s, ProbeActs(config), w));
            s'.config == config && s'.probes != [] && AllRun(s')
  {
    hide Core, Fit, Good, AllRun, ActsPath, PluginFor, News, Ids, Last;
    NewsAllRun(s, ProbeKind, config, w);
    ProbesAreCore(s, config, w);
    FirstIsConfigured(config.probes);
    var s' := Last(s, ActsPath(s, ProbeActs(config), w));
    RunningMeansListed(s', ProbeKind, config.probes[0].0);
    assert OtherKind(ProbeKind) == SinkKind && s.handles.Of(SinkKind) == s.handles.sinks;
    BothKindsRun(s');
  }

  lemma ProbesAreCore(s: State, config: File, w: World)
    requires Core(s) && WellFormed(config) && Fit(s, [], config) && s.config == config && s.handles.probes == map[]
    ensures var s' := Last(s, ActsPath(s, ProbeActs(config), w)); Core(s') && s'.config == config
  {
    NewsAreReady(s, ProbeKind, config);
    FitLater(s, ProbeActs(config), config);
    ActsKeep(s, ProbeActs(config), w, config);
    hide Core, Fit, Ready, Targets, AllSafe, ActsPath;
  }

  lemma BothKindsRun(s: State)
    requires forall id :: PluginFor(s.config.sinks, id).Some? ==> id in s.handles.sinks
    requires forall id :: PluginFor(s.config.probes, id).Some? ==> id in s.handles.probes
    ensures AllRun(s)
  {
    hide PluginFor;
  }

  lemma WatcherIsBound(s: State, b: Bringup, config: File, w: World)
    requires Core(s) && NotBound(s.loop, WatcherObj) && !b.WatcherFails() && b.hasRing
    ensures var s2 := Last(s, ServicesPath(s, b));
            !NotBound(Last(s2, ActsPath(s2, ProbeActs(config), w)).loop, WatcherObj)
  {
    var s2 := Last(s, ServicesPath(s, b));
    var s3 := Last(s2, ActsPath(s2, ProbeActs(config), w));
    NewsKeepBindings(s2, ProbeActs(config), w);
    var n := |s.loop.bindings|;
    assert s2.loop.bindings == s.loop.bindings + [WATCHER_BINDING];
    assert s3.loop.bindings[n] == s2.loop.bindings[n] == WATCHER_BINDING;
    hide ActsPath, Core, ServicesPath;
  }

  /** With something configured of either kind and nothing failing, starting succeeds with everything configured running
      and the watcher bound. */
  lemma StartSucceeds(config: File, b: Bringup, w: World)
    requires WellFormed(config) && config.sinks != [] && config.probes != []
    requires Attempted(Fresh(config), b) && !b.WatcherFails() && Good(w)
    ensures var s := Last(Fresh(config), StartPath(Fresh(config), b, w));
            Started(Fresh(config), b, w) && Inv(s) && AllRun(s) && (b.hasRing ==> !NotBound(s.loop, WatcherObj))
  {
    SinksUpKeeps(config, w);
    SinksComeUp(config, w);
    var s1, s2 := SinksUp(Fresh(config), w), ServicesUp(Fresh(config), b, w);
    ServicesKeep(s1, b);
    FitElsewhere(s1, s2, config);
    ProbesComeUp(s2, config, w);
    StartEnds(config, b, w);
    StartEstablishesInv(config, b, w);
    if b.hasRing {
      WatcherIsBound(s1, b, config, w);
    }
    hide Core, Inv, Fit, AllSafe, AllRun, Good, SinksUp, ServicesPath, ActsPath, StartPath, PluginFor;
  }

  /** So, all else succeeding, starting succeeds exactly when the watcher comes up: losing it does stop the daemon. */
  lemma StartNeedsWatcher(config: File, b: Bringup, w: World)
    requires WellFormed(config) && config.sinks != [] && config.probes != []
    requires Attempted(Fresh(config), b) && Good(w)
    ensures Started(Fresh(config), b, w) <==> b.watcherStarts && (b.hasRing ==> b.arms)
  {
    if !b.WatcherFails() {
      StartSucceeds(config, b, w);
    }
    hide StartPath, SinksUp, Good, Inv, AllRun;
  }

  /** Loading probes leaves the sinks alone. */
  lemma {:induction false} ProbesOnly(s: State, acts: seq<Act>, w: World)
    requires forall k :: 0 <= k < |acts| ==> acts[k].New? && acts[k].kind.ProbeKind?
    ensures Last(s, ActsPath(s, acts, w)).sinks == s.sinks
    decreases |acts|
  {
    if acts != [] {
      var path := ActPath(s, acts[0], w);
      ProbeAlone(s, acts[0], w);
      hide ActPath;
      ProbesOnly(Last(s, path), acts[1..], w);
      PathConcat(s, path, ActsPath(Last(s, path), acts[1..], w));
    }
  }

  lemma ProbeAlone(s: State, act: Act, w: World)
    requires act.New? && act.kind.ProbeKind?
    ensures Last(s, ActPath(s, act, w)).sinks == s.sinks
  {
    hide Load, Unload, Bind;
  }

  /** A start that succeeds has a sink to write to and a probe to hear from, and found what it cannot do without. */
  lemma StartedIsUseful(config: File, b: Bringup, w: World)
    requires Started(Fresh(config), b, w)
    ensures var s := Last(Fresh(config), StartPath(Fresh(config), b, w));
            s.sinks != [] && s.probes != []
    ensures config.pluginDir != "" && b.rootFound && b.resolverStarts && b.watcherStarts && (b.hasRing ==> b.arms)
  {
    hide ActsPath, StartPath;
    StartEnds(config, b, w);
    var s1, s2 := SinksUp(Fresh(config), w), ServicesUp(Fresh(config), b, w);
    ServicesKeepSinks(s1, b);
    hide ServicesPath, SinksUp;
    ProbesOnly(s2, ProbeActs(config), w);
  }

  lemma ServicesKeepSinks(s: State, b: Bringup)
    ensures Last(s, ServicesPath(s, b)).sinks == s.sinks
  {
    hide Bind;
  }

  lemma StartKeepsConfig(config: File, b: Bringup, w: World)
    requires WellFormed(config)
    ensures Last(Fresh(config), StartPath(Fresh(config), b, w)).config == config
  {
    hide Core, Inv, Fit, AllSafe, ActsPath, Started;
    SinksUpKeeps(config, w);
    if Attempted(Fresh(config), b) && SinksUp(Fresh(config), w).sinks != [] {
      var s1, s2 := SinksUp(Fresh(config), w), ServicesUp(Fresh(config), b, w);
      ServicesKeep(s1, b);
      PathConcat(Fresh(config), ActsPath(Fresh(config), SinkActs(config), w), ServicesPath(s1, b));
      if !b.WatcherFails() {
        FitElsewhere(s1, s2, config);
        ProbesAreCore(s2, config, w);
        StartEnds(config, b, w);
      }
    }
  }

  lemma StartEnds(config: File, b: Bringup, w: World)
    requires Attempted(Fresh(config), b) && !b.WatcherFails() && SinksUp(Fresh(config), w).sinks != []
    ensures var s2 := ServicesUp(Fresh(config), b, w);
            Last(Fresh(config), StartPath(Fresh(config), b, w)) == Last(s2, ActsPath(s2, ProbeActs(config), w))
  {
    var s, s1, s2 := Fresh(config), SinksUp(Fresh(config), w), ServicesUp(Fresh(config), b, w);
    var sinks, services := ActsPath(s, SinkActs(config), w), ServicesPath(s1, b);
    var probes := ActsPath(s2, ProbeActs(config), w);
    PathConcat(s, sinks, services);
    PathConcat(s, sinks + services, probes);
    hide ActsPath, ServicesPath, SinkActs, ProbeActs;
  }

  /** The three ways of not getting past the sinks. */
  lemma StartEndsEarly(config: File, b: Bringup, w: World)
    ensures var s := Fresh(config); var sinks := ActsPath(s, SinkActs(config), w);
            && (!Attempted(s, b) ==> StartPath(s, b, w) == [] && Last(s, []) == s)
            && (Attempted(s, b) && Last(s, sinks).sinks == [] ==> StartPath(s, b, w) == sinks)
  {
    hide ActsPath, SinkActs;
  }

  /** Past the sinks: the services, and the probes if those came up. */
  lemma StartInParts(config: File, b: Bringup, w: World)
    requires Attempted(Fresh(config), b) && SinksUp(Fresh(config), w).sinks != []
    ensures var s := Fresh(config); var sinks := ActsPath(s, SinkActs(config), w); var s1 := Last(s, sinks);
            var services := ServicesPath(s1, b);
            var s2 := Last(s1, services);
            var rest := if b.WatcherFails() then [] else ActsPath(s2, ProbeActs(config), w);
            && StartPath(s, b, w) == sinks + (services + rest) && Last(s, StartPath(s, b, w)) == Last(s2, rest)
            && (Started(s, b, w) <==> !b.WatcherFails() && Last(s2, rest).probes != [])
  {
    hide ActsPath, SinkActs, ServicesPath, ProbeActs;
    var s := Fresh(config); var sinks := ActsPath(s, SinkActs(config), w); var s1 := Last(s, sinks);
    var services := ServicesPath(s1, b);
    var s2 := Last(s1, services);
    var rest := if b.WatcherFails() then [] else ActsPath(s2, ProbeActs(config), w);
    PathConcat(s, sinks, services);
    PathConcat(s, sinks + services, rest);
    assert sinks + services + rest == sinks + (services + rest);
  }
}

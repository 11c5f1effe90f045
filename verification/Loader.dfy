/** Opening and closing plugins, and the references that keeps on their files (src/core/plugin_loader.cpp). */
module Loader {

  datatype Kind = ProbeKind | SinkKind

  function KindName(kind: Kind): string {
    if kind.ProbeKind? then "probe" else "sink"
  }

  function PluginPath(dir: string, kind: Kind, name: string): string {
    dir + "/" + KindName(kind) + "s/libst_" + KindName(kind) + "_" + name + ".so"
  }

  /** Different plugins are different files. */
  lemma PluginPathsDiffer(dir: string, kind: Kind, name: string, kind': Kind, name': string)
    ensures PluginPath(dir, kind, name) == PluginPath(dir, kind', name') <==> kind == kind' && name == name'
  {
    var a, b := PluginPath(dir, kind, name), PluginPath(dir, kind', name');
    if a == b {
      var n := |dir| + 1;
      assert a[n] == KindName(kind)[0] && b[n] == KindName(kind')[0];
      var m := |dir| + 1 + |KindName(kind)| + |"s/libst_"| + |KindName(kind)| + 1;
      assert a[m..|a| - 3] == name && b[m..|b| - 3] == name';
    }
  }

  /** How opening one plugin goes: dlopen, dlsym, the registered name, the factory. */
  datatype Opened = NoFile | NoEntryPoint | RegistersOther | RejectsSettings | Built

  /** The handle maps, a handle standing for the file it opened, and how often each file is held open. */
  datatype Handles = Handles(dir: string, probes: map<string, string>, sinks: map<string, string>,
      open: multiset<string>) {
    function Of(kind: Kind): map<string, string> {
      if kind.ProbeKind? then probes else sinks
    }

    function With(kind: Kind, handles: map<string, string>): Handles {
      if kind.ProbeKind? then this.(probes := handles) else this.(sinks := handles)
    }
  }

  function Load(h: Handles, kind: Kind, id: string, plugin: string, how: Opened): Handles {
    if !how.Built? then h
    else
      var path := PluginPath(h.dir, kind, plugin);
      h.With(kind, h.Of(kind)[id := path]).(open := h.open + multiset{path})
  }

  function Unload(h: Handles, kind: Kind, id: string): Handles {
    if id !in h.Of(kind) then h
    else h.With(kind, h.Of(kind) - {id}).(open := h.open - multiset{h.Of(kind)[id]})
  }

  class PluginLoader {
    const dir: string
    var probes: map<string, string>
    var sinks: map<string, string>
    ghost var open: multiset<string>

    ghost function Now(): Handles
      reads this
    {
      Handles(dir, probes, sinks, open)
    }

    constructor (dir: string)
      ensures Now() == Handles(dir, map[], map[], multiset{})
    {
      this.dir := dir;
      probes, sinks, open := map[], map[], multiset{};
    }

    /** Every failure path gives back the reference dlopen took. */
    method OpenPlugin(path: string, how: Opened) returns (built: bool)
      modifies this`open
      ensures built == how.Built?
      ensures open == if built then old(open) + multiset{path} else old(open)
    {
      if how.NoFile? {
        return false;
      }
      open := open + multiset{path};
      if how.NoEntryPoint? {
        open := open - multiset{path};
        return false;
      }
      if how.RegistersOther? {
        open := open - multiset{path};
        return false;
      }
      if how.RejectsSettings? {
        open := open - multiset{path};
        return false;
      }
      return true;
    }

    method LoadProbe(id: string, plugin: string, how: Opened) returns (built: bool)
      modifies this
      ensures built == how.Built? && Now() == Load(old(Now()), ProbeKind, id, plugin, how)
      ensures !built ==> Now() == old(Now())
    {
      built := OpenPlugin(PluginPath(dir, ProbeKind, plugin), how);
      if built {
        probes := probes[id := PluginPath(dir, ProbeKind, plugin)];
      }
    }

    method LoadSink(id: string, plugin: string, how: Opened) returns (built: bool)
      modifies this
      ensures built == how.Built? && Now() == Load(old(Now()), SinkKind, id, plugin, how)
      ensures !built ==> Now() == old(Now())
    {
      built := OpenPlugin(PluginPath(dir, SinkKind, plugin), how);
      if built {
        sinks := sinks[id := PluginPath(dir, SinkKind, plugin)];
      }
    }

    method UnloadProbe(id: string)
      modifies this
      ensures Now() == Unload(old(Now()), ProbeKind, id)
    {
      if id in probes {
        open := open - multiset{probes[id]};
        probes := probes - {id};
      }
    }

    method UnloadSink(id: string)
      modifies this
      ensures Now() == Unload(old(Now()), SinkKind, id)
    {
      if id in sinks {
        open := open - multiset{sinks[id]};
        sinks := sinks - {id};
      }
    }
  }

  // ---------------------------------------------------------------- balance

  /** The instances whose handle is on a file. */
  function Holders(handles: map<string, string>, path: string): set<string> {
    set id | id in handles && handles[id] == path
  }

  /** Every file is held open exactly as often as there are instances of it. */
  ghost predicate Balanced(h: Handles) {
    forall path :: h.open[path] == |Holders(h.probes, path)| + |Holders(h.sinks, path)|
  }

  lemma HoldersAdd(handles: map<string, string>, id: string, at: string, path: string)
    requires id !in handles
    ensures |Holders(handles[id := at], path)| == |Holders(handles, path)| + if at == path then 1 else 0
  {
    var more := handles[id := at];
    if at == path {
      assert Holders(more, path) == Holders(handles, path) + {id};
    } else {
      assert Holders(more, path) == Holders(handles, path);
    }
  }

  lemma HoldersDrop(handles: map<string, string>, id: string, path: string)
    requires id in handles
    ensures |Holders(handles - {id}, path)| == |Holders(handles, path)| - if handles[id] == path then 1 else 0
  {
    var fewer := handles - {id};
    assert fewer[id := handles[id]] == handles;
    HoldersAdd(fewer, id, handles[id], path);
  }

  lemma UnloadBalances(h: Handles, kind: Kind, id: string)
    requires Balanced(h)
    ensures Balanced(Unload(h, kind, id))
  {
    if id in h.Of(kind) {
      var at := h.Of(kind)[id];
      var h' := Unload(h, kind, id);
      forall path
        ensures h'.open[path] == |Holders(h'.probes, path)| + |Holders(h'.sinks, path)|
      {
        HoldersDrop(h.Of(kind), id, path);
        assert id in Holders(h.Of(kind), at);
        assert |Holders(h.Of(kind), at)| > 0;
      }
    }
  }

  /** Loading keeps the balance exactly when it fails or the id is not loaded yet; otherwise the old handle is
      overwritten and its reference is never given back. */
  lemma LoadBalancesExactly(h: Handles, kind: Kind, id: string, plugin: string, how: Opened)
    requires Balanced(h)
    ensures Balanced(Load(h, kind, id, plugin, how)) <==> !how.Built? || id !in h.Of(kind)
  {
    if how.Built? {
      var at := PluginPath(h.dir, kind, plugin);
      var h' := Load(h, kind, id, plugin, how);
      if id !in h.Of(kind) {
        forall path
          ensures h'.open[path] == |Holders(h'.probes, path)| + |Holders(h'.sinks, path)|
        {
          HoldersAdd(h.Of(kind), id, at, path);
        }
      } else {
        Overwritten(h, kind, id, plugin);
      }
    }
  }

  lemma Overwritten(h: Handles, kind: Kind, id: string, plugin: string)
    requires Balanced(h) && id in h.Of(kind)
    ensures !Balanced(Load(h, kind, id, plugin, Built))
  {
    var was, at := h.Of(kind)[id], PluginPath(h.dir, kind, plugin);
    var h' := Load(h, kind, id, plugin, Built);
    var fewer := h.Of(kind) - {id};
    assert fewer[id := at] == h'.Of(kind);
    HoldersDrop(h.Of(kind), id, was);
    HoldersAdd(fewer, id, at, was);
    assert h'.open[was] != |Holders(h'.probes, was)| + |Holders(h'.sinks, was)|;
  }
}

/** Component settings and the reload diff (src/core/config/config.cpp). */
module Config {
  import opened Text

  type Settings = map<string, string>

  /** A std::map from instance id to settings, in its iteration order. */
  type Components = seq<(string, Settings)>

  predicate DistinctIds(cs: Components) {
    forall i, j :: 0 <= i < j < |cs| ==> cs[i].0 != cs[j].0
  }

  function Lookup(cs: Components, id: string): (c: Option<Settings>)
    ensures c.Some? ==> (id, c.value) in cs
    ensures c.None? ==> forall i :: 0 <= i < |cs| ==> cs[i].0 != id
  {
    if cs == [] then None
    else if cs[|cs| - 1].0 == id then Some(cs[|cs| - 1].1)
    else Lookup(cs[..|cs| - 1], id)
  }

  function PluginOf(id: string, c: Settings): string {
    if "plugin" in c then c["plugin"] else id
  }

  /** A component is of the plugin its settings name, and of its own id's otherwise. */
  lemma PluginOfExactly(id: string, c: Settings, plugin: string)
    ensures PluginOf(id, c) == plugin <==> ("plugin", plugin) in c.Items || ("plugin" !in c.Keys && plugin == id)
  {
    if "plugin" in c {
      assert ("plugin", c["plugin"]) in c.Items;
    }
  }

  /** The plugin a configured id names. */
  function PluginFor(cs: Components, id: string): Option<string> {
    match Lookup(cs, id)
    case None => None
    case Some(c) => Some(PluginOf(id, c))
  }

  /** The ids of `cs` that `other` does not name with the same plugin, in order. */
  function Missing(cs: Components, other: Components): seq<string> {
    if cs == [] then []
    else
      var (id, c) := cs[|cs| - 1];
      Missing(cs[..|cs| - 1], other) + if PluginFor(other, id) == Some(PluginOf(id, c)) then [] else [id]
  }

  method DiffComponents(current: Components, next: Components) returns (removed: seq<string>, added: seq<string>)
    ensures removed == Missing(current, next) && added == Missing(next, current)
  {
    removed := MissingFrom(current, next);
    added := MissingFrom(next, current);
  }

  /** Both loops of the diff have this shape. */
  method MissingFrom(cs: Components, other: Components) returns (ids: seq<string>)
    ensures ids == Missing(cs, other)
  {
    ids := [];
    var i := 0;
    while i < |cs|
      invariant 0 <= i <= |cs|
      invariant ids == Missing(cs[..i], other)
    {
      var (id, c) := cs[i];
      assert cs[..i + 1][..i] == cs[..i];
      var it := Lookup(other, id);
      if it.None? || PluginOf(id, c) != PluginOf(id, it.value) {
        ids := ids + [id];
      }
      i := i + 1;
    }
    assert cs[..|cs|] == cs;
  }

  lemma {:induction false} LookupOf(cs: Components, i: nat)
    requires DistinctIds(cs) && i < |cs|
    ensures Lookup(cs, cs[i].0) == Some(cs[i].1)
  {
    var n := |cs| - 1;
    if i < n {
      LookupOf(cs[..n], i);
      assert cs[..n][i] == cs[i];
    }
  }

  /** What a configured id is of, entry by entry. */
  lemma PluginForExactly(cs: Components, id: string, plugin: string)
    requires DistinctIds(cs)
    ensures PluginFor(cs, id) == Some(plugin) <==>
            exists i :: 0 <= i < |cs| && cs[i].0 == id && PluginOf(id, cs[i].1) == plugin
  {
    hide PluginOf;
    if PluginFor(cs, id) == Some(plugin) {
      assert (id, Lookup(cs, id).value) in cs;
    }
    if i :| 0 <= i < |cs| && cs[i].0 == id && PluginOf(id, cs[i].1) == plugin {
      LookupOf(cs, i);
    }
  }

  /** An id is missing exactly when it is configured here and not there with the same plugin. */
  lemma {:induction false} MissingExactly(cs: Components, other: Components, id: string)
    requires DistinctIds(cs)
    ensures id in Missing(cs, other) <==> PluginFor(cs, id).Some? && PluginFor(other, id) != PluginFor(cs, id)
  {
    if cs != [] {
      var n := |cs| - 1;
      var (last, c) := cs[n];
      MissingExactly(cs[..n], other, id);
      if id == last {
        LookupOf(cs, n);
        MissingNamesOnly(cs[..n], other, id);
      }
    }
  }

  lemma {:induction false} MissingNamesOnly(cs: Components, other: Components, id: string)
    requires forall i :: 0 <= i < |cs| ==> cs[i].0 != id
    ensures id !in Missing(cs, other)
  {
    if cs != [] {
      MissingNamesOnly(cs[..|cs| - 1], other, id);
    }
  }

  lemma {:induction false} MissingDistinct(cs: Components, other: Components)
    requires DistinctIds(cs)
    ensures forall i, j :: 0 <= i < j < |Missing(cs, other)| ==> Missing(cs, other)[i] != Missing(cs, other)[j]
  {
    if cs != [] {
      var n := |cs| - 1;
      MissingDistinct(cs[..n], other);
      assert forall i :: 0 <= i < n ==> cs[..n][i] == cs[i];
      MissingNamesOnly(cs[..n], other, cs[n].0);
    }
  }

  /** Removing and then adding the diff's ids turns the one id-to-plugin assignment into the other, and leaves every
      other id alone: for any id, what is configured next is what was, unless removed, or what is added. */
  lemma DiffReachesTarget(current: Components, next: Components, id: string)
    requires DistinctIds(current) && DistinctIds(next)
    ensures var removed, added := Missing(current, next), Missing(next, current);
            && PluginFor(next, id) ==
               (if id in added then PluginFor(next, id) else if id in removed then None else PluginFor(current, id))
            && (id in added && PluginFor(current, id).Some? ==> id in removed)
            && (id !in added && id !in removed ==> PluginFor(current, id) == PluginFor(next, id))
  {
    MissingExactly(current, next, id);
    MissingExactly(next, current, id);
  }

  // ---------------------------------------------------------------- the whole file

  datatype File = File(
    cluster: string, node: string, cgroupRoot: string, pluginDir: string,
    batchSize: nat, flushInterval: int, verbose: bool,
    probes: Components, sinks: Components)

  predicate WellFormed(f: File) {
    DistinctIds(f.probes) && DistinctIds(f.sinks)
  }

  datatype Diff = Diff(addedProbes: seq<string>, removedProbes: seq<string>, addedSinks: seq<string>,
      removedSinks: seq<string>)

  /** A file that changes anything but its components cannot be applied live. */
  function DiffForReload(current: File, next: File): Option<Diff> {
    if next.cluster != current.cluster || next.node != current.node || next.cgroupRoot != current.cgroupRoot
       || next.pluginDir != current.pluginDir || next.batchSize != current.batchSize
       || next.flushInterval != current.flushInterval || next.verbose != current.verbose
    then None
    else Some(Diff(Missing(next.probes, current.probes), Missing(current.probes, next.probes),
                   Missing(next.sinks, current.sinks), Missing(current.sinks, next.sinks)))
  }

  method DiffFiles(current: File, next: File) returns (diff: Option<Diff>)
    ensures diff == DiffForReload(current, next)
  {
    if next.cluster != current.cluster || next.node != current.node || next.cgroupRoot != current.cgroupRoot
       || next.pluginDir != current.pluginDir || next.batchSize != current.batchSize
       || next.flushInterval != current.flushInterval || next.verbose != current.verbose {
      return None;
    }
    var removedProbes, addedProbes := DiffComponents(current.probes, next.probes);
    var removedSinks, addedSinks := DiffComponents(current.sinks, next.sinks);
    return Some(Diff(addedProbes, removedProbes, addedSinks, removedSinks));
  }

  /** Rejection leaves only one way for a file to be accepted: as the current one with other components. */
  lemma AcceptedExactly(current: File, next: File)
    ensures DiffForReload(current, next).Some? <==> next == current.(probes := next.probes, sinks := next.sinks)
  {
  }
}

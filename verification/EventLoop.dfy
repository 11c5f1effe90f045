/** The ring-buffer loop and its wholesale rebuild (src/core/event_loop.cpp). Whether libbpf arms a buffer is an
    oracle. */
module EventLoop {
  import opened Text

  /** Heap-allocated in the source because libbpf keeps its address; `P` is the identity of probes and emitters. */
  datatype Binding<P> = Binding(probe: P, out: P)

  /** `armed` is the libbpf object: None for a null pointer, else the contexts added to it, in order. */
  datatype Loop<P> = Loop(armed: Option<seq<Binding<P>>>, bindings: seq<Binding<P>>)

  /** The ring buffer is null exactly when nothing is bound, and holds the bindings in order otherwise. */
  predicate Agree<P(==)>(l: Loop<P>) {
    l.armed == if l.bindings == [] then None else Some(l.bindings)
  }

  /** ring_buffer__new on a null pointer, ring_buffer__add otherwise; a failure leaves the pointer as it was. */
  function Arm<P>(armed: Option<seq<Binding<P>>>, b: Binding<P>, ok: bool): Option<seq<Binding<P>>> {
    if !ok then armed else Some((if armed.None? then [] else armed.value) + [b])
  }

  /** A probe without a ring buffer is accepted and not bound; one that cannot be armed is refused. */
  function Bind<P>(l: Loop<P>, b: Binding<P>, hasRing: bool, ok: bool): Loop<P> {
    if hasRing && ok then Loop(Arm(l.armed, b, true), l.bindings + [b]) else l
  }

  /** The position of the first binding of a probe, or the length. */
  function IndexOfProbe<P(==)>(bs: seq<Binding<P>>, probe: P): (i: nat)
    ensures i <= |bs| && (i < |bs| ==> bs[i].probe == probe)
    ensures forall k :: 0 <= k < i ==> bs[k].probe != probe
  {
    if bs == [] || bs[0].probe == probe then 0 else 1 + IndexOfProbe(bs[1..], probe)
  }

  /** The bindings that re-arm (or, with `want` false, those that do not), in order. */
  function Pick<P>(bs: seq<Binding<P>>, rearms: nat -> bool, want: bool): seq<Binding<P>> {
    if bs == [] then []
    else
      var n := |bs| - 1;
      Pick(bs[..n], rearms, want) + if rearms(n) == want then [bs[n]] else []
  }

  function ProbesOf<P>(bs: seq<Binding<P>>): seq<P> {
    seq(|bs|, i requires 0 <= i < |bs| => bs[i].probe)
  }

  /** The bindings other than the removed probe's. */
  function Others<P(==)>(l: Loop<P>, probe: P): seq<Binding<P>> {
    var i := IndexOfProbe(l.bindings, probe);
    if i == |l.bindings| then l.bindings else l.bindings[..i] + l.bindings[i + 1..]
  }

  predicate Bound<P(==)>(l: Loop<P>, probe: P) {
    IndexOfProbe(l.bindings, probe) < |l.bindings|
  }

  function Unbind<P(==)>(l: Loop<P>, probe: P, rearms: nat -> bool): Loop<P> {
    if !Bound(l, probe) then l
    else
      var surviving := Pick(Others(l, probe), rearms, true);
      Loop(if surviving == [] then None else Some(surviving), surviving)
  }

  /** The other probes a removal takes down with it. */
  function AlsoDropped<P(==)>(l: Loop<P>, probe: P, rearms: nat -> bool): seq<P> {
    if !Bound(l, probe) then [] else ProbesOf(Pick(Others(l, probe), rearms, false))
  }

  class Events<P(==)> {
    var armed: Option<seq<Binding<P>>>
    var bindings: seq<Binding<P>>

    ghost function Now(): Loop<P>
      reads this
    {
      Loop(armed, bindings)
    }

    constructor ()
      ensures Now() == Loop(None, [])
    {
      armed, bindings := None, [];
    }

    method Add(probe: P, out: P, hasRing: bool, arms: bool) returns (ok: bool)
      modifies this
      ensures Now() == Bind(old(Now()), Binding(probe, out), hasRing, arms)
      ensures ok == (!hasRing || arms)
      ensures !ok ==> Now() == old(Now())
    {
      if !hasRing {
        return true;
      }
      bindings := bindings + [Binding(probe, out)];
      var context := bindings[|bindings| - 1];
      armed := Arm(armed, context, arms);
      if !arms {
        bindings := bindings[..|bindings| - 1];
        return false;
      }
      return true;
    }

    method Remove(probe: P, rearms: nat -> bool) returns (dropped: seq<P>)
      modifies this
      ensures Now() == Unbind(old(Now()), probe, rearms)
      ensures dropped == AlsoDropped(old(Now()), probe, rearms)
    {
      dropped := [];
      var at := IndexOfProbe(bindings, probe);
      if at == |bindings| {
        return;
      }
      hide IndexOfProbe, Pick, ProbesOf;
      bindings := bindings[..at] + bindings[at + 1..];
      dropped := Rebuild(rearms);
    }

    /** Frees the libbpf object and arms every remaining binding afresh, keeping those that arm. */
    method Rebuild(rearms: nat -> bool) returns (dropped: seq<P>)
      modifies this
      ensures bindings == Pick(old(bindings), rearms, true)
      ensures armed == if bindings == [] then None else Some(bindings)
      ensures dropped == ProbesOf(Pick(old(bindings), rearms, false))
    {
      armed := None;
      dropped := [];
      if bindings == [] {
        return;
      }
      var surviving: seq<Binding<P>> := [];
      var i := 0;
      while i < |bindings|
        invariant 0 <= i <= |bindings| && bindings == old(bindings)
        invariant surviving == Pick(bindings[..i], rearms, true)
        invariant dropped == ProbesOf(Pick(bindings[..i], rearms, false))
        invariant armed == if surviving == [] then None else Some(surviving)
      {
        var b := bindings[i];
        assert bindings[..i + 1][..i] == bindings[..i];
        armed := Arm(armed, b, rearms(i));
        if rearms(i) {
          surviving := surviving + [b];
        } else {
          dropped := dropped + [b.probe];
        }
        i := i + 1;
      }
      assert bindings[..|bindings|] == bindings;
      bindings := surviving;
    }
  }

  // ---------------------------------------------------------------- what every run keeps

  datatype Op<!P> =
    | Add(b: Binding<P>, hasRing: bool, arms: bool)
    | Remove(probe: P, rearms: nat -> bool)

  function Apply<P(==)>(l: Loop<P>, op: Op<P>): Loop<P> {
    match op
    case Add(b, hasRing, arms) => Bind(l, b, hasRing, arms)
    case Remove(probe, rearms) => Unbind(l, probe, rearms)
  }

  function Run<P(==)>(l: Loop<P>, ops: seq<Op<P>>): Loop<P>
    decreases |ops|
  {
    if ops == [] then l else Run(Apply(l, ops[0]), ops[1..])
  }

  /** Through any adds and removes, with any pattern of arming failures, the loop agrees with libbpf. */
  lemma {:induction false} RunAgrees<P>(l: Loop<P>, ops: seq<Op<P>>)
    requires Agree(l)
    ensures Agree(Run(l, ops))
    decreases |ops|
  {
    if ops != [] {
      RunAgrees(Apply(l, ops[0]), ops[1..]);
    }
  }

  /** The picked bindings sit at the positions with that outcome, all of them, in order. */
  lemma {:induction false} PickIsOrdered<P>(bs: seq<Binding<P>>, rearms: nat -> bool, want: bool)
      returns (order: seq<nat>)
    ensures |order| == |Pick(bs, rearms, want)|
    ensures forall k :: 0 <= k < |order| ==> order[k] < |bs| && rearms(order[k]) == want
    ensures forall k :: 0 <= k < |order| ==> bs[order[k]] == Pick(bs, rearms, want)[k]
    ensures forall j, k :: 0 <= j < k < |order| ==> order[j] < order[k]
    ensures forall i :: 0 <= i < |bs| && rearms(i) == want ==> i in order
  {
    if bs == [] {
      order := [];
    } else {
      var n := |bs| - 1;
      var before := Pick(bs[..n], rearms, want);
      assert Pick(bs, rearms, want) == if rearms(n) == want then before + [bs[n]] else before;
      hide Pick;
      order := PickIsOrdered(bs[..n], rearms, want);
      if rearms(n) == want {
        order := order + [n];
      }
    }
  }

  lemma {:induction false} PickPartitions<P>(bs: seq<Binding<P>>, rearms: nat -> bool)
    ensures multiset(bs) == multiset(Pick(bs, rearms, true)) + multiset(Pick(bs, rearms, false))
  {
    if bs == [] {
      return;
    }
    var n := |bs| - 1;
    var kept, lost := Pick(bs[..n], rearms, true), Pick(bs[..n], rearms, false);
    PickLast(bs, rearms);
    hide Pick;
    PickPartitions(bs[..n], rearms);
    assert bs == bs[..n] + [bs[n]];
    OneAppended(bs[..n], bs[n]);
    OneMore(multiset(kept), multiset(lost), bs[n]);
    if rearms(n) {
      OneAppended(kept, bs[n]);
    } else {
      OneAppended(lost, bs[n]);
    }
  }

  lemma PickLast<P>(bs: seq<Binding<P>>, rearms: nat -> bool)
    requires bs != []
    ensures var n := |bs| - 1;
            && Pick(bs, rearms, rearms(n)) == Pick(bs[..n], rearms, rearms(n)) + [bs[n]]
            && Pick(bs, rearms, !rearms(n)) == Pick(bs[..n], rearms, !rearms(n))
  {
    var others := Pick(bs[..|bs| - 1], rearms, !rearms(|bs| - 1));
    assert others + [] == others;
  }

  lemma OneMore<T>(a: multiset<T>, b: multiset<T>, x: T)
    ensures a + b + multiset{x} == (a + multiset{x}) + b == a + (b + multiset{x})
  {
  }

  lemma OneAppended<T>(s: seq<T>, x: T)
    ensures multiset(s + [x]) == multiset(s) + multiset{x}
  {
  }

  /** What is bound after a removal are the re-armed others in their order: `order` lists their positions among the
      others, all of them. */
  lemma RemovalKeepsOrder<P>(l: Loop<P>, probe: P, rearms: nat -> bool) returns (order: seq<nat>)
    requires Bound(l, probe)
    ensures var others, after := Others(l, probe), Unbind(l, probe, rearms).bindings;
            && |order| == |after| && (forall j, k :: 0 <= j < k < |order| ==> order[j] < order[k])
            && (forall k :: 0 <= k < |order| ==>
                  order[k] < |others| && rearms(order[k]) && after[k] == others[order[k]])
            && (forall i :: 0 <= i < |others| && rearms(i) ==> i in order)
  {
    hide IndexOfProbe, Others;
    order := PickIsOrdered(Others(l, probe), rearms, true);
    hide Pick;
  }

  /** A removal splits the other bindings, none lost and none doubled, into survivors and exactly the dropped ones. */
  lemma RemovePartitions<P>(l: Loop<P>, probe: P, rearms: nat -> bool)
    requires Bound(l, probe)
    ensures multiset(l.bindings) == multiset{l.bindings[IndexOfProbe(l.bindings, probe)]} + multiset(Others(l, probe))
    ensures multiset(Others(l, probe)) ==
            multiset(Unbind(l, probe, rearms).bindings) + multiset(Pick(Others(l, probe), rearms, false))
    ensures AlsoDropped(l, probe, rearms) == ProbesOf(Pick(Others(l, probe), rearms, false))
  {
    hide IndexOfProbe, Pick;
    TakeOut(l.bindings, IndexOfProbe(l.bindings, probe));
    PickPartitions(Others(l, probe), rearms);
  }

  lemma TakeOut<T>(s: seq<T>, i: nat)
    requires i < |s|
    ensures multiset(s) == multiset{s[i]} + multiset(s[..i] + s[i + 1..])
  {
    assert s == s[..i] + ([s[i]] + s[i + 1..]);
  }
}

/** From a cgroup path to a Slurm job, step and task (src/core/attribution/attribution.cpp). */
module CgroupPath {
  import opened Text

  datatype Attribution = Attribution(jobId: nat, stepId: string, taskId: Option<nat>)

  // ---------------------------------------------------------------- segments

  /** The nonempty runs between slashes, in order. */
  function Split(path: string): seq<string>
    decreases |path|
  {
    if path == "" then []
    else
      match IndexOf(path, '/', 0)
      case None => [path]
      case Some(i) => (if i == 0 then [] else [path[..i]]) + Split(path[i + 1..])
  }

  /** Where the segment starting at `start` ends: the next slash, or the end of the path. */
  function SegmentEnd(path: string, start: nat): (end: nat)
    requires start <= |path|
    ensures start <= end <= |path|
  {
    var slash := IndexOf(path, '/', start);
    if slash.None? then |path| else slash.value
  }

  /** The segments from `start` on, one turn of the splitting loop at a time. */
  function SplitAfter(path: string, start: nat): seq<string>
    decreases |path| - start
  {
    if start >= |path| then []
    else
      var end := SegmentEnd(path, start);
      (if end > start then [path[start..end]] else []) + SplitAfter(path, end + 1)
  }

  method SplitPath(path: string) returns (parts: seq<string>)
    ensures parts == Split(path)
  {
    hide *;
    parts := [];
    var start := 0;
    ghost var all := SplitAfter(path, 0);
    assert parts + all == all;
    while start < |path|
      invariant 0 <= start
      invariant parts + SplitAfter(path, start) == all
      decreases |path| - start
    {
      var slash := IndexOf(path, '/', start);
      var end := if slash.None? then |path| else slash.value;
      ghost var before, rest := parts, SplitAfter(path, end + 1);
      SplitAfterNext(path, start);
      if end > start {
        parts := parts + [path[start..end]];
        AppendAppends(before, path[start..end], rest);
      }
      start := end + 1;
    }
    SplitAfterNone(path, start);
    assert parts + [] == parts;
    SplitAfterIsSplit(path, 0);
    assert path[0..] == path;
  }

  lemma SplitAfterNone(path: string, start: nat)
    requires start >= |path|
    ensures SplitAfter(path, start) == []
  {
  }

  lemma AppendAppends<T>(a: seq<T>, x: T, b: seq<T>)
    ensures a + ([x] + b) == (a + [x]) + b
  {
  }

  lemma SplitAfterNext(path: string, start: nat)
    requires start < |path|
    ensures var slash := IndexOf(path, '/', start);
            var end := if slash.None? then |path| else slash.value;
            start <= end <= |path| && SplitAfter(path, start) ==
            (if end > start then [path[start..end]] + SplitAfter(path, end + 1) else SplitAfter(path, end + 1))
  {
    hide IndexOf;
  }

  lemma {:induction false} SplitAfterIsSplit(path: string, start: nat)
    requires start <= |path|
    ensures SplitAfter(path, start) == Split(path[start..])
    decreases |path| - start
  {
    hide *;
    if start == |path| {
      SplitNothing(path);
    } else {
      var slash := IndexOf(path, '/', start);
      if slash.Some? {
        SplitAfterNext(path, start);
        SplitAfterIsSplit(path, slash.value + 1);
        SplitFrom(path, start, slash.value);
      } else {
        SplitAfterLast(path, start);
        SplitFromLast(path, start);
      }
    }
  }

  lemma IndexOfShifted(path: string, start: nat)
    requires start <= |path|
    ensures var slash := IndexOf(path, '/', start);
            IndexOf(path[start..], '/', 0) == if slash.None? then None else Some(slash.value - start)
  {
    var slash, rest := IndexOf(path, '/', start), path[start..];
    hide IndexOf;
    if slash.Some? {
      IndexOfIs(rest, '/', 0, slash.value - start);
    } else {
      assert IndexOf(rest, '/', 0) == None;
    }
  }

  lemma SplitNothing(path: string)
    ensures SplitAfter(path, |path|) == Split(path[|path|..]) == []
  {
  }

  lemma SplitFrom(path: string, i: nat, j: nat)
    requires i <= |path| && IndexOf(path, '/', i) == Some(j)
    ensures Split(path[i..]) == (if j > i then [path[i..j]] + Split(path[j + 1..]) else Split(path[j + 1..]))
  {
    IndexOfShifted(path, i);
    Subslices(path, i, j);
    hide *;
    SplitFirst(path[i..], j - i);
  }

  lemma SplitAfterLast(path: string, start: nat)
    requires start < |path| && IndexOf(path, '/', start) == None
    ensures SplitAfter(path, start) == [path[start..]]
  {
    assert path[start..|path|] == path[start..];
    assert SplitAfter(path, |path| + 1) == [];
    hide IndexOf;
  }

  lemma SplitFromLast(path: string, i: nat)
    requires i < |path| && IndexOf(path, '/', i) == None
    ensures Split(path[i..]) == [path[i..]]
  {
    IndexOfShifted(path, i);
  }

  lemma Subslices(path: string, i: nat, j: nat)
    requires i <= j <= |path|
    ensures path[i..][..j - i] == path[i..j]
    ensures j < |path| ==> path[i..][j - i + 1..] == path[j + 1..]
  {
  }

  predicate Segment(seg: string) {
    seg != "" && '/' !in seg
  }

  predicate Segments(segs: seq<string>) {
    forall i :: 0 <= i < |segs| ==> Segment(segs[i])
  }

  function Slashes(n: nat): string {
    seq(n, _ => '/')
  }

  /** gaps[0] slashes, a segment, gaps[1] slashes, a segment, ... and the last gap. */
  predicate Gaps(segs: seq<string>, gaps: seq<nat>) {
    |gaps| == |segs| + 1 && forall i :: 0 < i < |segs| ==> gaps[i] > 0
  }

  function Render(segs: seq<string>, gaps: seq<nat>): string
    requires Gaps(segs, gaps)
  {
    if segs == [] then Slashes(gaps[0])
    else Slashes(gaps[0]) + segs[0] + Render(segs[1..], gaps[1..])
  }

  lemma {:induction false} SplitSlashes(n: nat, path: string)
    ensures Split(Slashes(n) + path) == Split(path)
  {
    if n == 0 {
      assert Slashes(0) + path == path;
    } else {
      var p := Slashes(n) + path;
      IndexOfIs(p, '/', 0, 0);
      assert p[1..] == Slashes(n - 1) + path;
      SplitSlashes(n - 1, path);
    }
  }

  /** However the segments are spaced out with slashes, splitting recovers exactly them. */
  lemma {:induction false} SplitRender(segs: seq<string>, gaps: seq<nat>)
    requires Segments(segs) && Gaps(segs, gaps)
    ensures Split(Render(segs, gaps)) == segs
  {
    hide Split, Slashes, Render;
    RenderHead(segs, gaps);
    if segs == [] {
      SplitSlashes(gaps[0], "");
      SplitNothing("");
    } else {
      var seg, tail := segs[0], Render(segs[1..], gaps[1..]);
      assert Segments(segs[1..]);
      SplitRender(segs[1..], gaps[1..]);
      SplitSlashes(gaps[0], seg + tail);
      SplitSegment(seg, tail, segs[1..], gaps[1..]);
      assert segs == [seg] + segs[1..];
    }
  }

  lemma RenderHead(segs: seq<string>, gaps: seq<nat>)
    requires Gaps(segs, gaps)
    ensures Render(segs, gaps) ==
            Slashes(gaps[0]) + (if segs == [] then "" else segs[0] + Render(segs[1..], gaps[1..]))
  {
    RenderUnfolds(segs, gaps);
    hide Render, Slashes;
    if segs == [] {
      assert Slashes(gaps[0]) + "" == Slashes(gaps[0]);
    } else {
      Regroup(Slashes(gaps[0]), segs[0], Render(segs[1..], gaps[1..]));
    }
  }

  lemma RenderUnfolds(segs: seq<string>, gaps: seq<nat>)
    requires Gaps(segs, gaps)
    ensures segs == [] ==> Render(segs, gaps) == Slashes(gaps[0])
    ensures segs != [] ==> Render(segs, gaps) == Slashes(gaps[0]) + segs[0] + Render(segs[1..], gaps[1..])
  {
    hide Slashes;
  }

  lemma Regroup(a: string, b: string, c: string)
    ensures a + b + c == a + (b + c)
  {
  }

  lemma SplitSegment(seg: string, tail: string, segs: seq<string>, gaps: seq<nat>)
    requires Segment(seg) && Segments(segs) && Gaps(segs, gaps)
    requires tail == Render(segs, gaps) && Split(tail) == segs
    requires segs != [] ==> gaps[0] > 0
    ensures Split(seg + tail) == [seg] + segs
  {
    var p := seg + tail;
    if tail == "" {
      assert p == seg;
      assert IndexOf(p, '/', 0) == None;
    } else {
      assert tail[0] == '/' by {
        assert gaps[0] > 0;
        assert Slashes(gaps[0])[0] == '/';
      }
      IndexOfIs(p, '/', 0, |seg|);
      assert p[..|seg|] == seg;
      assert p[|seg| + 1..] == tail[1..];
      IndexOfIs(tail, '/', 0, 0);
      assert Split(tail) == Split(tail[1..]);
    }
  }

  /** Every path is some spacing of the segments it splits into, so nothing but slashes is lost. */
  lemma {:induction false} SplitIsComplete(path: string)
    ensures Segments(Split(path))
    ensures exists gaps :: Gaps(Split(path), gaps) && Render(Split(path), gaps) == path
    decreases |path|
  {
    hide Split, Render, Gaps, IndexOf;
    if path == "" {
      RenderNone();
    } else if IndexOf(path, '/', 0).None? {
      RenderOne(path);
    } else {
      var i := IndexOf(path, '/', 0).value;
      SplitIsComplete(path[i + 1..]);
      var more :| Gaps(Split(path[i + 1..]), more) && Render(Split(path[i + 1..]), more) == path[i + 1..];
      var gaps := RenderMore(path, i, more);
      SplitFirst(path, i);
      BeforeSlash(path, i);
    }
  }

  lemma RenderNone()
    ensures Split("") == [] && Gaps([], [0]) && Render([], [0]) == ""
  {
  }

  lemma BeforeSlash(path: string, i: nat)
    requires IndexOf(path, '/', 0) == Some(i)
    ensures i > 0 ==> Segment(path[..i])
  {
  }

  lemma RenderOne(path: string)
    requires path != "" && IndexOf(path, '/', 0).None?
    ensures Split(path) == [path] && Segment(path) && Gaps([path], [0, 0]) && Render([path], [0, 0]) == path
  {
    assert [0, 0][1..] == [0] && [path][1..] == [];
    assert Render([], [0]) == "";
  }

  lemma RenderMore(path: string, i: nat, more: seq<nat>) returns (gaps: seq<nat>)
    requires IndexOf(path, '/', 0) == Some(i)
    requires Gaps(Split(path[i + 1..]), more) && Render(Split(path[i + 1..]), more) == path[i + 1..]
    ensures Gaps(Split(path), gaps) && Render(Split(path), gaps) == path
  {
    var tail := Split(path[i + 1..]);
    var wider := more[0 := more[0] + 1];
    WidenGap(tail, more);
    SplitFirst(path, i);
    if i == 0 {
      gaps := wider;
    } else {
      RenderFront(path[..i], tail, wider);
      gaps := [0] + wider;
    }
    hide *;
  }

  lemma SplitFirst(path: string, i: nat)
    requires IndexOf(path, '/', 0) == Some(i)
    ensures i == 0 ==> path == "/" + path[i + 1..] && Split(path) == Split(path[i + 1..])
    ensures i > 0 ==> path == path[..i] + ("/" + path[i + 1..]) && Split(path) == [path[..i]] + Split(path[i + 1..])
  {
    SplitUnfolds(path, i);
    CutAtSlash(path, i);
    hide Split, IndexOf;
  }

  lemma SplitUnfolds(path: string, i: nat)
    requires IndexOf(path, '/', 0) == Some(i)
    ensures Split(path) == if i == 0 then Split(path[i + 1..]) else [path[..i]] + Split(path[i + 1..])
  {
    hide IndexOf;
  }

  lemma CutAtSlash(path: string, i: nat)
    requires i < |path| && path[i] == '/'
    ensures path == path[..i] + ("/" + path[i + 1..])
    ensures i == 0 ==> path == "/" + path[i + 1..]
  {
  }

  lemma RenderFront(seg: string, segs: seq<string>, gaps: seq<nat>)
    requires Gaps(segs, gaps) && (segs == [] || gaps[0] > 0)
    ensures Gaps([seg] + segs, [0] + gaps) && Render([seg] + segs, [0] + gaps) == seg + Render(segs, gaps)
  {
    assert ([seg] + segs)[1..] == segs && ([0] + gaps)[1..] == gaps;
    assert Slashes(0) + seg == seg;
  }

  lemma WidenGap(segs: seq<string>, gaps: seq<nat>)
    requires Gaps(segs, gaps)
    ensures Gaps(segs, gaps[0 := gaps[0] + 1])
    ensures Render(segs, gaps[0 := gaps[0] + 1]) == "/" + Render(segs, gaps)
  {
    var wider := gaps[0 := gaps[0] + 1];
    assert wider[1..] == gaps[1..];
    assert Slashes(gaps[0] + 1) == "/" + Slashes(gaps[0]);
    if segs != [] {
      var tail := Render(segs[1..], gaps[1..]);
      Regroup("/", Slashes(gaps[0]) + segs[0], tail);
      Regroup("/", Slashes(gaps[0]), segs[0]);
    }
  }

  // ---------------------------------------------------------------- one segment

  /** "<prefix><digits>" with a number that fits 32 bits. */
  function NumericSuffix(seg: string, prefix: string): Option<nat> {
    if |seg| > |prefix| && seg[..|prefix|] == prefix && AllDigits(seg[|prefix|..])
        && Value(seg[|prefix|..]) <= UINT32_MAX
    then Some(Value(seg[|prefix|..]))
    else None
  }

  /** strtoul on digits: it reports ERANGE past 64 bits and the caller rejects past 32. */
  method ParseNumericSuffix(seg: string, prefix: string) returns (r: Option<nat>)
    ensures r == NumericSuffix(seg, prefix)
  {
    if |seg| <= |prefix| || seg[..|prefix|] != prefix {
      return None;
    }
    var digits := seg[|prefix|..];
    var i := 0;
    while i < |digits|
      invariant 0 <= i <= |digits|
      invariant forall j :: 0 <= j < i ==> IsDigit(digits[j])
    {
      if digits[i] < '0' || digits[i] > '9' {
        return None;
      }
      i := i + 1;
    }
    var value := Value(digits);
    if value > UINT64_MAX || value > UINT32_MAX {
      return None;
    }
    return Some(value);
  }

  /** The suffix parses to `n` exactly when the segment is the prefix followed by digits denoting `n`. */
  lemma NumericSuffixExact(seg: string, prefix: string, n: nat)
    ensures NumericSuffix(seg, prefix) == Some(n) <==>
            n <= UINT32_MAX &&
            exists ds :: ds != "" && AllDigits(ds) && Value(ds) == n && seg == prefix + ds
  {
    if NumericSuffix(seg, prefix) == Some(n) {
      var ds := seg[|prefix|..];
      assert seg == prefix + ds;
    }
    if n <= UINT32_MAX && exists ds :: ds != "" && AllDigits(ds) && Value(ds) == n && seg == prefix + ds {
      var ds :| ds != "" && AllDigits(ds) && Value(ds) == n && seg == prefix + ds;
      assert seg[|prefix|..] == ds && seg[..|prefix|] == prefix;
    }
  }

  datatype Kind = Job(n: nat) | Step(name: string) | Task(n: nat) | Other

  /** The else-if chain a segment goes through. */
  function Classify(seg: string): Kind {
    if NumericSuffix(seg, "job_").Some? then Job(NumericSuffix(seg, "job_").value)
    else if |seg| > 5 && seg[..5] == "step_" then Step(seg[5..])
    else if NumericSuffix(seg, "task_").Some? then Task(NumericSuffix(seg, "task_").value)
    else Other
  }

  /** A prefix and decimal digits for a number of 32 bits. */
  ghost predicate Numbered(seg: string, prefix: string, n: nat) {
    n < 0x1_0000_0000 && exists ds :: ds != "" && AllDigits(ds) && Value(ds) == n && seg == prefix + ds
  }

  /** The shapes of segments, on the text. */
  ghost predicate Spells(seg: string, kind: Kind) {
    match kind
    case Job(n) => Numbered(seg, "job_", n)
    case Step(name) => name != "" && seg == "step_" + name
    case Task(n) => Numbered(seg, "task_", n)
    case Other => !SpellsJob(seg) && !SpellsStep(seg) && !SpellsTask(seg)
  }

  ghost predicate SpellsJob(seg: string) {
    exists n: nat :: Numbered(seg, "job_", n)
  }

  ghost predicate SpellsStep(seg: string) {
    exists name :: name != "" && seg == "step_" + name
  }

  ghost predicate SpellsTask(seg: string) {
    exists n: nat :: Numbered(seg, "task_", n)
  }

  lemma NumberedExactly(seg: string, prefix: string, n: nat)
    ensures Numbered(seg, prefix, n) <==> NumericSuffix(seg, prefix) == Some(n)
  {
    NumericSuffixExact(seg, prefix, n);
    hide NumericSuffix;
  }

  lemma PrefixesDiffer(seg: string, rest: string)
    ensures seg == "job_" + rest ==> seg[0] == 'j'
    ensures seg == "step_" + rest ==> seg[0] == 's'
    ensures seg == "task_" + rest ==> seg[0] == 't'
  {
  }

  /** A segment starts with at most one of the three prefixes. */
  lemma StartsOnce(seg: string)
    ensures SpellsJob(seg) ==> seg != "" && seg[0] == 'j'
    ensures SpellsStep(seg) ==> seg != "" && seg[0] == 's'
    ensures SpellsTask(seg) ==> seg != "" && seg[0] == 't'
  {
    if n: nat :| Numbered(seg, "job_", n) {
      var ds :| ds != "" && AllDigits(ds) && Value(ds) == n && seg == "job_" + ds;
      PrefixesDiffer(seg, ds);
    }
    if n: nat :| Numbered(seg, "task_", n) {
      var ds :| ds != "" && AllDigits(ds) && Value(ds) == n && seg == "task_" + ds;
      PrefixesDiffer(seg, ds);
    }
    if name :| name != "" && seg == "step_" + name {
      PrefixesDiffer(seg, name);
    }
  }

  /** The else-if chain recognises exactly these shapes, for every segment, and skips every other. */
  lemma ClassifyExactly(seg: string, kind: Kind)
    ensures Classify(seg) == kind <==> Spells(seg, kind)
  {
    JobExactly(seg);
    TaskExactly(seg);
    StepExactly(seg);
    StartsOnce(seg);
    hide SpellsJob, SpellsStep, SpellsTask, Numbered, NumericSuffix;
    match kind
    case Job(n) => NumberedExactly(seg, "job_", n);
    case Task(n) => NumberedExactly(seg, "task_", n);
    case Step(name) => StepNamed(seg, name);
    case Other =>
  }

  lemma JobExactly(seg: string)
    ensures SpellsJob(seg) <==> NumericSuffix(seg, "job_").Some?
    ensures forall n: nat :: Numbered(seg, "job_", n) ==> SpellsJob(seg)
  {
    hide Numbered, NumericSuffix;
    if NumericSuffix(seg, "job_").Some? {
      NumberedExactly(seg, "job_", NumericSuffix(seg, "job_").value);
    }
    if n: nat :| Numbered(seg, "job_", n) {
      NumberedExactly(seg, "job_", n);
    }
  }

  lemma TaskExactly(seg: string)
    ensures SpellsTask(seg) <==> NumericSuffix(seg, "task_").Some?
    ensures forall n: nat :: Numbered(seg, "task_", n) ==> SpellsTask(seg)
  {
    hide Numbered, NumericSuffix;
    if NumericSuffix(seg, "task_").Some? {
      NumberedExactly(seg, "task_", NumericSuffix(seg, "task_").value);
    }
    if n: nat :| Numbered(seg, "task_", n) {
      NumberedExactly(seg, "task_", n);
    }
  }

  lemma StepExactly(seg: string)
    ensures SpellsStep(seg) <==> |seg| > 5 && seg[..5] == "step_"
  {
    if |seg| > 5 && seg[..5] == "step_" {
      assert seg == "step_" + seg[5..] && seg[5..] != "";
    }
  }

  lemma StepNamed(seg: string, name: string)
    ensures name != "" && seg == "step_" + name <==> |seg| > 5 && seg[..5] == "step_" && seg[5..] == name
    ensures name != "" && seg == "step_" + name ==> SpellsStep(seg)
  {
    if |seg| > 5 && seg[..5] == "step_" {
      assert seg == "step_" + seg[5..];
    }
  }

  // ---------------------------------------------------------------- whole path

  datatype Progress = Progress(attr: Attribution, sawJob: bool)

  const START := Progress(Attribution(0, "", None), false)

  function Absorb(p: Progress, kind: Kind): Progress {
    match kind
    case Job(n) => Progress(Attribution(n, "", None), true)
    case Step(s) => p.(attr := p.attr.(stepId := s, taskId := None))
    case Task(n) => p.(attr := p.attr.(taskId := Some(n)))
    case Other => p
  }

  function Kinds(segs: seq<string>): (kinds: seq<Kind>) {
    seq(|segs|, i requires 0 <= i < |segs| => Classify(segs[i]))
  }

  function AbsorbAll(p: Progress, kinds: seq<Kind>): Progress {
    if kinds == [] then p
    else Absorb(AbsorbAll(p, kinds[..|kinds| - 1]), kinds[|kinds| - 1])
  }

  function Attribute(kinds: seq<Kind>): Option<Attribution> {
    var p := AbsorbAll(START, kinds);
    if p.sawJob then Some(p.attr) else None
  }

  function Parse(path: string): Option<Attribution> {
    Attribute(Kinds(Split(path)))
  }

  method ParseCgroupPath(path: string) returns (r: Option<Attribution>)
    ensures r == Parse(path)
  {
    var attr := Attribution(0, "", None);
    var sawJob := false;
    var segs := SplitPath(path);
    var i := 0;
    while i < |segs|
      invariant 0 <= i <= |segs|
      invariant Progress(attr, sawJob) == AbsorbAll(START, Kinds(segs)[..i])
    {
      var seg := segs[i];
      assert Kinds(segs)[..i + 1][..i] == Kinds(segs)[..i];
      var job := ParseNumericSuffix(seg, "job_");
      if job.Some? {
        attr := attr.(jobId := job.value);
        sawJob := true;
        attr := attr.(stepId := "", taskId := None);
      } else if |seg| > 5 && seg[..5] == "step_" {
        attr := attr.(stepId := seg[5..], taskId := None);
      } else {
        var task := ParseNumericSuffix(seg, "task_");
        if task.Some? {
          attr := attr.(taskId := task);
        }
      }
      i := i + 1;
    }
    assert Kinds(segs)[..|segs|] == Kinds(segs);
    return if sawJob then Some(attr) else None;
  }

  // ---------------------------------------------------------------- what the result means

  /** `t` is the last task position, and that task is `n`. */
  ghost predicate LastTask(kinds: seq<Kind>, t: int, n: nat) {
    0 <= t < |kinds| && kinds[t] == Task(n) && forall k :: t < k < |kinds| ==> !kinds[k].Task?
  }

  /** The attribution read off positions: the last job segment, the last step after it (`base`, which is the
      job's own position when there is none), and the last task after both. */
  ghost predicate Describes(kinds: seq<Kind>, a: Attribution, job: int, base: int) {
    && 0 <= job <= base < |kinds|
    && kinds[job] == Job(a.jobId)
    && (forall k :: job < k < |kinds| ==> !kinds[k].Job?)
    && (if base == job then a.stepId == "" else kinds[base] == Step(a.stepId))
    && (forall k :: base < k < |kinds| ==> !kinds[k].Step?)
    && (a.taskId.None? ==> forall k :: base < k < |kinds| ==> !kinds[k].Task?)
    && (a.taskId.Some? ==> exists t :: base < t && LastTask(kinds, t, a.taskId.value))
  }

  ghost predicate NoJob(kinds: seq<Kind>) {
    forall k :: 0 <= k < |kinds| ==> !kinds[k].Job?
  }

  ghost predicate Meets(kinds: seq<Kind>, r: Option<Attribution>) {
    match r
    case None => NoJob(kinds)
    case Some(a) => exists job, base :: Describes(kinds, a, job, base)
  }

  /** The loop's answer is the positional one, for every sequence of segments. */
  lemma {:induction false} AttributeMeets(kinds: seq<Kind>)
    ensures Meets(kinds, Attribute(kinds))
  {
    if kinds != [] {
      var n := |kinds| - 1;
      var init := kinds[..n];
      AttributeMeets(init);
      var r, kind := Attribute(init), kinds[n];
      if kind.Job? {
        assert Describes(kinds, Attribute(kinds).value, n, n);
      } else if r.Some? {
        var job, base :| Describes(init, r.value, job, base);
        DescribesNext(kinds, r.value, job, base);
      }
    }
  }

  lemma DescribesNext(kinds: seq<Kind>, a: Attribution, job: int, base: int)
    requires kinds != [] && Describes(kinds[..|kinds| - 1], a, job, base)
    requires !kinds[|kinds| - 1].Job?
    ensures var n := |kinds| - 1;
            Describes(kinds, Absorb(Progress(a, true), kinds[n]).attr, job, if kinds[n].Step? then n else base)
  {
    var n := |kinds| - 1;
    match kinds[n]
    case Task(m) =>
      assert LastTask(kinds, n, m);
    case Other =>
      if a.taskId.Some? {
        var t :| base < t && LastTask(kinds[..n], t, a.taskId.value);
        assert LastTask(kinds, t, a.taskId.value);
      }
    case _ =>
  }

  /** The positional reading admits one answer only. */
  lemma MeetsOnce(kinds: seq<Kind>, r: Option<Attribution>, r': Option<Attribution>)
    requires Meets(kinds, r) && Meets(kinds, r')
    ensures r == r'
  {
    if r.Some? && r'.Some? {
      var job, base :| Describes(kinds, r.value, job, base);
      var job', base' :| Describes(kinds, r'.value, job', base');
      DescribesOnce(kinds, r.value, job, base, r'.value, job', base');
    }
  }

  lemma DescribesOnce(kinds: seq<Kind>, a: Attribution, job: int, base: int, a': Attribution, job': int, base': int)
    requires Describes(kinds, a, job, base) && Describes(kinds, a', job', base')
    ensures a == a'
  {
    assert job == job';
    assert base == base';
    if a.taskId.Some? && a'.taskId.Some? {
      var t :| base < t && LastTask(kinds, t, a.taskId.value);
      var t' :| base < t' && LastTask(kinds, t', a'.taskId.value);
      assert t == t';
    }
  }

  /** The reading off the text: the last job segment, the last step segment after it (`base`, the job's own position
      when there is none), the last task segment after both. */
  ghost predicate Reads(segs: seq<string>, a: Attribution, job: int, base: int) {
    && 0 <= job <= base < |segs|
    && Spells(segs[job], Job(a.jobId))
    && (forall k :: job < k < |segs| ==> !SpellsJob(segs[k]))
    && (if base == job then a.stepId == "" else Spells(segs[base], Step(a.stepId)))
    && (forall k :: base < k < |segs| ==> !SpellsStep(segs[k]))
    && (a.taskId.None? ==> forall k :: base < k < |segs| ==> !SpellsTask(segs[k]))
    && (a.taskId.Some? ==> exists t :: base < t && ReadsTask(segs, t, a.taskId.value))
  }

  ghost predicate ReadsTask(segs: seq<string>, t: int, n: nat) {
    0 <= t < |segs| && Spells(segs[t], Task(n)) && forall k :: t < k < |segs| ==> !SpellsTask(segs[k])
  }

  ghost predicate Reading(segs: seq<string>, r: Option<Attribution>) {
    match r
    case None => forall k :: 0 <= k < |segs| ==> !SpellsJob(segs[k])
    case Some(a) => exists job, base :: Reads(segs, a, job, base)
  }

  lemma KindsSpell(segs: seq<string>, k: int)
    requires 0 <= k < |segs|
    ensures Kinds(segs)[k] == Classify(segs[k]) && Spells(segs[k], Kinds(segs)[k])
    ensures Kinds(segs)[k].Job? <==> SpellsJob(segs[k])
    ensures Kinds(segs)[k].Step? <==> SpellsStep(segs[k])
    ensures Kinds(segs)[k].Task? <==> SpellsTask(segs[k])
  {
    ClassifyExactly(segs[k], Classify(segs[k]));
    JobExactly(segs[k]);
    TaskExactly(segs[k]);
    StepExactly(segs[k]);
    StartsOnce(segs[k]);
    hide SpellsJob, SpellsStep, SpellsTask, Numbered, NumericSuffix, Spells;
  }

  lemma ReadsIsDescribes(segs: seq<string>, a: Attribution, job: int, base: int)
    ensures Reads(segs, a, job, base) <==> Describes(Kinds(segs), a, job, base)
  {
    hide SpellsJob, SpellsStep, SpellsTask, Spells, Classify, Kinds;
    assert |Kinds(segs)| == |segs| by {
      KindsLength(segs);
    }
    forall k, kind | 0 <= k < |segs|
      ensures Kinds(segs)[k] == kind <==> Spells(segs[k], kind)
    {
      KindsSpell(segs, k);
      ClassifyExactly(segs[k], kind);
    }
    forall k | 0 <= k < |segs|
      ensures Kinds(segs)[k].Job? <==> SpellsJob(segs[k])
      ensures Kinds(segs)[k].Step? <==> SpellsStep(segs[k])
      ensures Kinds(segs)[k].Task? <==> SpellsTask(segs[k])
    {
      KindsSpell(segs, k);
    }
    if a.taskId.Some? {
      forall t
        ensures ReadsTask(segs, t, a.taskId.value) <==> LastTask(Kinds(segs), t, a.taskId.value)
      {
      }
    }
  }

  lemma KindsLength(segs: seq<string>)
    ensures |Kinds(segs)| == |segs|
  {
  }

  lemma ReadingIsMeets(segs: seq<string>, r: Option<Attribution>)
    ensures Reading(segs, r) <==> Meets(Kinds(segs), r)
  {
    hide Reads, Describes, SpellsJob, Classify, Kinds;
    KindsLength(segs);
    if r.None? {
      forall k | 0 <= k < |segs|
        ensures Kinds(segs)[k].Job? <==> SpellsJob(segs[k])
      {
        KindsSpell(segs, k);
      }
    } else {
      forall job, base
        ensures Reads(segs, r.value, job, base) <==> Describes(Kinds(segs), r.value, job, base)
      {
        ReadsIsDescribes(segs, r.value, job, base);
      }
    }
  }

  /** So the parser computes the reading off the text of the segments, and nothing else. */
  lemma ParseExact(path: string, r: Option<Attribution>)
    ensures Parse(path) == r <==> Reading(Split(path), r)
  {
    hide Meets, Reading, Kinds, Split;
    ReadingIsMeets(Split(path), r);
    AttributeMeets(Kinds(Split(path)));
    if Meets(Kinds(Split(path)), r) {
      MeetsOnce(Kinds(Split(path)), r, Parse(path));
    }
  }

  /** A path is unattributed exactly when no segment of it is a valid job segment. */
  lemma NoneIffNoJob(path: string)
    ensures Parse(path) == None <==> forall k :: 0 <= k < |Split(path)| ==> !SpellsJob(Split(path)[k])
  {
    hide Split, SpellsJob, Parse;
    ParseExact(path, None);
  }

  // ---------------------------------------------------------------- inverting the layout

  lemma {:induction false} AbsorbConcat(p: Progress, a: seq<Kind>, b: seq<Kind>)
    ensures AbsorbAll(p, a + b) == AbsorbAll(AbsorbAll(p, a), b)
    decreases |b|
  {
    if b == [] {
      assert a + b == a;
    } else {
      assert (a + b)[..|a + b| - 1] == a + b[..|b| - 1];
      AbsorbConcat(p, a, b[..|b| - 1]);
    }
  }

  /** Segments of no recognised shape. */
  ghost predicate Unrecognised(segs: seq<string>) {
    forall i :: 0 <= i < |segs| ==> Spells(segs[i], Other)
  }

  lemma UnrecognisedIsOther(segs: seq<string>)
    requires Unrecognised(segs)
    ensures forall i :: 0 <= i < |segs| ==> Classify(segs[i]) == Other
  {
    forall i | 0 <= i < |segs|
      ensures Classify(segs[i]) == Other
    {
      ClassifyExactly(segs[i], Other);
    }
    hide Spells, Classify;
  }

  lemma {:induction false} AbsorbUnrecognised(p: Progress, kinds: seq<Kind>)
    requires forall i :: 0 <= i < |kinds| ==> kinds[i] == Other
    ensures AbsorbAll(p, kinds) == p
  {
    if kinds != [] {
      AbsorbUnrecognised(p, kinds[..|kinds| - 1]);
    }
  }

  lemma AbsorbSegments(p: Progress, a: seq<string>, b: seq<string>)
    ensures AbsorbAll(p, Kinds(a + b)) == AbsorbAll(AbsorbAll(p, Kinds(a)), Kinds(b))
  {
    assert Kinds(a + b) == Kinds(a) + Kinds(b);
    AbsorbConcat(p, Kinds(a), Kinds(b));
  }

  lemma ClassifyPrinted(n: nat, step: string)
    requires n <= UINT32_MAX && step != ""
    ensures Classify("job_" + Dec(n)) == Job(n)
    ensures Classify("step_" + step) == Step(step)
    ensures Classify("task_" + Dec(n)) == Task(n)
  {
    var j, s, t := "job_" + Dec(n), "step_" + step, "task_" + Dec(n);
    assert j[..4] == "job_" && j[4..] == Dec(n);
    assert s[..5] == "step_" && s[5..] == step && s[0] != 'j';
    assert s[..4][0] == 's';
    assert t[..5] == "task_" && t[5..] == Dec(n) && t[..4][0] == 't' && t[..5][0] == 't';
  }

  /** The directories Slurm lays out for a job, optionally its step and that step's task. */
  function Layout(a: Attribution, afterJob: seq<string>, afterStep: seq<string>, afterTask: seq<string>): seq<string> {
    ["job_" + Dec(a.jobId)] + afterJob +
    (if a.stepId == "" then [] else ["step_" + a.stepId] + afterStep) +
    (if a.taskId.None? then [] else ["task_" + Dec(a.taskId.value)] + afterTask)
  }

  /** Any 32-bit job, any step, any optional 32-bit task comes back from the path Slurm gives it: under
      any parent directories, with any unrecognised directories between, however many slashes. */
  lemma ParseInvertsLayout(a: Attribution, above: seq<string>, afterJob: seq<string>, afterStep: seq<string>,
                           afterTask: seq<string>, gaps: seq<nat>)
    requires a.jobId <= UINT32_MAX && (a.taskId.Some? ==> a.taskId.value <= UINT32_MAX)
    requires Unrecognised(afterJob) && Unrecognised(afterStep) && Unrecognised(afterTask)
    requires Segments(above + Layout(a, afterJob, afterStep, afterTask))
    requires Gaps(above + Layout(a, afterJob, afterStep, afterTask), gaps)
    ensures Parse(Render(above + Layout(a, afterJob, afterStep, afterTask), gaps)) == Some(a)
  {
    var segs := Layout(a, afterJob, afterStep, afterTask);
    SplitRender(above + segs, gaps);
    AbsorbSegments(START, above, segs);
    AbsorbLayout(AbsorbAll(START, Kinds(above)), a, afterJob, afterStep, afterTask);
  }

  lemma AbsorbOne(p: Progress, seg: string, rest: seq<string>)
    requires Unrecognised(rest)
    ensures AbsorbAll(p, Kinds([seg] + rest)) == Absorb(p, Classify(seg))
  {
    AbsorbSegments(p, [seg], rest);
    assert Kinds([seg]) == [Classify(seg)];
    assert AbsorbAll(p, [Classify(seg)]) == Absorb(p, Classify(seg));
    UnrecognisedIsOther(rest);
    AbsorbUnrecognised(Absorb(p, Classify(seg)), Kinds(rest));
  }

  lemma AbsorbLayout(p: Progress, a: Attribution, afterJob: seq<string>, afterStep: seq<string>, afterTask: seq<string>)
    requires a.jobId <= UINT32_MAX && (a.taskId.Some? ==> a.taskId.value <= UINT32_MAX)
    requires Unrecognised(afterJob) && Unrecognised(afterStep) && Unrecognised(afterTask)
    ensures AbsorbAll(p, Kinds(Layout(a, afterJob, afterStep, afterTask))) == Progress(a, true)
  {
    var jobs := ["job_" + Dec(a.jobId)] + afterJob;
    var steps := if a.stepId == "" then [] else ["step_" + a.stepId] + afterStep;
    var tasks := if a.taskId.None? then [] else ["task_" + Dec(a.taskId.value)] + afterTask;
    AbsorbSegments(p, jobs + steps, tasks);
    AbsorbSegments(p, jobs, steps);
    var atJob := AbsorbAll(p, Kinds(jobs));
    var atStep := AbsorbAll(atJob, Kinds(steps));
    ClassifyPrinted(a.jobId, "s");
    AbsorbOne(p, "job_" + Dec(a.jobId), afterJob);
    assert atJob == Progress(Attribution(a.jobId, "", None), true);
    if a.stepId != "" {
      ClassifyPrinted(0, a.stepId);
      AbsorbOne(atJob, "step_" + a.stepId, afterStep);
    }
    assert atStep == Progress(Attribution(a.jobId, a.stepId, None), true);
    if a.taskId.Some? {
      ClassifyPrinted(a.taskId.value, "s");
      AbsorbOne(atStep, "task_" + Dec(a.taskId.value), afterTask);
    }
  }

  // ---------------------------------------------------------------- Slurm's own hierarchy

  lemma PlainSegments()
    ensures Unrecognised([]) && Unrecognised(["user"]) && Unrecognised(["slurm"]) && Unrecognised(["system"])
    ensures Unrecognised(["user", "task_special"])
  {
    StartsOnce("user");
    assert Spells("user", Other);
    NotAStep("slurm");
    NotAStep("system");
    NotATask("task_special");
  }

  lemma NotAStep(seg: string)
    requires |seg| > 1 && seg[0] == 's' && seg[1] != 't'
    ensures Spells(seg, Other)
  {
    StartsOnce(seg);
    StepExactly(seg);
    assert |seg| > 5 ==> seg[..5][1] == seg[1];
  }

  lemma NotATask(seg: string)
    requires |seg| > 5 && seg[..5] == "task_" && !IsDigit(seg[5])
    ensures Spells(seg, Other)
  {
    StartsOnce(seg);
    TaskExactly(seg);
    assert seg[0] == seg[..5][0] && seg[5..][0] == seg[5];
  }

  /** JOB/STEP/user/TASK, under any parents: the task's processes. */
  lemma SlurmTask(above: seq<string>, job: nat, step: string, task: nat, gaps: seq<nat>)
    requires job < 0x1_0000_0000 && task < 0x1_0000_0000 && step != ""
    requires var segs := above + ["job_" + Dec(job), "step_" + step, "user", "task_" + Dec(task)];
             Segments(segs) && Gaps(segs, gaps)
    ensures Parse(Render(above + ["job_" + Dec(job), "step_" + step, "user", "task_" + Dec(task)], gaps)) ==
            Some(Attribution(job, step, Some(task)))
  {
    var a := Attribution(job, step, Some(task));
    PlainSegments();
    assert Layout(a, [], ["user"], []) == ["job_" + Dec(job), "step_" + step, "user", "task_" + Dec(task)];
    hide Render, Parse, Layout, Unrecognised;
    ParseInvertsLayout(a, above, [], ["user"], [], gaps);
  }

  /** JOB/STEP/slurm, and the tasks Slurm cannot number: the step, and no task. */
  lemma SlurmStep(above: seq<string>, job: nat, step: string, below: seq<string>, gaps: seq<nat>)
    requires job < 0x1_0000_0000 && step != "" && (below == ["slurm"] || below == ["user", "task_special"])
    requires var segs := above + (["job_" + Dec(job), "step_" + step] + below); Segments(segs) && Gaps(segs, gaps)
    ensures Parse(Render(above + (["job_" + Dec(job), "step_" + step] + below), gaps)) ==
            Some(Attribution(job, step, None))
  {
    var a := Attribution(job, step, None);
    PlainSegments();
    assert Layout(a, [], below, []) == ["job_" + Dec(job), "step_" + step] + below;
    hide Render, Parse, Layout, Unrecognised;
    ParseInvertsLayout(a, above, [], below, [], gaps);
  }

  /** slurmstepd's own cgroup, with no job above it, is nobody's. */
  lemma SlurmSystem(above: seq<string>, gaps: seq<nat>)
    requires Segments(above + ["system"]) && Gaps(above + ["system"], gaps)
    requires forall i :: 0 <= i < |above| ==> !SpellsJob(above[i])
    ensures Parse(Render(above + ["system"], gaps)) == None
  {
    PlainSegments();
    SplitRender(above + ["system"], gaps);
    assert Spells(["system"][0], Other);
    hide Render, Split, Parse;
    NoneIffNoJob(Render(above + ["system"], gaps));
  }
}

/** Dependency-ordered start-up of the outbounds, with diagnosis when it gets stuck. */
module StartOrder {
  import opened Numerals

  datatype Outbound = Outbound(tag: string, dependencies: seq<string>)

  function TagAt(outs: seq<Outbound>, i: nat): string
    requires i < |outs|
  {
    if outs[i].tag == "" then Decimal(i) else outs[i].tag
  }

  // ---- the dependency graph ----

  ghost predicate IsTag(outs: seq<Outbound>, t: string) { exists i | 0 <= i < |outs| :: TagAt(outs, i) == t }

  ghost predicate DependsOn(outs: seq<Outbound>, t: string, d: string) {
    exists i | 0 <= i < |outs| :: TagAt(outs, i) == t && d in outs[i].dependencies
  }

  ghost predicate Distinct(outs: seq<Outbound>) {
    forall i, j | 0 <= i < j < |outs| :: TagAt(outs, i) != TagAt(outs, j)
  }

  /** Every dependency is the tag of an outbound. */
  ghost predicate Closed(outs: seq<Outbound>) {
    forall t, d | DependsOn(outs, t, d) :: IsTag(outs, d)
  }

  ghost predicate IsPath(outs: seq<Outbound>, path: seq<string>) {
    forall k | 0 <= k < |path| - 1 :: DependsOn(outs, path[k], path[k + 1])
  }

  ghost predicate IsCycle(outs: seq<Outbound>, path: seq<string>) {
    |path| >= 2 && path[0] == path[|path| - 1] && IsPath(outs, path)
  }

  ghost predicate Acyclic(outs: seq<Outbound>) { forall path: seq<string> :: !IsCycle(outs, path) }

  // ---- what a start log must look like ----

  ghost predicate NoDuplicates(log: seq<string>) { forall i, j | 0 <= i < j < |log| :: log[i] != log[j] }

  /** Every outbound in the log is configured, occurs once, and comes after all its
      dependencies. */
  ghost predicate Ordered(outs: seq<Outbound>, log: seq<string>) {
    NoDuplicates(log) && (forall k | 0 <= k < |log| :: IsTag(outs, log[k])) &&
    forall k, d | 0 <= k < |log| && DependsOn(outs, log[k], d) :: d in log[..k]
  }

  ghost predicate Complete(outs: seq<Outbound>, log: seq<string>) { forall i | 0 <= i < |outs| :: TagAt(outs, i) in log }

  datatype Result =
    | Started
    | DuplicateTag(tag: string)
    | StartFailed(tag: string)
    | Circular(path: seq<string>, back: string)
    | MissingDependency(dependency: string, outbound: string)

  /** The path is a chain of unstarted dependencies that returns to itself. */
  ghost predicate RealCycle(outs: seq<Outbound>, path: seq<string>, back: string) {
    |path| > 0 && IsPath(outs, path) && DependsOn(outs, path[|path| - 1], back) && back in path
  }

  ghost predicate ReallyMissing(outs: seq<Outbound>, dependency: string, outbound: string) {
    DependsOn(outs, outbound, dependency) && !IsTag(outs, dependency)
  }

  // ---- graph facts ----

  /** Along a path inside an ordered log the positions strictly decrease. */
  lemma {:induction false} PathGoesBack(outs: seq<Outbound>, log: seq<string>, path: seq<string>, k: nat)
    requires Ordered(outs, log) && |path| >= 2 && IsPath(outs, path) && k < |log| && path[0] == log[k]
    ensures path[|path| - 1] in log[..k]
    decreases |path|
  {
    assert DependsOn(outs, path[0], path[1]);
    assert path[1] in log[..k];
    if |path| > 2 {
      var l :| 0 <= l < k && log[l] == path[1];
      var tail := path[1..];
      assert IsPath(outs, tail) by {
        forall i | 0 <= i < |tail| - 1 ensures DependsOn(outs, tail[i], tail[i + 1]) {
          assert DependsOn(outs, path[i + 1], path[i + 2]);
        }
      }
      PathGoesBack(outs, log, tail, l);
    }
  }

  /** A complete ordered log proves the dependencies closed and free of cycles. */
  lemma {:induction false} OrderedLogIsWitness(outs: seq<Outbound>, log: seq<string>)
    requires Ordered(outs, log) && Complete(outs, log)
    ensures Closed(outs) && Acyclic(outs)
  {
    forall t, d | DependsOn(outs, t, d) ensures IsTag(outs, d) {
      var i :| 0 <= i < |outs| && TagAt(outs, i) == t && d in outs[i].dependencies;
      var k :| 0 <= k < |log| && log[k] == t;
      assert d in log[..k];
    }
    forall path: seq<string> ensures !IsCycle(outs, path) {
      if IsCycle(outs, path) {
        assert DependsOn(outs, path[0], path[1]);
        var i :| 0 <= i < |outs| && TagAt(outs, i) == path[0] && path[1] in outs[i].dependencies;
        var k :| 0 <= k < |log| && log[k] == path[0];
        PathGoesBack(outs, log, path, k);
      }
    }
  }

  lemma {:induction false} RealCycleIsCycle(outs: seq<Outbound>, path: seq<string>, back: string)
    requires RealCycle(outs, path, back)
    ensures !Acyclic(outs)
  {
    var k :| 0 <= k < |path| && path[k] == back;
    var cycle := path[k..] + [back];
    assert IsPath(outs, cycle) by {
      forall i | 0 <= i < |cycle| - 1 ensures DependsOn(outs, cycle[i], cycle[i + 1]) {
        if i + 1 < |path| - k { assert DependsOn(outs, path[k + i], path[k + i + 1]); }
      }
    }
    assert IsCycle(outs, cycle);
  }

  // ---- lint ----

  /** No unstarted outbound can be started. */
  ghost predicate Stuck(outs: seq<Outbound>, started: set<string>) {
    forall i | 0 <= i < |outs| && TagAt(outs, i) !in started ::
      exists d <- outs[i].dependencies :: d !in started
  }

  ghost function Tags(outs: seq<Outbound>): set<string> { set i | 0 <= i < |outs| :: TagAt(outs, i) }

  lemma {:induction false} DistinctFitsInSet(xs: seq<string>, s: set<string>)
    requires NoDuplicates(xs) && forall k | 0 <= k < |xs| :: xs[k] in s
    ensures |xs| <= |s|
  {
    if xs != [] {
      var last := xs[|xs| - 1];
      var rest := xs[..|xs| - 1];
      assert forall k | 0 <= k < |rest| :: rest[k] == xs[k] && rest[k] != last;
      DistinctFitsInSet(rest, s - {last});
    }
  }

  method FindUnstarted(deps: seq<string>, started: set<string>) returns (found: string)
    requires exists d <- deps :: d !in started
    ensures exists k | 0 <= k < |deps| :: deps[k] == found && found !in started && forall l | 0 <= l < k :: deps[l] in started
  {
    for k := 0 to |deps|
      invariant forall l | 0 <= l < k :: deps[l] in started
    {
      if deps[k] !in started { return deps[k]; }
    }
    assert false;
  }

  /** Follows unstarted dependencies until one repeats or does not exist. */
  method LintOutbound(outs: seq<Outbound>, byTag: map<string, nat>, started: set<string>, tree: seq<string>, current: nat)
      returns (r: Result)
    requires Distinct(outs) && Stuck(outs, started) && current < |outs|
    requires Indexes(outs, byTag)
    requires |tree| > 0 && tree[|tree| - 1] == TagAt(outs, current)
    requires NoDuplicates(tree) && IsPath(outs, tree)
    requires forall k | 0 <= k < |tree| :: tree[k] in Tags(outs) && tree[k] !in started
    ensures (r.Circular? && RealCycle(outs, r.path, r.back)) ||
            (r.MissingDependency? && ReallyMissing(outs, r.dependency, r.outbound))
    decreases |Tags(outs)| - |tree|
  {
    assert TagAt(outs, current) !in started;
    var problem := FindUnstarted(outs[current].dependencies, started);
    assert DependsOn(outs, TagAt(outs, current), problem);
    if problem in tree {
      return Circular(tree, problem);
    }
    if problem !in byTag {
      return MissingDependency(problem, TagAt(outs, current));
    }
    var next := tree + [problem];
    assert problem in Tags(outs) by { assert IsTag(outs, problem); }
    DistinctFitsInSet(next, Tags(outs));
    r := LintOutbound(outs, byTag, started, next, byTag[problem]);
  }

  // ---- start-up ----

  /** Assigns tags; two outbounds with the same tag are refused. */
  method IndexTags(outs: seq<Outbound>) returns (duplicate: Result, byTag: map<string, nat>)
    ensures duplicate.Started? || duplicate.DuplicateTag?
    ensures duplicate.Started? <==> Distinct(outs)
    ensures duplicate.DuplicateTag? ==> exists i, j | 0 <= i < j < |outs| :: TagAt(outs, i) == TagAt(outs, j) == duplicate.tag
    ensures duplicate.Started? ==> Indexes(outs, byTag)
  {
    byTag := map[];
    for i := 0 to |outs|
      invariant forall t | t in byTag :: byTag[t] < i && TagAt(outs, byTag[t]) == t
      invariant forall k | 0 <= k < i :: TagAt(outs, k) in byTag
      invariant forall k, l | 0 <= k < l < i :: TagAt(outs, k) != TagAt(outs, l)
    {
      var t := TagAt(outs, i);
      if t in byTag {
        assert TagAt(outs, byTag[t]) == TagAt(outs, i);
        return DuplicateTag(t), byTag;
      }
      byTag := byTag[t := i];
    }
    return Started, byTag;
  }

  /** The bookkeeping of a start-up in progress. */
  ghost predicate Progress(outs: seq<Outbound>, started: set<string>, log: seq<string>) {
    Ordered(outs, log) && |started| == |log| && forall t :: t in started <==> t in log
  }

  lemma {:induction false} StartOne(outs: seq<Outbound>, started: set<string>, log: seq<string>, i: nat)
    requires Distinct(outs) && Progress(outs, started, log) && i < |outs| && TagAt(outs, i) !in started
    requires forall d <- outs[i].dependencies :: d in started
    ensures Progress(outs, started + {TagAt(outs, i)}, log + [TagAt(outs, i)])
  {
    var t := TagAt(outs, i);
    var log' := log + [t];
    forall k, d | 0 <= k < |log'| && DependsOn(outs, log'[k], d) ensures d in log'[..k] {
      if k < |log| {
        assert d in log[..k] && log'[..k] == log[..k];
      } else {
        var j :| 0 <= j < |outs| && TagAt(outs, j) == t && d in outs[j].dependencies;
        assert j == i && log'[..k] == log;
      }
    }
  }

  method AllIn(deps: seq<string>, started: set<string>) returns (all: bool)
    ensures all <==> forall d <- deps :: d in started
  {
    for k := 0 to |deps|
      invariant forall l | 0 <= l < k :: deps[l] in started
    {
      if deps[k] !in started { return false; }
    }
    return true;
  }

  /** Every outbound depends only on outbounds configured before it. */
  ghost predicate Forward(outs: seq<Outbound>) {
    forall i, d | 0 <= i < |outs| && d in outs[i].dependencies :: exists j | 0 <= j < i :: TagAt(outs, j) == d
  }

  /** The log is the first outbounds in the configured order. */
  ghost predicate InConfiguredOrder(outs: seq<Outbound>, log: seq<string>) {
    |log| <= |outs| && forall k | 0 <= k < |log| :: log[k] == TagAt(outs, k)
  }

  /** After the first outbounds in the configured order the next one is ready. */
  lemma {:induction false} NextInOrder(outs: seq<Outbound>, started: set<string>, log: seq<string>)
    requires Distinct(outs) && Forward(outs) && InConfiguredOrder(outs, log) && |log| < |outs| && Progress(outs, started, log)
    ensures TagAt(outs, |log|) !in started && (forall d <- outs[|log|].dependencies :: d in started)
    ensures InConfiguredOrder(outs, log + [TagAt(outs, |log|)])
  {
    hide Ordered;
    forall k | 0 <= k < |log| ensures log[k] != TagAt(outs, |log|) { assert log[k] == TagAt(outs, k); }
    forall d | d in outs[|log|].dependencies ensures d in started {
      var j :| 0 <= j < |log| && TagAt(outs, j) == d;
      assert log[j] == d;
    }
  }

  /** The outbounds before i that are not started wait for another. */
  ghost predicate StuckBefore(outs: seq<Outbound>, started: set<string>, i: nat) {
    i <= |outs| && forall k | 0 <= k < i && TagAt(outs, k) !in started :: exists d <- outs[k].dependencies :: d !in started
  }

  ghost predicate NoneFails(fails: string -> bool, log: seq<string>, from: nat) { forall k | from <= k < |log| :: !fails(log[k]) }

  /** A pass that has come to outbound i. */
  ghost predicate PassAt(outs: seq<Outbound>, fails: string -> bool, started0: set<string>, log0: seq<string>,
                         started: set<string>, log: seq<string>, i: nat) {
    Progress(outs, started, log) && log0 <= log && NoneFails(fails, log, |log0|) &&
    (|log| == |log0| ==> started == started0 && StuckBefore(outs, started, i)) &&
    (Forward(outs) && log0 == [] ==> |log| == i && InConfiguredOrder(outs, log))
  }

  lemma PassSkips(outs: seq<Outbound>, fails: string -> bool, started0: set<string>, log0: seq<string>,
                  started: set<string>, log: seq<string>, i: nat)
    requires Distinct(outs) && i < |outs| && PassAt(outs, fails, started0, log0, started, log, i)
    requires TagAt(outs, i) in started || exists d <- outs[i].dependencies :: d !in started
    ensures PassAt(outs, fails, started0, log0, started, log, i + 1)
  {
    hide Progress, Distinct, Forward, InConfiguredOrder, NoneFails, TagAt;
    if Forward(outs) && log0 == [] { NextInOrder(outs, started, log); }
  }

  lemma PassStarts(outs: seq<Outbound>, fails: string -> bool, started0: set<string>, log0: seq<string>,
                   started: set<string>, log: seq<string>, i: nat)
    requires Distinct(outs) && i < |outs| && PassAt(outs, fails, started0, log0, started, log, i)
    requires TagAt(outs, i) !in started && forall d <- outs[i].dependencies :: d in started
    ensures var t := TagAt(outs, i); var log' := log + [t];
            Progress(outs, started + {t}, log') && log0 <= log' && log'[..|log|] == log && (Forward(outs) && log0 == [] ==> InConfiguredOrder(outs, log')) &&
            (!fails(t) ==> PassAt(outs, fails, started0, log0, started + {t}, log', i + 1))
  {
    hide Progress, Distinct, Forward, InConfiguredOrder, StuckBefore, TagAt;
    if Forward(outs) && log0 == [] { NextInOrder(outs, started, log); }
    StartOne(outs, started, log, i);
  }

  /** One pass over all outbounds. */
  method Pass(outs: seq<Outbound>, fails: string -> bool, started0: set<string>, log0: seq<string>)
      returns (failed: Result, started: set<string>, log: seq<string>)
    requires Distinct(outs) && Progress(outs, started0, log0)
    ensures Progress(outs, started, log) && log0 <= log
    ensures failed.Started? || failed.StartFailed?
    ensures failed.StartFailed? ==> fails(failed.tag) && log != [] && log[|log| - 1] == failed.tag && NoneFails(fails, log[..|log| - 1], |log0|)
    ensures failed.Started? ==> NoneFails(fails, log, |log0|)
    ensures failed.Started? && log == log0 ==> started == started0 && Stuck(outs, started)
    ensures Forward(outs) && log0 == [] ==> InConfiguredOrder(outs, log) && (failed.Started? ==> |log| == |outs|)
  {
    started, log := started0, log0;
    var i := 0;
    while i < |outs|
      invariant 0 <= i <= |outs| && PassAt(outs, fails, started0, log0, started, log, i)
    {
      hide *;
      var t := TagAt(outs, i);
      if t in started {
        PassSkips(outs, fails, started0, log0, started, log, i);
      } else {
        var ready := AllIn(outs[i].dependencies, started);
        if ready {
          PassStarts(outs, fails, started0, log0, started, log, i);
          if fails(t) {
            PassEnds(outs, fails, started0, log0, started, log, i);
            return StartFailed(t), started + {t}, log + [t];
          }
          started, log := started + {t}, log + [t];
        } else {
          PassSkips(outs, fails, started0, log0, started, log, i);
        }
      }
      i := i + 1;
    }
    hide Progress, Distinct, Forward, InConfiguredOrder, NoneFails, TagAt;
    return Started, started, log;
  }

  lemma PassEnds(outs: seq<Outbound>, fails: string -> bool, started0: set<string>, log0: seq<string>,
                 started: set<string>, log: seq<string>, i: nat)
    requires PassAt(outs, fails, started0, log0, started, log, i)
    ensures NoneFails(fails, log, |log0|)
  {
  }

  lemma {:induction false} AllStarted(outs: seq<Outbound>, started: set<string>, log: seq<string>)
    requires Distinct(outs) && Progress(outs, started, log)
    ensures |log| <= |outs|
    ensures |log| == |outs| <==> Complete(outs, log)
  {
    var tags := Tags(outs);
    TagsCount(outs, |outs|);
    assert (set i | 0 <= i < |outs| :: TagAt(outs, i)) == tags;
    DistinctFitsInSet(log, tags);
    assert started <= tags;
    if |log| == |outs| {
      SubsetOfSameSize(started, tags);
      forall i | 0 <= i < |outs| ensures TagAt(outs, i) in log { assert TagAt(outs, i) in tags; }
    }
    if Complete(outs, log) {
      assert tags <= started;
      SubsetSize(tags, started);
    }
  }

  lemma {:induction false} TagsCount(outs: seq<Outbound>, n: nat)
    requires Distinct(outs) && n <= |outs|
    ensures |set i | 0 <= i < n :: TagAt(outs, i)| == n
  {
    if n > 0 {
      TagsCount(outs, n - 1);
      var before := set i | 0 <= i < n - 1 :: TagAt(outs, i);
      assert (set i | 0 <= i < n :: TagAt(outs, i)) == before + {TagAt(outs, n - 1)};
    }
  }

  lemma SubsetOfSameSize(a: set<string>, b: set<string>)
    requires a <= b && |a| == |b|
    ensures a == b
  {
    if a != b {
      var x :| x in b && x !in a;
      assert a <= b - {x};
      SubsetSize(a, b - {x});
    }
  }

  lemma {:induction false} SubsetSize(a: set<string>, b: set<string>)
    requires a <= b
    ensures |a| <= |b|
  {
    if a != {} {
      var x :| x in a;
      SubsetSize(a - {x}, b - {x});
    }
  }

  ghost predicate Indexes(outs: seq<Outbound>, byTag: map<string, nat>) {
    (forall t :: t in byTag <==> IsTag(outs, t)) &&
    forall t | t in byTag :: byTag[t] < |outs| && TagAt(outs, byTag[t]) == t
  }

  /** Explains why a stuck start-up cannot go on, from the first unstarted outbound. */
  method Diagnose(outs: seq<Outbound>, byTag: map<string, nat>, started: set<string>) returns (r: Result)
    requires Distinct(outs) && Stuck(outs, started) && Indexes(outs, byTag)
    requires exists i | 0 <= i < |outs| :: TagAt(outs, i) !in started
    ensures (r.Circular? && RealCycle(outs, r.path, r.back)) ||
            (r.MissingDependency? && ReallyMissing(outs, r.dependency, r.outbound))
    ensures !(Closed(outs) && Acyclic(outs))
  {
    var i := 0;
    while TagAt(outs, i) in started
      invariant 0 <= i < |outs|
      invariant forall k | 0 <= k < i :: TagAt(outs, k) in started
      decreases |outs| - i
    {
      i := i + 1;
    }
    assert TagAt(outs, i) in Tags(outs);
    r := LintOutbound(outs, byTag, started, [TagAt(outs, i)], i);
    if r.Circular? { RealCycleIsCycle(outs, r.path, r.back); }
  }

  /** Passes until every outbound is started, one fails, or a pass starts nothing. */
  method Saturate(outs: seq<Outbound>, byTag: map<string, nat>, fails: string -> bool) returns (r: Result, log: seq<string>)
    requires Distinct(outs) && Indexes(outs, byTag)
    ensures Ordered(outs, log) && !r.DuplicateTag?
    ensures r.Started? ==> Complete(outs, log) && forall k | 0 <= k < |log| :: !fails(log[k])
    ensures r.StartFailed? ==> fails(r.tag) && log != [] && log[|log| - 1] == r.tag && forall k | 0 <= k < |log| - 1 :: !fails(log[k])
    ensures r.Circular? ==> RealCycle(outs, r.path, r.back)
    ensures r.MissingDependency? ==> ReallyMissing(outs, r.dependency, r.outbound)
    ensures r.Circular? || r.MissingDependency? ==> !(Closed(outs) && Acyclic(outs)) && !Complete(outs, log)
    ensures Forward(outs) ==> InConfiguredOrder(outs, log)
  {
    hide Closed, Acyclic, Ordered, RealCycle, ReallyMissing, Stuck, Distinct;
    log := [];
    var started: set<string> := {};
    NothingStarted(outs);
    while true
      invariant Progress(outs, started, log) && forall k | 0 <= k < |log| :: !fails(log[k])
      invariant Forward(outs) ==> log == []
      decreases |outs| - |log|
    {
      var before := |log|;
      var failed;
      failed, started, log := Pass(outs, fails, started, log);
      AllStarted(outs, started, log);
      if failed.StartFailed? { return failed, log; }
      if |started| == |outs| { return Started, log; }
      if |log| == before {
        r := Diagnose(outs, byTag, started);
        return;
      }
    }
  }

  lemma NothingStarted(outs: seq<Outbound>)
    ensures Progress(outs, {}, [])
  {
  }

  /** Box.startOutbounds. log lists the outbounds started, in order. An error while
      starting the providers is reported as success with nothing started. */
  method StartOutbounds(outs: seq<Outbound>, providersOk: bool, fails: string -> bool)
      returns (r: Result, log: seq<string>)
    ensures r.DuplicateTag? <==> !Distinct(outs)
    ensures !Distinct(outs) || !providersOk ==> log == []
    ensures Distinct(outs) && !providersOk ==> r == Started
    ensures Ordered(outs, log)
    ensures Distinct(outs) && providersOk ==> (r.Started? <==> Complete(outs, log) && forall k | 0 <= k < |log| :: !fails(log[k]))
    ensures Distinct(outs) && providersOk && (forall t :: !fails(t)) ==> (r.Started? <==> Closed(outs) && Acyclic(outs))
    ensures r.StartFailed? ==> fails(r.tag) && log != [] && log[|log| - 1] == r.tag && forall k | 0 <= k < |log| - 1 :: !fails(log[k])
    ensures r.Circular? ==> RealCycle(outs, r.path, r.back)
    ensures r.MissingDependency? ==> ReallyMissing(outs, r.dependency, r.outbound)
    ensures Forward(outs) ==> InConfiguredOrder(outs, log)
  {
    var duplicate, byTag := IndexTags(outs);
    if duplicate.DuplicateTag? { return duplicate, []; }
    if !providersOk { return Started, []; }
    hide Closed, Acyclic, Ordered, RealCycle, ReallyMissing;
    r, log := Saturate(outs, byTag, fails);
    if r.Started? { OrderedLogIsWitness(outs, log); }
  }
}

/** Refreshing a provider: change detection, fresh tags for the new outbounds, and the index
    from tag to outbound that the router looks through. */
module ProviderRefresh {
  import opened Wrappers
  import opened Numerals

  // ---- change detection ----

  /** Parsed options of one outbound; body stands for everything but the tag. */
  datatype Options = Options(tag: string, body: string)

  /** The options by tag; a later entry replaces an earlier one. */
  function ByTag(outs: seq<Options>): map<string, Options> {
    if outs == [] then map[]
    else
      var last := outs[|outs| - 1];
      ByTag(outs[..|outs| - 1])[last.tag := last]
  }

  predicate Unchanged(before: seq<Options>, after: seq<Options>) {
    |before| == |after| && forall it <- after :: it.tag in ByTag(before) && ByTag(before)[it.tag] == it
  }

  ghost predicate DistinctOptions(outs: seq<Options>) {
    forall i, j | 0 <= i < j < |outs| :: outs[i].tag != outs[j].tag
  }

  lemma {:induction false} ByTagHoldsMembers(outs: seq<Options>)
    ensures forall t | t in ByTag(outs) :: ByTag(outs)[t].tag == t && ByTag(outs)[t] in outs
  {
    if outs != [] { ByTagHoldsMembers(outs[..|outs| - 1]); }
  }

  lemma {:induction false} DistinctByTagIsExact(outs: seq<Options>)
    requires DistinctOptions(outs)
    ensures forall it <- outs :: it.tag in ByTag(outs) && ByTag(outs)[it.tag] == it
  {
    if outs != [] {
      var front, last := outs[..|outs| - 1], outs[|outs| - 1];
      DistinctByTagIsExact(front);
      forall it | it in outs ensures it.tag in ByTag(outs) && ByTag(outs)[it.tag] == it {
        assert it in front || it == last;
      }
    }
  }

  lemma {:induction false} DistinctCountsOnce(outs: seq<Options>, x: Options)
    requires DistinctOptions(outs)
    ensures multiset(outs)[x] <= 1
  {
    if outs != [] {
      var front, last := outs[..|outs| - 1], outs[|outs| - 1];
      assert outs == front + [last];
      DistinctCountsOnce(front, x);
      if last == x { assert x !in front; }
    }
  }

  lemma {:induction false} RepeatCountsTwice(outs: seq<Options>, i: nat, j: nat)
    requires i < j < |outs| && outs[i] == outs[j]
    ensures multiset(outs)[outs[i]] >= 2
  {
    assert outs == outs[..j] + [outs[j]] + outs[j + 1..];
    assert outs[j] == outs[..j][i];
  }

  /** A permutation of a list with distinct tags has distinct tags. */
  lemma {:induction false} PermutedIsDistinct(before: seq<Options>, after: seq<Options>)
    requires DistinctOptions(after) && multiset(before) == multiset(after)
    ensures DistinctOptions(before)
  {
    forall i, j | 0 <= i < j < |before| ensures before[i].tag != before[j].tag {
      if before[i].tag == before[j].tag {
        assert before[i] in multiset(before) && before[j] in multiset(before);
        assert before[i] in after && before[j] in after;
        assert before[i] == before[j];
        RepeatCountsTwice(before, i, j);
        DistinctCountsOnce(after, before[i]);
      }
    }
  }

  /** No change is reported exactly for a permutation of the old list, whenever the new tags
      are distinct. */
  lemma {:induction false} UnchangedIffPermutation(before: seq<Options>, after: seq<Options>)
    requires DistinctOptions(after)
    ensures Unchanged(before, after) <==> multiset(before) == multiset(after)
  {
    var old_, new_ := multiset(before), multiset(after);
    if Unchanged(before, after) {
      ByTagHoldsMembers(before);
      forall x ensures new_[x] <= old_[x] {
        DistinctCountsOnce(after, x);
        if x in after { assert x in before; }
      }
      assert new_ <= old_;
      assert |old_ - new_| == 0;
      assert old_ == new_ + (old_ - new_);
    }
    if old_ == new_ {
      assert |before| == |old_| && |after| == |new_|;
      PermutedIsDistinct(before, after);
      DistinctByTagIsExact(before);
      forall it | it in after ensures it in before { assert it in new_; }
    }
  }

  lemma {:induction false} LastIsKept(outs: seq<Options>, l: nat)
    requires l < |outs| && forall j | l < j < |outs| :: outs[j].tag != outs[l].tag
    ensures outs[l].tag in ByTag(outs) && ByTag(outs)[outs[l].tag] == outs[l]
  {
    if l < |outs| - 1 {
      var front := outs[..|outs| - 1];
      LastIsKept(front, l);
      assert outs[|outs| - 1].tag != outs[l].tag;
    }
  }

  lemma {:induction false} LastOf(outs: seq<Options>, k: nat) returns (l: nat)
    requires k < |outs|
    ensures k <= l < |outs| && outs[l].tag == outs[k].tag && forall j | l < j < |outs| :: outs[j].tag != outs[l].tag
    decreases |outs| - k
  {
    if j :| k < j < |outs| && outs[j].tag == outs[k].tag {
      l := LastOf(outs, j);
    } else {
      l := k;
    }
  }

  ghost predicate Detects(before: seq<Options>, after: seq<Options>) {
    Unchanged(before, after) <==> multiset(before) == multiset(after)
  }

  /** Two different entries of one tag: the list counts as changed against itself. */
  lemma {:induction false} ConflictIsReported(outs: seq<Options>, i: nat, j: nat)
    requires i < j < |outs| && outs[i].tag == outs[j].tag && outs[i] != outs[j]
    ensures !Detects(outs, outs)
  {
    assert outs[i] in outs && outs[j] in outs;
  }

  /** The same entry twice: changing the earlier one goes unnoticed. */
  lemma {:induction false} RepeatHidesChange(outs: seq<Options>, i: nat, j: nat)
    requires i < j < |outs| && outs[i] == outs[j]
    requires forall m, n | 0 <= m < n < |outs| && outs[m].tag == outs[n].tag :: outs[m] == outs[n]
    ensures !Detects(outs[i := Options(outs[i].tag, outs[i].body + "x")], outs)
  {
    hide ByTag;
    var before := outs[i := Options(outs[i].tag, outs[i].body + "x")];
    forall it | it in outs ensures it.tag in ByTag(before) && ByTag(before)[it.tag] == it {
      var k :| 0 <= k < |outs| && outs[k] == it;
      var l := LastOf(outs, k);
      assert l != i;
      LastIsKept(before, l);
    }
    assert Unchanged(before, outs);
    assert |before[i].body| == |outs[i].body| + 1;
    ReplacedIsDifferent(outs, i, before[i]);
  }

  lemma {:induction false} ReplacedIsDifferent(outs: seq<Options>, i: nat, x: Options)
    requires i < |outs| && x != outs[i]
    ensures multiset(outs[i := x]) != multiset(outs)
  {
    assert multiset(outs[i := x]) == multiset(outs) - multiset{outs[i]} + multiset{x};
    assert multiset(outs)[outs[i]] > 0;
  }

  /** Change detection is exact for a new list, against every old one, if and only if the new
      tags are distinct. */
  lemma {:induction false} DetectionIsExactIffDistinct(after: seq<Options>)
    ensures DistinctOptions(after) <==> forall before :: Detects(before, after)
  {
    if DistinctOptions(after) {
      forall before ensures Detects(before, after) { UnchangedIffPermutation(before, after); }
    } else {
      var i, j :| 0 <= i < j < |after| && after[i].tag == after[j].tag;
      if m, n :| 0 <= m < n < |after| && after[m].tag == after[n].tag && after[m] != after[n] {
        ConflictIsReported(after, m, n);
      } else {
        RepeatHidesChange(after, i, j);
      }
    }
  }

  method CheckChange(lastOuts: seq<Options>, outs: seq<Options>) returns (changed: bool)
    ensures changed <==> !Unchanged(lastOuts, outs)
  {
    if |lastOuts| != |outs| { return true; }
    var outMap: map<string, Options> := map[];
    for i := 0 to |lastOuts|
      invariant outMap == ByTag(lastOuts[..i])
    {
      assert lastOuts[..i + 1][..i] == lastOuts[..i];
      outMap := outMap[lastOuts[i].tag := lastOuts[i]];
    }
    assert lastOuts[..|lastOuts|] == lastOuts;
    for i := 0 to |outs|
      invariant forall k | 0 <= k < i :: outs[k].tag in outMap && outMap[outs[k].tag] == outs[k]
    {
      if outs[i].tag !in outMap || outMap[outs[i].tag] != outs[i] {
        assert outs[i] in outs;
        return true;
      }
    }
    return false;
  }

  // ---- fresh tags ----

  function Suffixed(tag: string, k: nat): string { tag + "[" + Decimal(k) + "]" }

  lemma {:induction false} SuffixIsInjective(tag: string, m: nat, n: nat)
    requires Suffixed(tag, m) == Suffixed(tag, n)
    ensures m == n
  {
    var a, b := Decimal(m), Decimal(n);
    var s, t := Suffixed(tag, m), Suffixed(tag, n);
    assert s[|tag| + 1..|s| - 1] == a && t[|tag| + 1..|t| - 1] == b;
    DecimalIsInjective(m, n);
  }

  /** The taken tags that the search can still run into from k on. */
  ghost function Blocking(taken: set<string>, tag: string, k: nat): set<string> {
    set t | t in taken && exists j: nat :: k <= j && t == Suffixed(tag, j)
  }

  lemma {:induction false} SearchAdvances(taken: set<string>, tag: string, k: nat)
    requires Suffixed(tag, k) in taken
    ensures Blocking(taken, tag, k + 1) < Blocking(taken, tag, k)
  {
    var hit := Suffixed(tag, k);
    assert hit in Blocking(taken, tag, k);
    if hit in Blocking(taken, tag, k + 1) {
      var j: nat :| k + 1 <= j && hit == Suffixed(tag, j);
      SuffixIsInjective(tag, k, j);
    }
  }

  /** The first numbered tag from k on that is not taken. */
  function FirstFree(taken: set<string>, tag: string, k: nat): (r: nat)
    ensures r >= k && Suffixed(tag, r) !in taken && forall j: nat | k <= j < r :: Suffixed(tag, j) in taken
    decreases Blocking(taken, tag, k)
  {
    if Suffixed(tag, k) !in taken then k else SearchAdvances(taken, tag, k); FirstFree(taken, tag, k + 1)
  }

  method Search(taken: set<string>, tag: string) returns (free: string)
    ensures free == Suffixed(tag, FirstFree(taken, tag, 1))
  {
    var k := 1;
    free := Suffixed(tag, k);
    while free in taken
      invariant k >= 1 && free == Suffixed(tag, k) && FirstFree(taken, tag, k) == FirstFree(taken, tag, 1)
      decreases Blocking(taken, tag, k)
    {
      SearchAdvances(taken, tag, k);
      k := k + 1;
      free := Suffixed(tag, k);
    }
  }

  /** The tag wanted for the i-th outbound of provider p. */
  function Wanted(p: string, i: nat, tag: string): string {
    if tag == "" then "[" + p + "]" + Decimal(i) else tag
  }

  /** The tag the outbound ends up with, and the tag recorded as taken. SetTag is only called
      on a clash, so an outbound without a tag keeps none when the wanted one is free. */
  function Assign(taken: set<string>, p: string, i: nat, tag: string): (string, string) {
    var wanted := Wanted(p, i, tag);
    if wanted in taken then
      var free := Suffixed(wanted, FirstFree(taken, wanted, 1));
      (free, free)
    else (tag, wanted)
  }

  /** All final tags, and the tags taken afterwards. */
  function AssignAll(taken: set<string>, p: string, tags: seq<string>): (seq<string>, set<string>) {
    if tags == [] then ([], taken)
    else
      var n := |tags| - 1;
      var (done, now) := AssignAll(taken, p, tags[..n]);
      var (tag, claimed) := Assign(now, p, n, tags[n]);
      (done + [tag], now + {claimed})
  }

  ghost predicate DistinctTags(tags: seq<string>) { forall i, j | 0 <= i < j < |tags| :: tags[i] != tags[j] }

  /** Two final tags are equal, or one is already taken elsewhere, only if it is empty; an
      empty one was parsed empty. */
  ghost predicate FreshBut(taken: set<string>, now: set<string>, tags: seq<string>, done: seq<string>) {
    taken <= now && |done| == |tags| &&
    (forall i | 0 <= i < |done| :: (done[i] == "" ==> tags[i] == "") && (done[i] != "" ==> done[i] !in taken && done[i] in now)) &&
    (forall i, j | 0 <= i < j < |done| :: done[i] == done[j] ==> done[i] == "")
  }

  lemma {:induction false} AssignedAreFresh(taken: set<string>, p: string, tags: seq<string>)
    ensures FreshBut(taken, AssignAll(taken, p, tags).1, tags, AssignAll(taken, p, tags).0)
  {
    if tags != [] {
      AssignedAreFresh(taken, p, tags[..|tags| - 1]);
    }
  }

  ghost predicate NoneEmpty(tags: seq<string>) { forall i | 0 <= i < |tags| :: tags[i] != "" }

  ghost predicate Avoids(tags: seq<string>, taken: set<string>) { forall i | 0 <= i < |tags| :: tags[i] !in taken }

  /** Nonempty tags come out distinct and different from every other outbound's. */
  lemma {:induction false} NonemptyTagsComeOutDistinct(taken: set<string>, p: string, tags: seq<string>)
    requires NoneEmpty(tags)
    ensures var done := AssignAll(taken, p, tags).0; |done| == |tags| && DistinctTags(done) && Avoids(done, taken) && NoneEmpty(done)
  {
    AssignedAreFresh(taken, p, tags);
  }

  /** Outbound i was parsed without a tag, and its generated one is free and no tag parsed
      before it. */
  ghost predicate StaysUntagged(taken: set<string>, p: string, tags: seq<string>, i: nat) {
    i < |tags| && tags[i] == "" && Wanted(p, i, "") !in taken && Wanted(p, i, "") !in tags[..i]
  }

  predicate EndsInDigit(s: string) { s != "" && '0' <= s[|s| - 1] <= '9' }

  lemma {:induction false} GeneratedEndsInDigit(p: string, i: nat)
    ensures EndsInDigit(Wanted(p, i, ""))
  {
    DecimalIsLonger(i);
    var w, d := Wanted(p, i, ""), Decimal(i);
    assert w[|w| - 1] == d[|d| - 1] == ('0' as int + i % 10) as char;
  }

  lemma {:induction false} GeneratedIsInjective(p: string, i: nat, j: nat)
    requires Wanted(p, i, "") == Wanted(p, j, "")
    ensures i == j
  {
    var a, b := Wanted(p, i, ""), Wanted(p, j, "");
    assert a[|p| + 2..] == Decimal(i) && b[|p| + 2..] == Decimal(j);
    DecimalIsInjective(i, j);
  }

  /** A tag that ends in a digit is taken afterwards only if it was before or was wanted: the
      suffixed ones end in a bracket. */
  lemma {:induction false} TakenOnlyIfWanted(taken: set<string>, p: string, tags: seq<string>, g: string)
    requires EndsInDigit(g)
    ensures g in AssignAll(taken, p, tags).1 <==> g in taken || exists j | 0 <= j < |tags| :: Wanted(p, j, tags[j]) == g
  {
    hide FirstFree;
    if tags != [] {
      var n := |tags| - 1;
      var front := tags[..n];
      TakenOnlyIfWanted(taken, p, front, g);
      var now, wanted := AssignAll(taken, p, front).1, Wanted(p, n, tags[n]);
      if wanted in now {
        var free := Suffixed(wanted, FirstFree(now, wanted, 1));
        assert free[|free| - 1] == ']';
      }
      assert forall j | 0 <= j < n :: front[j] == tags[j];
    }
  }

  /** Which outbounds end up without a tag, told from the parsed tags. */
  lemma {:induction false} UntaggedExactly(taken: set<string>, p: string, tags: seq<string>, i: nat)
    requires i < |tags|
    ensures |AssignAll(taken, p, tags).0| == |tags|
    ensures AssignAll(taken, p, tags).0[i] == "" <==> StaysUntagged(taken, p, tags, i)
    decreases |tags|
  {
    var n := |tags| - 1;
    var front := tags[..n];
    AssignedAreFresh(taken, p, tags);
    AssignedAreFresh(taken, p, front);
    if i < n {
      UntaggedExactly(taken, p, front, i);
      assert front[..i] == tags[..i];
    } else {
      UntaggedLast(taken, p, tags);
    }
  }

  lemma {:induction false} UntaggedLast(taken: set<string>, p: string, tags: seq<string>)
    requires tags != []
    ensures var n := |tags| - 1;
            Assign(AssignAll(taken, p, tags[..n]).1, p, n, tags[n]).0 == "" <==> StaysUntagged(taken, p, tags, n)
  {
    var n := |tags| - 1;
    var front, g := tags[..n], Wanted(p, n, "");
    GeneratedEndsInDigit(p, n);
    TakenOnlyIfWanted(taken, p, front, g);
    forall j | 0 <= j < n ensures Wanted(p, j, front[j]) == g <==> front[j] == g {
      if front[j] == "" && Wanted(p, j, "") == g { GeneratedIsInjective(p, j, n); }
    }
  }

  /** The tags come out distinct exactly when at most one outbound stays without a tag. */
  lemma {:induction false} DistinctIffOneUntagged(taken: set<string>, p: string, tags: seq<string>)
    ensures DistinctTags(AssignAll(taken, p, tags).0) <==>
            forall i, j | 0 <= i < j < |tags| :: !StaysUntagged(taken, p, tags, i) || !StaysUntagged(taken, p, tags, j)
  {
    hide AssignAll;
    AssignedAreFresh(taken, p, tags);
    forall i | 0 <= i < |tags| ensures AssignAll(taken, p, tags).0[i] == "" <==> StaysUntagged(taken, p, tags, i) {
      UntaggedExactly(taken, p, tags, i);
    }
  }

  /** Two outbounds without a tag whose generated names are free both stay without one. */
  lemma {:induction false} UntaggedCollide(taken: set<string>, p: string)
    requires Wanted(p, 0, "") !in taken && Wanted(p, 1, "") !in taken
    ensures AssignAll(taken, p, ["", ""]).0 == ["", ""]
  {
    var one := [""];
    assert ["", ""][..1] == one && one[..0] == [];
    assert AssignAll(taken, p, []) == ([], taken) && [] + one == one;
    assert AssignAll(taken, p, one) == ([""], taken + {Wanted(p, 0, "")});
    assert one + one == ["", ""];
    if Wanted(p, 0, "") == Wanted(p, 1, "") {
      var a, b := Wanted(p, 0, ""), Wanted(p, 1, "");
      assert a[|p| + 2..] == Decimal(0) && b[|p| + 2..] == Decimal(1);
      DecimalIsInjective(0, 1);
    }
  }

  /** Tags without any clash are left alone. */
  lemma {:induction false} CleanTagsAreKept(taken: set<string>, p: string, tags: seq<string>)
    requires NoneEmpty(tags) && DistinctTags(tags) && Avoids(tags, taken)
    ensures AssignAll(taken, p, tags).0 == tags && forall t <- AssignAll(taken, p, tags).1 :: t in taken || t in tags
  {
    hide FirstFree;
    if tags != [] {
      var front, last := tags[..|tags| - 1], tags[|tags| - 1];
      CleanTagsAreKept(taken, p, front);
      assert tags == front + [last] && last !in front && last !in taken;
      assert Assign(AssignAll(taken, p, front).1, p, |front|, last) == (last, last);
    }
  }

  /** The names in use after the first outbounds got these tags. */
  ghost function InUse(taken: set<string>, p: string, done: seq<string>): set<string> {
    taken + set j | 0 <= j < |done| :: Wanted(p, j, done[j])
  }

  lemma {:induction false} TakenAfterwards(taken: set<string>, p: string, tags: seq<string>)
    ensures AssignAll(taken, p, tags).1 == InUse(taken, p, AssignAll(taken, p, tags).0) && |AssignAll(taken, p, tags).0| == |tags|
  {
    hide FirstFree;
    if tags != [] {
      var n := |tags| - 1;
      TakenAfterwards(taken, p, tags[..n]);
      var (done, now) := AssignAll(taken, p, tags[..n]);
      var (tag, claimed) := Assign(now, p, n, tags[n]);
      assert claimed == Wanted(p, n, tag);
      OneMoreInUse(taken, p, done, tag);
    }
  }

  lemma {:induction false} OneMoreInUse(taken: set<string>, p: string, done: seq<string>, tag: string)
    ensures InUse(taken, p, done + [tag]) == InUse(taken, p, done) + {Wanted(p, |done|, tag)}
  {
    hide Wanted;
    var all := done + [tag];
    assert all[|done|] == tag && forall j | 0 <= j < |done| :: all[j] == done[j];
    forall t ensures t in InUse(taken, p, all) <==> t in InUse(taken, p, done) + {Wanted(p, |done|, tag)} {
      if t in InUse(taken, p, all) && t !in taken {
        var j :| 0 <= j < |all| && t == Wanted(p, j, all[j]);
        if j < |done| { assert t in InUse(taken, p, done); }
      }
      if t in InUse(taken, p, done) && t !in taken {
        var j :| 0 <= j < |done| && t == Wanted(p, j, done[j]);
        assert t == Wanted(p, j, all[j]);
      }
      if t == Wanted(p, |done|, tag) { assert t == Wanted(p, |done|, all[|done|]); }
    }
  }

  /** tag is the wanted one with the least number from one on that is not in use. */
  ghost predicate Numbered(inUse: set<string>, wanted: string, tag: string) {
    exists k: nat :: k >= 1 && tag == wanted + "[" + Decimal(k) + "]" && tag !in inUse &&
      forall j: nat | 1 <= j < k :: wanted + "[" + Decimal(j) + "]" in inUse
  }

  /** Each outbound in turn: a name not in use is left as it was parsed, and else it gets the
      least number that makes it unused. */
  lemma {:induction false} TagsTold(taken: set<string>, p: string, tags: seq<string>, i: nat)
    requires i < |tags|
    ensures var done := AssignAll(taken, p, tags).0;
            |done| == |tags| &&
            var inUse, wanted := InUse(taken, p, done[..i]), if tags[i] == "" then "[" + p + "]" + Decimal(i) else tags[i];
            if wanted !in inUse then done[i] == tags[i] else Numbered(inUse, wanted, done[i])
    decreases |tags|
  {
    var n := |tags| - 1;
    var front := tags[..n];
    TakenAfterwards(taken, p, front);
    var (done, now) := AssignAll(taken, p, front);
    var all := AssignAll(taken, p, tags).0;
    assert all[..n] == done;
    if i < n {
      TagsTold(taken, p, front, i);
      assert all[..i] == done[..i];
    } else {
      hide AssignAll, InUse;
      var wanted := Wanted(p, n, tags[n]);
      if wanted in now {
        var k := FirstFree(now, wanted, 1);
        assert Numbered(now, wanted, Suffixed(wanted, k)) by {
          assert forall j: nat :: Suffixed(wanted, j) == wanted + "[" + Decimal(j) + "]";
        }
      }
    }
  }

  // ---- outbounds, providers and the router ----

  class Outbound {
    var tag: string

    constructor (tag: string)
      ensures this.tag == tag
    {
      this.tag := tag;
    }
  }

  function TagsOf(outs: seq<Outbound>): (tags: seq<string>)
    reads outs
    ensures |tags| == |outs| && forall i | 0 <= i < |outs| :: tags[i] == outs[i].tag
  {
    if outs == [] then [] else TagsOf(outs[..|outs| - 1]) + [outs[|outs| - 1].tag]
  }

  /** The index over a list: it names the last outbound of each tag. */
  ghost predicate Indexes(m: map<string, Outbound>, outs: seq<Outbound>)
    reads outs
  {
    (forall t | t in m :: m[t] in outs && m[t].tag == t) &&
    (forall i | 0 <= i < |outs| :: outs[i].tag in m) &&
    (forall i | 0 <= i < |outs| && (forall j | i < j < |outs| :: outs[j].tag != outs[i].tag) :: m[outs[i].tag] == outs[i])
  }

  /** Over distinct tags the index finds every outbound of the list, and nothing else. */
  lemma {:induction false} DistinctIndexIsExact(m: map<string, Outbound>, outs: seq<Outbound>, o: Outbound)
    requires Indexes(m, outs) && DistinctTags(TagsOf(outs))
    ensures o in outs <==> o.tag in m && m[o.tag] == o
  {
    if o in outs {
      var i :| 0 <= i < |outs| && outs[i] == o;
      forall j | i < j < |outs| ensures outs[j].tag != outs[i].tag {
        assert TagsOf(outs)[i] != TagsOf(outs)[j];
      }
    }
  }

  method BuildIndex(outs: seq<Outbound>) returns (m: map<string, Outbound>)
    ensures Indexes(m, outs)
  {
    m := map[];
    for k := 0 to |outs|
      invariant forall t | t in m :: m[t] in outs[..k] && m[t].tag == t
      invariant forall i | 0 <= i < k :: outs[i].tag in m
      invariant forall i | 0 <= i < k && (forall j | i < j < k :: outs[j].tag != outs[i].tag) :: m[outs[i].tag] == outs[i]
    {
      m := m[outs[k].tag := outs[k]];
    }
  }

  class Provider {
    const tag: string
    var outbounds: seq<Outbound>
    var outboundByTag: map<string, Outbound>
    var lastOuts: seq<Options>

    /** The tags of the provider's outbounds may have been changed since it was indexed. */
    method UpdateOutboundByTag()
      modifies `outboundByTag
      ensures Indexes(outboundByTag, outbounds)
    {
      outboundByTag := BuildIndex(outbounds);
    }
  }

  class Router {
    var started: bool
    var outbounds: seq<Outbound>
    var outboundByTag: map<string, Outbound>
    var providers: seq<Provider>
  }

  function ProvidedBy(ps: seq<Provider>, tag: string): Option<Outbound>
    reads ps
  {
    if ps == [] then None
    else if tag in ps[0].outboundByTag then Some(ps[0].outboundByTag[tag])
    else ProvidedBy(ps[1..], tag)
  }

  /** OutboundWithProvider: the router's own outbounds first, then each provider's. */
  function Lookup(r: Router, tag: string): Option<Outbound>
    reads r, r.providers
  {
    if tag in r.outboundByTag then Some(r.outboundByTag[tag]) else ProvidedBy(r.providers, tag)
  }

  /** A tag is looked up in the router's own index and then in the providers', in order. */
  lemma {:induction false} LookupTold(r: Router, tag: string)
    ensures tag in r.outboundByTag ==> Lookup(r, tag) == Some(r.outboundByTag[tag])
    ensures tag !in r.outboundByTag ==>
              (forall k | 0 <= k < |r.providers| && Answers(r.providers, tag, k) :: Lookup(r, tag) == Some(r.providers[k].outboundByTag[tag])) &&
              ((forall q <- r.providers :: tag !in q.outboundByTag) ==> Lookup(r, tag) == None)
  {
    if tag !in r.outboundByTag {
      forall k | 0 <= k < |r.providers| && Answers(r.providers, tag, k)
        ensures Lookup(r, tag) == Some(r.providers[k].outboundByTag[tag])
      {
        FirstAnswers(r.providers, tag, k);
      }
      if forall q <- r.providers :: tag !in q.outboundByTag { NobodyAnswers(r.providers, tag); }
    }
  }

  /** Provider k is the first that knows the tag. */
  ghost predicate Answers(ps: seq<Provider>, tag: string, k: nat)
    reads ps
  {
    k < |ps| && tag in ps[k].outboundByTag && forall j | 0 <= j < k :: tag !in ps[j].outboundByTag
  }

  lemma {:induction false} FirstAnswers(ps: seq<Provider>, tag: string, k: nat)
    requires Answers(ps, tag, k)
    ensures ProvidedBy(ps, tag) == Some(ps[k].outboundByTag[tag])
  {
    if k > 0 {
      assert forall j | 0 <= j < k - 1 :: ps[1..][j] == ps[j + 1];
      FirstAnswers(ps[1..], tag, k - 1);
    }
  }

  lemma {:induction false} NobodyAnswers(ps: seq<Provider>, tag: string)
    requires forall q <- ps :: tag !in q.outboundByTag
    ensures ProvidedBy(ps, tag) == None
  {
    if ps != [] {
      assert ps[0] in ps;
      NobodyAnswers(ps[1..], tag);
    }
  }

  lemma {:induction false} OnlyProviderAnswers(ps: seq<Provider>, p: Provider, tag: string)
    requires p in ps && tag in p.outboundByTag
    requires forall q <- ps | q != p :: tag !in q.outboundByTag
    ensures ProvidedBy(ps, tag) == Some(p.outboundByTag[tag])
  {
    if ps[0] != p { OnlyProviderAnswers(ps[1..], p, tag); }
  }

  /** Every outbound that the router or a provider holds. */
  ghost function Held(r: Router): set<Outbound>
    reads r, r.providers`outbounds
  {
    (set o | o in r.outbounds) + (set p, o | p in r.providers && o in p.outbounds :: o)
  }

  /** The tags a refresh of provider pTag must avoid. An unstarted router shows none of its
      own outbounds. */
  ghost function Taken(r: Router, pTag: string): set<string>
    reads r, r.providers`outbounds, Held(r)
  {
    (set o | r.started && o in r.outbounds :: o.tag) + (set p, o | p in r.providers && p.tag != pTag && o in p.outbounds :: o.tag)
  }

  method AddTags(outs: seq<Outbound>, taken: set<string>) returns (more: set<string>)
    ensures more == taken + (set o | o in outs :: o.tag)
  {
    more := taken;
    for k := 0 to |outs|
      invariant more == taken + (set o | o in outs[..k] :: o.tag)
    {
      more := more + {outs[k].tag};
    }
  }

  method CollectTaken(r: Router, pTag: string) returns (taken: set<string>)
    ensures taken == old(Taken(r, pTag))
  {
    taken := {};
    if r.started { taken := AddTags(r.outbounds, taken); }
    for k := 0 to |r.providers|
      invariant taken == (set o | r.started && o in r.outbounds :: o.tag) +
                         (set p, o | p in r.providers[..k] && p.tag != pTag && o in p.outbounds :: o.tag)
    {
      if r.providers[k].tag != pTag { taken := AddTags(r.providers[k].outbounds, taken); }
    }
  }

  /** The new objects are distinct from each other and from all that the router holds. */
  ghost predicate Separate(r: Router, outs: seq<Outbound>)
    reads r, r.providers`outbounds
  {
    (forall i, j | 0 <= i < j < |outs| :: outs[i] != outs[j]) && forall o <- outs :: o !in Held(r)
  }

  /** Gives one outbound a numbered tag if the wanted one is taken. */
  method Retag(o: Outbound, pTag: string, i: nat, taken: set<string>) returns (claimed: string)
    modifies o
    ensures (o.tag, claimed) == Assign(taken, pTag, i, old(o.tag))
  {
    claimed := Wanted(pTag, i, o.tag);
    if claimed in taken {
      claimed := Search(taken, claimed);
      o.tag := claimed;
    }
  }

  /** Retags and starts the outbounds in order; starts tells which start without error. */
  method StartEach(pTag: string, outs: seq<Outbound>, before: set<string>, starts: Outbound -> bool) returns (ok: bool)
    requires forall i, j | 0 <= i < j < |outs| :: outs[i] != outs[j]
    modifies outs
    ensures ok <==> forall o <- outs :: starts(o)
    ensures ok ==> TagsOf(outs) == AssignAll(before, pTag, old(TagsOf(outs))).0
  {
    hide Assign, TagsOf;
    var taken := before;
    ghost var was, done := TagsOf(outs), [];
    for i := 0 to |outs|
      invariant |done| == i && forall k | 0 <= k < i :: starts(outs[k]) && outs[k].tag == done[k]
      invariant forall k | i <= k < |outs| :: outs[k].tag == was[k]
      invariant (done, taken) == AssignAll(before, pTag, was[..i])
    {
      var claimed := Retag(outs[i], pTag, i, taken);
      assert was[..i + 1][..i] == was[..i];
      taken, done := taken + {claimed}, done + [outs[i].tag];
      if !starts(outs[i]) { return false; }
    }
    assert was[..|was|] == was;
    assert TagsOf(outs) == done;
    ok := true;
  }

  /** startOutbounds: tags against everything held elsewhere, and the index over the result. */
  method StartOutbounds(r: Router, p: Provider, outs: seq<Outbound>, starts: Outbound -> bool) returns (ok: bool, byTag: map<string, Outbound>)
    requires Separate(r, outs)
    modifies outs
    ensures ok <==> forall o <- outs :: starts(o)
    ensures ok ==> TagsOf(outs) == AssignAll(old(Taken(r, p.tag)), p.tag, old(TagsOf(outs))).0 && Indexes(byTag, outs)
  {
    hide AssignAll, Indexes, TagsOf, Taken;
    var taken := CollectTaken(r, p.tag);
    ok := StartEach(p.tag, outs, taken, starts);
    byTag := BuildIndex(outs);
  }

  datatype Outcome = NoChange | StartFailed | GroupsFailed | Updated

  /** What the lookup relies on: the router runs and indexes its own outbounds, provider tags
      are distinct, and every other provider's index names only its own outbounds. */
  ghost predicate Settled(r: Router, p: Provider)
    reads r, r.providers, Held(r)
  {
    r.started && p in r.providers && (forall t | t in r.outboundByTag :: exists o <- r.outbounds :: o.tag == t) &&
    forall q <- r.providers | q != p :: q.tag != p.tag && forall t | t in q.outboundByTag :: exists o <- q.outbounds :: o.tag == t
  }

  /** updateProviderFromContent on parsed and filtered options, with the outbounds created
      from them. groupsFollow is the result of updating the groups one by one. A group that
      cannot follow rolls the provider back and closes the new outbounds; lastOuts is not
      rolled back. */
  method ApplyOptions(r: Router, p: Provider, options: seq<Options>, outs: seq<Outbound>, starts: Outbound -> bool, groupsFollow: bool)
      returns (outcome: Outcome, closed: seq<Outbound>)
    requires Separate(r, outs) && p in r.providers
    modifies p, outs
    ensures outcome.NoChange? <==> Unchanged(old(p.lastOuts), options) || outs == []
    ensures p.lastOuts == if Unchanged(old(p.lastOuts), options) then old(p.lastOuts) else options
    ensures outcome.Updated? ==> p.outbounds == outs && Indexes(p.outboundByTag, outs)
    ensures outcome.Updated? ==> TagsOf(outs) == AssignAll(old(Taken(r, p.tag)), p.tag, old(TagsOf(outs))).0
    ensures !outcome.Updated? ==> p.outbounds == old(p.outbounds) && p.outboundByTag == old(p.outboundByTag)
    ensures closed == if outcome.GroupsFailed? then outs else []
  {
    hide AssignAll, Indexes, Unchanged;
    closed := [];
    ghost var was, taken := TagsOf(outs), Taken(r, p.tag);
    var changed := CheckChange(p.lastOuts, options);
    if !changed { return NoChange, []; }
    p.lastOuts := options;
    if |outs| == 0 { return NoChange, []; }
    assert TagsOf(outs) == was && Taken(r, p.tag) == taken;
    var ok, byTag := StartOutbounds(r, p, outs, starts);
    if !ok { return StartFailed, []; }
    var outsBackup, outByTagBackup := p.outbounds, p.outboundByTag;
    p.outbounds, p.outboundByTag := outs, byTag;
    if !groupsFollow {
      p.outbounds, p.outboundByTag := outsBackup, outByTagBackup;
      return GroupsFailed, outs;
    }
    return Updated, [];
  }

  /** Every tag that the router or another provider answers to is in taken. */
  ghost predicate Covers(r: Router, p: Provider, taken: set<string>)
    reads r, r.providers`outboundByTag
  {
    p in r.providers && (forall t | t in r.outboundByTag :: t in taken) &&
    forall q, t | q in r.providers && q != p && t in q.outboundByTag :: t in taken
  }

  lemma {:induction false} SettledIsCovered(r: Router, p: Provider)
    requires Settled(r, p)
    ensures Covers(r, p, Taken(r, p.tag))
  {
  }

  lemma {:induction false} RefreshedAreFound(r: Router, p: Provider, taken: set<string>, parsed: seq<string>, o: Outbound)
    requires Covers(r, p, taken) && Indexes(p.outboundByTag, p.outbounds) && NoneEmpty(parsed)
    requires TagsOf(p.outbounds) == AssignAll(taken, p.tag, parsed).0
    requires o in p.outbounds
    ensures Lookup(r, o.tag) == Some(o)
  {
    hide AssignAll;
    NonemptyTagsComeOutDistinct(taken, p.tag, parsed);
    DistinctIndexIsExact(p.outboundByTag, p.outbounds, o);
    var i :| 0 <= i < |p.outbounds| && p.outbounds[i] == o;
    assert o.tag !in taken by { assert TagsOf(p.outbounds)[i] == o.tag; }
    OnlyProviderAnswers(r.providers, p, o.tag);
  }

  /** Tags that are given and distinct and that, besides p, no provider and no outbound that the
      router shows has. */
  ghost predicate Unclaimed(r: Router, p: Provider, tags: seq<string>)
    reads r, r.providers`outbounds, Held(r)
  {
    NoneEmpty(tags) && DistinctTags(tags) && (r.started ==> forall o <- r.outbounds :: o.tag !in tags) &&
    forall q <- r.providers | q.tag != p.tag :: forall o <- q.outbounds :: o.tag !in tags
  }

  lemma {:induction false} UnclaimedAvoidsTaken(r: Router, p: Provider, tags: seq<string>)
    requires Unclaimed(r, p, tags)
    ensures Avoids(tags, Taken(r, p.tag))
  {
  }

  /** A refresh through which the router finds every new outbound: with nonempty tags, looking
      up a refreshed outbound's tag returns that very outbound. Unclaimed tags are kept, even if
      they are those of the outbounds replaced. */
  method UpdateFromContent(r: Router, p: Provider, options: seq<Options>, outs: seq<Outbound>, starts: Outbound -> bool, groupsFollow: bool)
      returns (outcome: Outcome, closed: seq<Outbound>)
    requires Separate(r, outs) && p in r.providers
    modifies p, outs
    ensures outcome.NoChange? <==> Unchanged(old(p.lastOuts), options) || outs == []
    ensures outcome.Updated? ==> p.outbounds == outs
    ensures !outcome.Updated? ==> p.outbounds == old(p.outbounds) && p.outboundByTag == old(p.outboundByTag)
    ensures closed == if outcome.GroupsFailed? then outs else []
    ensures outcome.Updated? && NoneEmpty(old(TagsOf(outs))) && old(Settled(r, p)) ==> forall o <- outs :: Lookup(r, o.tag) == Some(o)
    ensures outcome.Updated? && old(Unclaimed(r, p, TagsOf(outs))) ==> TagsOf(outs) == old(TagsOf(outs))
  {
    hide AssignAll, Indexes, Lookup, Settled, NoneEmpty, Unchanged, TagsOf, Taken;
    ghost var was, taken, settled, unclaimed := TagsOf(outs), Taken(r, p.tag), Settled(r, p), Unclaimed(r, p, TagsOf(outs));
    if settled { SettledIsCovered(r, p); }
    if unclaimed {
      UnclaimedAvoidsTaken(r, p, was);
      CleanTagsAreKept(taken, p.tag, was);
    }
    outcome, closed := ApplyOptions(r, p, options, outs, starts, groupsFollow);
    if outcome.Updated? && NoneEmpty(was) && settled {
      forall o | o in outs ensures Lookup(r, o.tag) == Some(o) { RefreshedAreFound(r, p, taken, was, o); }
    }
  }

  /** No two different entries of one tag. */
  ghost predicate NoConflict(outs: seq<Options>) {
    forall i, j | 0 <= i < j < |outs| && outs[i].tag == outs[j].tag :: outs[i] == outs[j]
  }

  /** A list counts as unchanged against itself exactly when it has no conflict. */
  lemma {:induction false} SelfUnchangedIff(outs: seq<Options>)
    ensures Unchanged(outs, outs) <==> NoConflict(outs)
  {
    hide ByTag;
    if NoConflict(outs) {
      forall it | it in outs ensures it.tag in ByTag(outs) && ByTag(outs)[it.tag] == it {
        var k :| 0 <= k < |outs| && outs[k] == it;
        var l := LastOf(outs, k);
        LastIsKept(outs, l);
      }
    } else {
      var i, j :| 0 <= i < j < |outs| && outs[i].tag == outs[j].tag && outs[i] != outs[j];
      ConflictIsReported(outs, i, j);
    }
  }

  /** After a failed refresh a second one with the same options, whatever would start then,
      reports no change exactly when the options have no conflict or nothing was created; it
      then keeps the old outbounds, so the failure is not retried. */
  method RefreshAgain(r: Router, p: Provider, options: seq<Options>, outs: seq<Outbound>, again: seq<Outbound>,
                      starts: Outbound -> bool, groupsFollow: bool)
      returns (first: Outcome, second: Outcome)
    requires Separate(r, outs) && Separate(r, again) && p in r.providers
    modifies p, outs, again
    ensures first.StartFailed? || first.GroupsFailed? ==>
              (second.NoChange? <==> NoConflict(options) || again == []) &&
              (second.NoChange? ==> p.outbounds == old(p.outbounds) && p.outboundByTag == old(p.outboundByTag))
  {
    hide Unchanged, NoConflict, AssignAll, Indexes, TagsOf, Taken;
    var closed: seq<Outbound>;
    first, closed := ApplyOptions(r, p, options, outs, starts, groupsFollow);
    second := first;
    if first.StartFailed? || first.GroupsFailed? {
      SelfUnchangedIff(options);
      second, closed := ApplyOptions(r, p, options, again, o => true, true);
    }
  }
}

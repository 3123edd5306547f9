/** URL-test selection: the fastest outbound with hysteresis, in 16-bit arithmetic. */
module UrlTestSelect {
  import opened Wrappers

  /** realTag is the tag whose history counts: for a group, the tag it currently uses. */
  datatype Outbound = Outbound(tag: string, realTag: string, networks: set<string>)

  type UInt16 = n: int | 0 <= n < 0x1_0000

  function Wrap(n: nat): UInt16 { n % 0x1_0000 }

  type History = map<string, UInt16>

  predicate Measured(h: History, o: Outbound) { o.realTag in h }

  function Delay(h: History, o: Outbound): UInt16
    requires Measured(h, o)
  {
    h[o.realTag]
  }

  /** The running minimum of Select. */
  datatype Best = Best(delay: UInt16, outbound: Option<Outbound>)

  function StartBest(h: History, selected: Option<Outbound>): Best {
    if selected.Some? && Measured(h, selected.value) then Best(Delay(h, selected.value), selected) else Best(0, None)
  }

  predicate Candidate(h: History, network: string, o: Outbound) { network in o.networks && Measured(h, o) }

  function Consider(h: History, tolerance: UInt16, network: string, best: Best, o: Outbound): Best {
    if Candidate(h, network, o) && (best.delay == 0 || best.delay > Wrap(Delay(h, o) + tolerance))
    then Best(Delay(h, o), Some(o)) else best
  }

  function Scan(h: History, tolerance: UInt16, network: string, best: Best, outs: seq<Outbound>): Best
    decreases outs
  {
    if outs == [] then best else Scan(h, tolerance, network, Consider(h, tolerance, network, best, outs[0]), outs[1..])
  }

  function FirstFor(network: string, outs: seq<Outbound>): Option<Outbound> {
    if outs == [] then None else if network in outs[0].networks then Some(outs[0]) else FirstFor(network, outs[1..])
  }

  /** The outbound Select returns and whether it was chosen by measurement. */
  function Choose(h: History, tolerance: UInt16, network: string, selected: Option<Outbound>, outs: seq<Outbound>): (Option<Outbound>, bool) {
    var best := Scan(h, tolerance, network, StartBest(h, selected), outs);
    if best.outbound.None? then (FirstFor(network, outs), false) else (best.outbound, true)
  }

  /** performUpdateCheck for one network. */
  function Updated(h: History, tolerance: UInt16, network: string, selected: Option<Outbound>, outs: seq<Outbound>): Option<Outbound> {
    var (o, exists_) := Choose(h, tolerance, network, selected, outs);
    if o.Some? && (selected.None? || (exists_ && o != selected)) then o else selected
  }

  // ---- the promised behaviour ----

  /** The delay is positive, and adding the tolerance does not leave 16 bits. */
  ghost predicate RegularAt(h: History, tolerance: UInt16, o: Outbound) {
    Measured(h, o) ==> 0 < Delay(h, o) && Delay(h, o) + tolerance < 0x1_0000
  }

  /** So it is for the current selection and for every outbound of the group. */
  ghost predicate Regular(h: History, tolerance: UInt16, selected: Option<Outbound>, outs: seq<Outbound>) {
    (selected.Some? ==> RegularAt(h, tolerance, selected.value)) &&
    forall k | 0 <= k < |outs| :: RegularAt(h, tolerance, outs[k])
  }

  /** A running minimum names an outbound and its delay, or nothing. */
  ghost predicate Consistent(h: History, best: Best) {
    (best.outbound.None? ==> best.delay == 0) &&
    (best.outbound.Some? ==> Measured(h, best.outbound.value) && best.delay == Delay(h, best.outbound.value))
  }

  /** Within the tolerance of every candidate seen. */
  ghost predicate NearBest(h: History, tolerance: UInt16, network: string, best: Best, seen: seq<Outbound>) {
    forall k | 0 <= k < |seen| && Candidate(h, network, seen[k]) :: best.outbound.Some? && best.delay <= Delay(h, seen[k]) + tolerance
  }

  lemma {:induction false} ScanIsNearBest(h: History, tolerance: UInt16, network: string, best: Best, seen: seq<Outbound>, outs: seq<Outbound>)
    requires Regular(h, tolerance, best.outbound, outs) && Consistent(h, best) && NearBest(h, tolerance, network, best, seen)
    ensures var r := Scan(h, tolerance, network, best, outs);
            Consistent(h, r) && NearBest(h, tolerance, network, r, seen + outs) &&
            (r == best || (r.outbound.Some? && r.outbound.value in outs && network in r.outbound.value.networks)) &&
            (best.outbound.Some? && r != best ==> r.delay + tolerance < best.delay)
    decreases outs
  {
    if outs == [] {
      assert seen + outs == seen;
    } else {
      var next := Consider(h, tolerance, network, best, outs[0]);
      var seen' := seen + [outs[0]];
      assert RegularAt(h, tolerance, outs[0]);
      assert NearBest(h, tolerance, network, next, seen');
      ScanIsNearBest(h, tolerance, network, next, seen', outs[1..]);
      assert seen' + outs[1..] == seen + outs;
    }
  }

  /** A measured choice is within the tolerance of every candidate, is the old selection or
      a candidate, and leaves a measured old selection only for a gain above the tolerance. */
  lemma {:induction false} ChoiceIsNearOptimal(h: History, tolerance: UInt16, network: string, selected: Option<Outbound>, outs: seq<Outbound>)
    requires Regular(h, tolerance, selected, outs)
    ensures var (o, measured) := Choose(h, tolerance, network, selected, outs);
            (measured ==>
               o.Some? && Measured(h, o.value) &&
               (forall k | 0 <= k < |outs| && Candidate(h, network, outs[k]) :: Delay(h, o.value) <= Delay(h, outs[k]) + tolerance) &&
               (o == selected || (o.value in outs && network in o.value.networks)) &&
               (selected.Some? && Measured(h, selected.value) && o != selected ==>
                  Delay(h, o.value) + tolerance < Delay(h, selected.value))) &&
            (!measured ==>
               (forall k | 0 <= k < |outs| :: !Candidate(h, network, outs[k])) &&
               (selected.Some? ==> !Measured(h, selected.value)))
  {
    ScanIsNearBest(h, tolerance, network, StartBest(h, selected), [], outs);
    assert [] + outs == outs;
  }

  /** Every candidate has a positive delay, and adding the tolerance does not leave 16 bits. */
  ghost predicate RegularCandidates(h: History, tolerance: UInt16, network: string, outs: seq<Outbound>) {
    forall k | 0 <= k < |outs| && Candidate(h, network, outs[k]) :: RegularAt(h, tolerance, outs[k])
  }

  lemma {:induction false} ScanKeepsBest(h: History, tolerance: UInt16, network: string, best: Best, outs: seq<Outbound>)
    requires RegularCandidates(h, tolerance, network, outs) && best.delay > 0
    requires forall k | 0 <= k < |outs| && Candidate(h, network, outs[k]) :: best.delay <= Delay(h, outs[k]) + tolerance
    ensures Scan(h, tolerance, network, best, outs) == best
    decreases outs
  {
    if outs != [] {
      assert Candidate(h, network, outs[0]) ==> RegularAt(h, tolerance, outs[0]);
      assert Consider(h, tolerance, network, best, outs[0]) == best;
      ScanKeepsBest(h, tolerance, network, best, outs[1..]);
    }
  }

  /** Whatever the scan starts from, it ends near every candidate seen, and off a zero delay if
      there is a candidate. */
  lemma {:induction false} ScanSettles(h: History, tolerance: UInt16, network: string, best: Best, seen: seq<Outbound>, outs: seq<Outbound>)
    requires RegularCandidates(h, tolerance, network, outs) && Consistent(h, best) && NearBest(h, tolerance, network, best, seen)
    requires best.delay == 0 ==> forall k | 0 <= k < |seen| :: !Candidate(h, network, seen[k])
    ensures var r := Scan(h, tolerance, network, best, outs);
            Consistent(h, r) && NearBest(h, tolerance, network, r, seen + outs) &&
            (r == best || (r.outbound.Some? && r.outbound.value in outs)) &&
            (r.delay == 0 ==> r == best && forall k | 0 <= k < |seen + outs| :: !Candidate(h, network, (seen + outs)[k]))
    decreases outs
  {
    if outs == [] {
      assert seen + outs == seen;
    } else {
      var next := Consider(h, tolerance, network, best, outs[0]);
      var seen' := seen + [outs[0]];
      assert Candidate(h, network, outs[0]) ==> RegularAt(h, tolerance, outs[0]);
      assert NearBest(h, tolerance, network, next, seen');
      ScanSettles(h, tolerance, network, next, seen', outs[1..]);
      assert seen' + outs[1..] == seen + outs;
    }
  }

  /** A second check on the same history changes nothing, so checks never flap, as long as the
      candidates are regular; the selection may be anything. */
  lemma {:induction false} UpdateIsIdempotent(h: History, tolerance: UInt16, network: string, selected: Option<Outbound>, outs: seq<Outbound>)
    requires RegularCandidates(h, tolerance, network, outs)
    ensures var once := Updated(h, tolerance, network, selected, outs);
            Updated(h, tolerance, network, once, outs) == once
  {
    ScanSettles(h, tolerance, network, StartBest(h, selected), [], outs);
    assert [] + outs == outs;
    FirstIsMember(network, outs);
    var once := Updated(h, tolerance, network, selected, outs);
    var r := Scan(h, tolerance, network, StartBest(h, selected), outs);
    if r.outbound.Some? && r.delay > 0 {
      assert once == r.outbound && StartBest(h, once) == r;
      ScanKeepsBest(h, tolerance, network, r, outs);
    } else {
      NoCandidates(h, tolerance, network, StartBest(h, once), outs);
    }
  }

  /** With a zero delay among the candidates a group can flap: s is left for y, y for z. */
  lemma {:induction false} ZeroDelayFlaps()
    ensures var z, s, y := Outbound("z", "z", {"tcp"}), Outbound("s", "s", {"tcp"}), Outbound("y", "y", {"tcp"});
            var h: History := map["z" := 40, "s" := 60, "y" := 0];
            Updated(h, 50, "tcp", Some(s), [z, s, y]) == Some(y) && Updated(h, 50, "tcp", Some(y), [z, s, y]) == Some(z)
  {
    var z, s, y := Outbound("z", "z", {"tcp"}), Outbound("s", "s", {"tcp"}), Outbound("y", "y", {"tcp"});
    var h: History := map["z" := 40, "s" := 60, "y" := 0];
    ThreeScanned(h, 50, "tcp", StartBest(h, Some(s)), z, s, y);
    ThreeScanned(h, 50, "tcp", StartBest(h, Some(y)), z, s, y);
  }

  lemma {:induction false} ThreeScanned(h: History, tolerance: UInt16, network: string, best: Best, a: Outbound, b: Outbound, c: Outbound)
    ensures Scan(h, tolerance, network, best, [a, b, c]) ==
            Consider(h, tolerance, network, Consider(h, tolerance, network, Consider(h, tolerance, network, best, a), b), c)
  {
    hide Consider;
    assert [a, b, c][1..] == [b, c] && [b, c][1..] == [c] && [c][1..] == [];
    var one := Consider(h, tolerance, network, best, a);
    var two := Consider(h, tolerance, network, one, b);
    var three := Consider(h, tolerance, network, two, c);
    assert Scan(h, tolerance, network, three, []) == three;
    assert Scan(h, tolerance, network, two, [c]) == three;
    assert Scan(h, tolerance, network, one, [b, c]) == three;
  }

  lemma {:induction false} NoCandidates(h: History, tolerance: UInt16, network: string, best: Best, outs: seq<Outbound>)
    requires forall k | 0 <= k < |outs| :: !Candidate(h, network, outs[k])
    ensures Scan(h, tolerance, network, best, outs) == best
    decreases outs
  {
    if outs != [] { NoCandidates(h, tolerance, network, best, outs[1..]); }
  }

  lemma {:induction false} FirstIsMember(network: string, outs: seq<Outbound>)
    ensures var f := FirstFor(network, outs); f.Some? ==> f.value in outs && network in f.value.networks
    ensures FirstFor(network, outs).None? ==> forall k | 0 <= k < |outs| :: network !in outs[k].networks
  {
    if outs != [] { FirstIsMember(network, outs[1..]); }
  }

  /** Outbound k is the first for the network. */
  ghost predicate FirstAt(network: string, outs: seq<Outbound>, k: nat) {
    k < |outs| && network in outs[k].networks && forall j | 0 <= j < k :: network !in outs[j].networks
  }

  lemma {:induction false} FirstTold(network: string, outs: seq<Outbound>, k: nat)
    requires FirstAt(network, outs, k)
    ensures FirstFor(network, outs) == Some(outs[k])
  {
    if k > 0 {
      assert forall j | 0 <= j < k - 1 :: outs[1..][j] == outs[j + 1];
      FirstTold(network, outs[1..], k - 1);
    }
  }

  lemma {:induction false} ScanStaysInside(h: History, tolerance: UInt16, network: string, best: Best, outs: seq<Outbound>)
    ensures var r := Scan(h, tolerance, network, best, outs).outbound; r == best.outbound || (r.Some? && r.value in outs)
    decreases outs
  {
    if outs != [] { ScanStaysInside(h, tolerance, network, Consider(h, tolerance, network, best, outs[0]), outs[1..]); }
  }

  /** Whatever the delays, a check keeps the selection or takes an outbound of the group. */
  lemma {:induction false} UpdateStaysInside(h: History, tolerance: UInt16, network: string, selected: Option<Outbound>, outs: seq<Outbound>)
    ensures var r := Updated(h, tolerance, network, selected, outs); r == selected || (r.Some? && r.value in outs)
  {
    ScanStaysInside(h, tolerance, network, StartBest(h, selected), outs);
    FirstIsMember(network, outs);
  }

  // ---- what a check does ----

  /** Candidate k displaced every candidate before it: they are all slower. */
  ghost predicate Displaces(h: History, network: string, outs: seq<Outbound>, k: nat) {
    k < |outs| && Candidate(h, network, outs[k]) &&
    forall j | 0 <= j < k && Candidate(h, network, outs[j]) :: Delay(h, outs[k]) < Delay(h, outs[j])
  }

  ghost predicate Displacer(h: History, network: string, outs: seq<Outbound>, o: Outbound) {
    exists k | 0 <= k < |outs| :: outs[k] == o && Displaces(h, network, outs, k)
  }

  lemma {:induction false} ScanDisplaces(h: History, tolerance: UInt16, network: string, start: Best, outs: seq<Outbound>)
    requires Regular(h, tolerance, start.outbound, outs) && Consistent(h, start)
    ensures var r := Scan(h, tolerance, network, start, outs);
            r == start || (r.outbound.Some? && Displacer(h, network, outs, r.outbound.value))
  {
    hide Displacer, NearBest, Consider, Scan;
    if outs != [] {
      var front, o := outs[..|outs| - 1], outs[|outs| - 1];
      assert outs == front + [o] && [] + front == front;
      FrontIsRegular(h, tolerance, start.outbound, front, o);
      ScanDisplaces(h, tolerance, network, start, front);
      ScanIsNearBest(h, tolerance, network, start, [], front);
      ScanSnoc(h, tolerance, network, start, front, o);
      LastDisplaces(h, tolerance, network, Scan(h, tolerance, network, start, front), front, o);
    } else {
      assert Scan(h, tolerance, network, start, outs) == start by { NoCandidates(h, tolerance, network, start, outs); }
    }
  }

  lemma FrontIsRegular(h: History, tolerance: UInt16, selected: Option<Outbound>, front: seq<Outbound>, o: Outbound)
    requires Regular(h, tolerance, selected, front + [o])
    ensures Regular(h, tolerance, selected, front) && RegularAt(h, tolerance, o)
  {
    assert (front + [o])[|front|] == o && forall j | 0 <= j < |front| :: (front + [o])[j] == front[j];
  }

  /** One more outbound displaces the running minimum and all before it, or is passed over. */
  lemma {:induction false} LastDisplaces(h: History, tolerance: UInt16, network: string, best: Best, front: seq<Outbound>, o: Outbound)
    requires Consistent(h, best) && NearBest(h, tolerance, network, best, front) && RegularAt(h, tolerance, o)
    requires best.outbound.Some? ==> RegularAt(h, tolerance, best.outbound.value)
    ensures var r := Consider(h, tolerance, network, best, o);
            r == best || (Measured(h, o) && r == Best(Delay(h, o), Some(o)) && Displacer(h, network, front + [o], o))
    ensures forall x | Displacer(h, network, front, x) :: Displacer(h, network, front + [o], x)
  {
    var outs, n := front + [o], |front|;
    assert outs[n] == o && forall j | 0 <= j < n :: outs[j] == front[j];
    if Consider(h, tolerance, network, best, o) != best {
      assert Displaces(h, network, outs, n);
    }
    forall x | Displacer(h, network, front, x) ensures Displacer(h, network, outs, x) {
      var k :| 0 <= k < n && front[k] == x && Displaces(h, network, front, k);
      assert outs[k] == x && Displaces(h, network, outs, k);
    }
  }

  lemma {:induction false} ScanSnoc(h: History, tolerance: UInt16, network: string, best: Best, outs: seq<Outbound>, o: Outbound)
    ensures Scan(h, tolerance, network, best, outs + [o]) == Consider(h, tolerance, network, Scan(h, tolerance, network, best, outs), o)
    decreases outs
  {
    hide Consider;
    if outs == [] {
      assert outs + [o] == [o] && [o][1..] == [];
      assert Scan(h, tolerance, network, Consider(h, tolerance, network, best, o), []) == Consider(h, tolerance, network, best, o);
    } else {
      assert (outs + [o])[1..] == outs[1..] + [o];
      ScanSnoc(h, tolerance, network, Consider(h, tolerance, network, best, outs[0]), outs[1..], o);
    }
  }

  /** What a check leaves selected. If anything is measured: an outbound within the tolerance of
      every candidate, which is the selection unless that is unmeasured or beaten by more than
      the tolerance, and else a candidate faster than all listed before it. If nothing is: the
      selection, or without one the first outbound for the network. */
  lemma {:induction false} UpdateIsNearOptimal(h: History, tolerance: UInt16, network: string, selected: Option<Outbound>, outs: seq<Outbound>)
    requires Regular(h, tolerance, selected, outs)
    ensures var r := Updated(h, tolerance, network, selected, outs);
            if (selected.Some? && Measured(h, selected.value)) || (exists k | 0 <= k < |outs| :: Candidate(h, network, outs[k])) then
              r.Some? && Measured(h, r.value) &&
              (forall k | 0 <= k < |outs| && Candidate(h, network, outs[k]) :: Delay(h, r.value) <= Delay(h, outs[k]) + tolerance) &&
              (r == selected ||
               (Displacer(h, network, outs, r.value) &&
                (selected.Some? && Measured(h, selected.value) ==> Delay(h, r.value) + tolerance < Delay(h, selected.value))))
            else if selected.Some? then r == selected
            else forall k: nat :: FirstAt(network, outs, k) ==> r == Some(outs[k])
  {
    ChoiceIsNearOptimal(h, tolerance, network, selected, outs);
    ScanDisplaces(h, tolerance, network, StartBest(h, selected), outs);
    hide Scan;
    forall k: nat | FirstAt(network, outs, k) ensures FirstFor(network, outs) == Some(outs[k]) { FirstTold(network, outs, k); }
  }

  /** One candidate against the current selection. */
  lemma {:induction false} SingleCandidate(h: History, tolerance: UInt16, network: string, a: Outbound, b: Outbound)
    requires Measured(h, a) && Measured(h, b) && network in b.networks
    ensures var left := Delay(h, a) == 0 || Delay(h, a) > Wrap(Delay(h, b) + tolerance);
            Choose(h, tolerance, network, Some(a), [b]) == (Some(if left then b else a), true)
  {
    var best := StartBest(h, Some(a));
    var next := Consider(h, tolerance, network, best, b);
    assert [b][1..] == [];
    assert Scan(h, tolerance, network, next, []) == next;
  }

  /** The selection is left for b only for a gain above the tolerance. */
  ghost predicate LeavesForGain(h: History, tolerance: UInt16, network: string, a: Outbound, b: Outbound)
    requires Measured(h, a) && Measured(h, b)
  {
    Choose(h, tolerance, network, Some(a), [b]).0 == Some(b) ==> Delay(h, b) + tolerance < Delay(h, a)
  }

  /** Exactly when that is so for a group of one: the selection has a positive delay, and adding the tolerance
      stays in 16 bits or wraps to no less than it. */
  lemma {:induction false} GainIffNoWrap(h: History, tolerance: UInt16, network: string, a: Outbound, b: Outbound)
    requires Measured(h, a) && Measured(h, b) && network in b.networks && a != b
    ensures LeavesForGain(h, tolerance, network, a, b) <==>
            Delay(h, a) > 0 && (Delay(h, b) + tolerance < 0x1_0000 || Delay(h, a) <= Delay(h, b) + tolerance - 0x1_0000)
  {
    SingleCandidate(h, tolerance, network, a, b);
    hide Choose;
    if Delay(h, b) + tolerance >= 0x1_0000 { assert Wrap(Delay(h, b) + tolerance) == Delay(h, b) + tolerance - 0x1_0000; }
  }

  // ---- the same for whole groups ----

  /** The selection is kept, or left for a gain above the tolerance. */
  ghost predicate KeepsOrGains(h: History, tolerance: UInt16, network: string, a: Outbound, outs: seq<Outbound>)
    requires Measured(h, a)
  {
    var o := Choose(h, tolerance, network, Some(a), outs).0;
    o == Some(a) || (o.Some? && Measured(h, o.value) && Delay(h, o.value) + tolerance < Delay(h, a))
  }

  ghost predicate Over(outs: seq<Outbound>, cs: seq<Outbound>) { forall k | 0 <= k < |outs| :: outs[k] in cs }

  /** A candidate other than the selection. */
  ghost predicate Rival(h: History, network: string, a: Outbound, cs: seq<Outbound>, o: Outbound) {
    o in cs && o != a && Candidate(h, network, o)
  }

  /** Adding the tolerance to its delay stays in 16 bits or wraps to no less than x. */
  ghost predicate Harmless(h: History, tolerance: UInt16, x: UInt16, o: Outbound)
    requires Measured(h, o)
  {
    Delay(h, o) + tolerance < 0x1_0000 || x <= Delay(h, o) + tolerance - 0x1_0000
  }

  ghost predicate Gains(h: History, tolerance: UInt16, x: UInt16, o: Outbound)
    requires Measured(h, o)
  {
    Delay(h, o) + tolerance < x
  }

  /** No rival; or a positive selection, harmless rivals, and no zero delay that both displaces
      the selection and lets in a rival that is no gain. */
  ghost predicate Guarded(h: History, tolerance: UInt16, network: string, a: Outbound, cs: seq<Outbound>)
    requires Measured(h, a)
  {
    var x := Delay(h, a);
    (forall o | o in cs :: !Rival(h, network, a, cs, o)) ||
    (x > 0 && (forall o | Rival(h, network, a, cs, o) :: Harmless(h, tolerance, x, o)) &&
     (x <= tolerance || (forall o | Rival(h, network, a, cs, o) :: Delay(h, o) > 0) || forall o | Rival(h, network, a, cs, o) :: Gains(h, tolerance, x, o)))
  }

  /** The running minimum is the selection or a gain. */
  ghost predicate Sound(h: History, tolerance: UInt16, network: string, a: Outbound, cs: seq<Outbound>, best: Best)
    requires Measured(h, a)
  {
    best == Best(Delay(h, a), Some(a)) ||
    (best.outbound.Some? && Rival(h, network, a, cs, best.outbound.value) && best.delay == Delay(h, best.outbound.value) &&
     Gains(h, tolerance, Delay(h, a), best.outbound.value))
  }

  lemma {:induction false} ConsiderStaysSound(h: History, tolerance: UInt16, network: string, a: Outbound, cs: seq<Outbound>, best: Best, o: Outbound)
    requires Measured(h, a) && Guarded(h, tolerance, network, a, cs) && Sound(h, tolerance, network, a, cs, best) && o in cs
    ensures Sound(h, tolerance, network, a, cs, Consider(h, tolerance, network, best, o))
  {
    if Candidate(h, network, o) && o != a {
      assert Rival(h, network, a, cs, o);
      assert Harmless(h, tolerance, Delay(h, a), o);
      if Delay(h, o) + tolerance >= 0x1_0000 { assert Wrap(Delay(h, o) + tolerance) == Delay(h, o) + tolerance - 0x1_0000; }
    }
  }

  lemma {:induction false} ScanStaysSound(h: History, tolerance: UInt16, network: string, a: Outbound, cs: seq<Outbound>, best: Best, outs: seq<Outbound>)
    requires Measured(h, a) && Guarded(h, tolerance, network, a, cs) && Sound(h, tolerance, network, a, cs, best) && Over(outs, cs)
    ensures Sound(h, tolerance, network, a, cs, Scan(h, tolerance, network, best, outs))
    decreases outs
  {
    hide Guarded, Sound, Consider;
    if outs != [] {
      ConsiderStaysSound(h, tolerance, network, a, cs, best, outs[0]);
      ScanStaysSound(h, tolerance, network, a, cs, Consider(h, tolerance, network, best, outs[0]), outs[1..]);
    }
  }

  lemma {:induction false} TwoScanned(h: History, tolerance: UInt16, network: string, a: Outbound, o: Outbound, q: Outbound)
    requires Measured(h, a)
    ensures var start := Best(Delay(h, a), Some(a));
            Scan(h, tolerance, network, StartBest(h, Some(a)), [o]) == Consider(h, tolerance, network, start, o) &&
            Scan(h, tolerance, network, StartBest(h, Some(a)), [o, q]) == Consider(h, tolerance, network, Consider(h, tolerance, network, start, o), q)
  {
    hide Consider;
    assert [o][1..] == [] && [o, q][1..] == [q] && [q][1..] == [];
    var one := Consider(h, tolerance, network, StartBest(h, Some(a)), o);
    var two := Consider(h, tolerance, network, one, q);
    assert Scan(h, tolerance, network, one, []) == one && Scan(h, tolerance, network, two, []) == two;
    assert Scan(h, tolerance, network, one, [q]) == two;
  }

  /** Over every group drawn from cs the measured selection is kept or left for a real gain,
      exactly when the rivals are guarded. */
  lemma {:induction false} GroupsGainIffGuarded(h: History, tolerance: UInt16, network: string, a: Outbound, cs: seq<Outbound>)
    requires Measured(h, a)
    ensures (forall outs | Over(outs, cs) :: KeepsOrGains(h, tolerance, network, a, outs)) <==> Guarded(h, tolerance, network, a, cs)
  {
    if Guarded(h, tolerance, network, a, cs) {
      forall outs | Over(outs, cs) ensures KeepsOrGains(h, tolerance, network, a, outs) {
        ScanStaysSound(h, tolerance, network, a, cs, StartBest(h, Some(a)), outs);
      }
    } else {
      UnguardedLoses(h, tolerance, network, a, cs);
    }
  }

  lemma {:induction false} UnguardedLoses(h: History, tolerance: UInt16, network: string, a: Outbound, cs: seq<Outbound>)
    requires Measured(h, a) && !Guarded(h, tolerance, network, a, cs)
    ensures exists outs :: Over(outs, cs) && !KeepsOrGains(h, tolerance, network, a, outs)
  {
    var x := Delay(h, a);
    var o :| o in cs && Rival(h, network, a, cs, o);
    if x == 0 {
      TwoScanned(h, tolerance, network, a, o, o);
      assert Over([o], cs) && !KeepsOrGains(h, tolerance, network, a, [o]);
    } else if p :| Rival(h, network, a, cs, p) && !Harmless(h, tolerance, x, p) {
      assert Wrap(Delay(h, p) + tolerance) == Delay(h, p) + tolerance - 0x1_0000;
      TwoScanned(h, tolerance, network, a, p, p);
      assert Over([p], cs) && !KeepsOrGains(h, tolerance, network, a, [p]);
    } else {
      var p :| Rival(h, network, a, cs, p) && Delay(h, p) == 0;
      var q :| Rival(h, network, a, cs, q) && !Gains(h, tolerance, x, q);
      TwoScanned(h, tolerance, network, a, p, q);
      assert Over([p, q], cs) && !KeepsOrGains(h, tolerance, network, a, [p, q]);
    }
  }

  /** Two outbounds measured at x and d. */
  function Pair(a: Outbound, b: Outbound, x: UInt16, d: UInt16): History
    requires a.realTag != b.realTag
  {
    map[a.realTag := x, b.realTag := d]
  }

  /** As a group of one, a candidate is safe against every positive selection exactly when
      adding the tolerance to its delay stays in 16 bits. */
  lemma {:induction false} EveryGainIffNoWrap(tolerance: UInt16, network: string, a: Outbound, b: Outbound, d: UInt16)
    requires a.realTag != b.realTag && network in b.networks
    ensures (forall x: UInt16 | x > 0 :: LeavesForGain(Pair(a, b, x, d), tolerance, network, a, b)) <==> d + tolerance < 0x1_0000
  {
    forall x: UInt16 | x > 0
      ensures LeavesForGain(Pair(a, b, x, d), tolerance, network, a, b) <==>
              d + tolerance < 0x1_0000 || x <= d + tolerance - 0x1_0000
    {
      GainIffNoWrap(Pair(a, b, x, d), tolerance, network, a, b);
    }
    if d + tolerance >= 0x1_0000 {
      assert d > 0 && !LeavesForGain(Pair(a, b, d, d), tolerance, network, a, b);
    }
  }

  /** A selection of zero delay counts as unmeasured: any measured candidate displaces it. */
  lemma {:induction false} ZeroDelayIsForgotten(h: History, tolerance: UInt16, network: string, a: Outbound, b: Outbound)
    requires Measured(h, a) && Measured(h, b) && network in b.networks && Delay(h, a) == 0
    ensures Choose(h, tolerance, network, Some(a), [b]) == (Some(b), true)
  {
    SingleCandidate(h, tolerance, network, a, b);
  }

  // ---- the group ----

  class URLTestGroup {
    var outbounds: seq<Outbound>
    var history: History
    const tolerance: UInt16
    var selectedTCP: Option<Outbound>
    var selectedUDP: Option<Outbound>

    /** A tolerance of zero means the default of 50; the first outbound of each network is
        selected. */
    constructor (outbounds: seq<Outbound>, tolerance: UInt16, history: History)
      ensures this.outbounds == outbounds && this.history == history
      ensures this.tolerance == (if tolerance == 0 then 50 else tolerance)
      ensures selectedTCP == FirstFor("tcp", outbounds) && selectedUDP == FirstFor("udp", outbounds)
    {
      this.outbounds, this.history := outbounds, history;
      this.tolerance := if tolerance == 0 then 50 else tolerance;
      var tcp, udp: Option<Outbound> := None, None;
      for i := 0 to |outbounds|
        invariant FirstFor("tcp", outbounds) == if tcp.Some? then tcp else FirstFor("tcp", outbounds[i..])
        invariant FirstFor("udp", outbounds) == if udp.Some? then udp else FirstFor("udp", outbounds[i..])
      {
        assert outbounds[i..][1..] == outbounds[i + 1..];
        if tcp.None? && "tcp" in outbounds[i].networks { tcp := Some(outbounds[i]); }
        if udp.None? && "udp" in outbounds[i].networks { udp := Some(outbounds[i]); }
        if tcp.Some? && udp.Some? { break; }
      }
      selectedTCP, selectedUDP := tcp, udp;
    }

    function SelectedFor(network: string): Option<Outbound>
      reads this
    {
      if network == "tcp" then selectedTCP else if network == "udp" then selectedUDP else None
    }

    method Select(network: string) returns (o: Option<Outbound>, measured: bool)
      ensures (o, measured) == Choose(history, tolerance, network, SelectedFor(network), outbounds)
    {
      var minDelay: UInt16, minOutbound: Option<Outbound> := 0, None;
      var selected := SelectedFor(network);
      if selected.Some? && selected.value.realTag in history {
        minDelay, minOutbound := history[selected.value.realTag], selected;
      }
      for i := 0 to |outbounds|
        invariant Scan(history, tolerance, network, Best(minDelay, minOutbound), outbounds[i..])
               == Scan(history, tolerance, network, StartBest(history, selected), outbounds)
      {
        assert outbounds[i..][1..] == outbounds[i + 1..];
        var detour := outbounds[i];
        if network in detour.networks && detour.realTag in history {
          var delay := history[detour.realTag];
          if minDelay == 0 || minDelay > Wrap(delay + tolerance) {
            minDelay, minOutbound := delay, Some(detour);
          }
        }
      }
      if minOutbound.None? {
        for i := 0 to |outbounds|
          invariant FirstFor(network, outbounds[i..]) == FirstFor(network, outbounds)
        {
          assert outbounds[i..][1..] == outbounds[i + 1..];
          if network in outbounds[i].networks { return Some(outbounds[i]), false; }
        }
        return None, false;
      }
      return minOutbound, true;
    }

    /** updated tells whether open connections are interrupted. */
    method PerformUpdateCheck() returns (updated: bool)
      modifies `selectedTCP, `selectedUDP
      ensures selectedTCP == Updated(history, tolerance, "tcp", old(selectedTCP), outbounds)
      ensures selectedUDP == Updated(history, tolerance, "udp", old(selectedUDP), outbounds)
      ensures updated <==> selectedTCP != old(selectedTCP) || selectedUDP != old(selectedUDP)
    {
      updated := false;
      var o, measured := Select("tcp");
      if o.Some? && (selectedTCP.None? || (measured && o != selectedTCP)) {
        selectedTCP, updated := o, true;
      }
      o, measured := Select("udp");
      if o.Some? && (selectedUDP.None? || (measured && o != selectedUDP)) {
        selectedUDP, updated := o, true;
      }
    }
  }
}

/** DNS rules are checked twice: before the query without the answer, and again on the
    answer, with the cache the first check left behind. */
module DnsRules {
  import opened Wrappers
  import opened RuleModel
  import opened RuleSemantics
  import Blindness
  import Frames
  import LazyResolution

  /** A DNS rule as its constructor builds it; source GeoIP items need a known source. */
  ghost predicate DNSShape(known: bool, r: Rule)
    decreases r
  {
    r.kind.DNSRule? &&
    match r
    case Default(_, _, items, sa, sp, da, dc, dp) =>
      PlainItems(sp) && PlainItems(da) && PlainItems(dp) &&
      (forall item <- items :: ShapedItem(item)) &&
      (forall item <- sa :: LazyResolution.SourceItem(item) && (item.GeoIP? ==> known)) &&
      (forall item <- dc :: LazyResolution.DestinationItem(item))
    case Logical(_, _, _, rules) => forall sub <- rules :: DNSShape(known, sub)
  }

  ghost predicate ShapedItem(item: Item) {
    item.Plain? ||
    (item.RuleSetItem? && forall s <- item.sets :: forall r <- s.rules :: LazyResolution.HeadlessGrouped(r))
  }

  /** The facts every check of this search relies on. */
  ghost function SearchView(c: Context): Blindness.View {
    Blindness.View(false, false, c.facts.source.Some?, Blindness.Shared(false, false))
  }

  // ---- the first check does not see the answer ----

  lemma {:induction false} IgnoringHeadlessIsBlind(v: Blindness.View, r: Rule)
    requires v.ignore && LazyResolution.HeadlessGrouped(r)
    ensures Blindness.HeadlessShape(r) && Blindness.BlindRule(v, false, r)
    decreases r
  {
    if r.Logical? {
      forall sub | sub in r.rules
        ensures Blindness.HeadlessShape(sub) && Blindness.BlindRule(v.(matchSource := false), false, sub)
      {
        IgnoringHeadlessIsBlind(v.(matchSource := false), sub);
      }
    }
  }

  lemma {:induction false} IgnoringRulesAreBlind(v: Blindness.View, rules: seq<Rule>)
    requires v.ignore && forall r <- rules :: LazyResolution.HeadlessGrouped(r)
    ensures Blindness.BlindRules(v, rules) && Blindness.AfterRules(v, rules).ignore
    decreases rules
  {
    if rules != [] {
      IgnoringHeadlessIsBlind(v, rules[0]);
      IgnoringRulesAreBlind(if rules[0].Default? then v else v.(matchSource := false), rules[1..]);
    }
  }

  lemma {:induction false} IgnoringSetsAreBlind(v: Blindness.View, sets: seq<RuleSet>)
    requires v.ignore && forall s <- sets :: forall r <- s.rules :: LazyResolution.HeadlessGrouped(r)
    ensures Blindness.BlindSets(v, sets)
    decreases sets
  {
    if sets != [] {
      assert sets[0] in sets;
      IgnoringRulesAreBlind(v, sets[0].rules);
      IgnoringSetsAreBlind(Blindness.AfterRules(v, sets[0].rules), sets[1..]);
    }
  }

  /** The first check of any DNS rule, rule sets included, sees neither the addresses nor
      the destination code cache. */
  lemma {:induction false} FirstCheckIsBlind(v: Blindness.View, r: Rule)
    requires !v.matchSource && DNSShape(v.sourceKnown, r)
    ensures Blindness.BlindRule(v, false, r)
    decreases r
  {
    match r
    case Default(_, _, items, sa, sp, da, dc, dp) =>
      var w := v.(ignore := true);
      forall item | item in items ensures Blindness.BlindItem(w, item) {
        if item.RuleSetItem? { IgnoringSetsAreBlind(w.(matchSource := item.matchSource), item.sets); }
      }
      assert Blindness.BlindItems(v, sa);
    case Logical(_, _, _, rules) =>
      forall sub | sub in rules ensures Blindness.BlindRule(v, false, sub) { FirstCheckIsBlind(v, sub); }
  }

  lemma {:induction false} HeadlessIsSafe(known: bool, r: Rule)
    requires LazyResolution.HeadlessGrouped(r)
    ensures Blindness.HeadlessShape(r) && Frames.SafeRule(known, r)
    decreases r
  {
    if r.Logical? {
      forall sub | sub in r.rules ensures Blindness.HeadlessShape(sub) && Frames.SafeRule(known, sub) {
        HeadlessIsSafe(known, sub);
      }
    }
  }

  lemma {:induction false} ShapeIsSafe(known: bool, r: Rule)
    requires DNSShape(known, r)
    ensures Frames.SafeRule(known, r)
    decreases r
  {
    match r
    case Default(_, _, items, sa, sp, da, dc, dp) =>
      forall item | item in items ensures Frames.SafeItem(known, item) {
        if item.RuleSetItem? {
          forall s, sub | s in item.sets && sub in s.rules ensures Blindness.HeadlessShape(sub) && Frames.SafeRule(known, sub) {
            HeadlessIsSafe(known, sub);
          }
        }
      }
      assert Frames.SafeItems(known, items);
      assert Frames.SafeItems(known, sa) && Frames.SafeItems(known, sp) && Frames.SafeItems(known, da) &&
             Frames.SafeItems(known, dc) && Frames.SafeItems(known, dp);
    case Logical(_, _, _, rules) =>
      forall sub | sub in rules ensures Frames.SafeRule(known, sub) { ShapeIsSafe(known, sub); }
  }

  // ---- the second check ----

  /** Source, port and domain items mean the same on every answer. */
  lemma {:induction false} BlindGroupHolds(env: Oracle, v: Blindness.View, items: seq<Item>, f: Facts, addrs: seq<Addr>, answer: seq<Addr>)
    requires Blindness.BlindItems(v, items) && Blindness.NoRuleSetItem(items) && !v.matchSource && v.same == Blindness.Shared(false, false)
    requires v.sourceKnown ==> f.source.Some?
    ensures AnyHolds(env, items, f, addrs) == AnyHolds(env, items, f, answer)
  {
    forall item | item in items ensures ItemHolds(env, item, f, addrs) == ItemHolds(env, item, f, answer) {
      assert Blindness.BlindItem(v, item);
    }
  }

  lemma {:induction false} LeftoverSurvivesAnswer(env: Oracle, v: Blindness.View, r: Rule, c: Context, answer: seq<Addr>)
    requires r.Default? && Blindness.BlindRule(v, false, r) && !v.matchSource && v.same == Blindness.Shared(false, false)
    requires v.sourceKnown ==> c.facts.source.Some?
    requires Leftover(env, r, c)
    ensures Leftover(env, r, c.(addresses := answer))
  {
    BlindGroupHolds(env, v, r.sourceAddressItems, c.facts, c.addresses, answer);
    BlindGroupHolds(env, v, r.sourcePortItems, c.facts, c.addresses, answer);
    BlindGroupHolds(env, v, r.destinationAddressItems, c.facts, c.addresses, answer);
    BlindGroupHolds(env, v, r.destinationPortItems, c.facts, c.addresses, answer);
  }

  /** The code caches suit the answer: the source code always, the destination code when
      the tree has destination GeoIP items. */
  lemma {:induction false} ReadyForAnswer(env: Oracle, use: GeoUse, c: Context, d: Context, answer: seq<Addr>)
    requires use.source ==> c.facts.source.Some?
    requires Ready(env, use, c) && Ready(env, use, c.(addresses := answer))
    requires Ready(env, use, d) && OnlyCacheChanged(c, d) && d.geoIPCode == c.geoIPCode
    ensures Ready(env, use, d.(addresses := answer))
  {
    hide CoherentCode;
  }

  /** Two-phase check: after the first check, whatever it said, the second check on the
      left-over cache equals evaluating the whole rule afresh on the answer. */
  lemma {:induction false} SecondCheckIsFresh(env: Oracle, use: GeoUse, r: Rule, c: Context, answer: seq<Addr>)
    requires DNSShape(c.facts.source.Some?, r) && Permitted(use, r) && (use.source ==> c.facts.source.Some?)
    requires Ready(env, use, c) && Ready(env, use, c.(addresses := answer)) && c.cache == EMPTY_CACHE
    requires !c.ignoreDestinationIPCIDRMatch && !c.dnsFallback && !c.fakeIPFilter
    ensures var first := EvalRule(env, false, r, c);
            var second := EvalRule(env, true, r, first.ctx.(addresses := answer));
            second.ok == EvalRule(env, true, r, c.(addresses := answer)).ok == Holds(env, true, r, c.facts, answer)
  {
    var v := SearchView(c);
    FirstCheckIsBlind(v, r);
    CachedEvaluatorIsBoolean(env, use, true, r, c.(addresses := answer));
    CachedEvaluatorIsBoolean(env, use, false, r, c);
    Blindness.RuleIsBlind(env, v, false, r, c, c);
    var c1 := EvalRule(env, false, r, c).ctx;
    ReadyForAnswer(env, use, c, c1, answer);
    var d := c1.(addresses := answer);
    if r.Logical? {
      EvalRulesHold(env, use, true, r.mode, r.rules, d);
    } else {
      FirstPhaseLeftover(env, use, r, c);
      LeftoverSurvivesAnswer(env, v, r, c1, answer);
      EvalBodyHolds(env, use, r, d);
    }
  }

  lemma {:induction false} FirstPhaseLeftover(env: Oracle, use: GeoUse, r: Rule, c: Context)
    requires r.Default? && r.kind.DNSRule? && Permitted(use, r) && Ready(env, use, c) && c.cache == EMPTY_CACHE
    requires !c.ignoreDestinationIPCIDRMatch
    ensures var c1 := EvalRule(env, false, r, c).ctx;
            Leftover(env, r, c1) && (c1.cache.didMatch ==> Conditional(r, false))
  {
    hide AnyHolds, Ready, EvalBody;
    var c0 := c.(ignoreDestinationIPCIDRMatch := true);
    ReadyIgnores(env, use, c);
    EvalBodyHolds(env, use, r, c0);
    assert Conditional(r, false) == !NoItems(r);
    if NoItems(r) { EmptyBody(env, r, c0); }
  }

  lemma ReadyIgnores(env: Oracle, use: GeoUse, c: Context)
    requires Ready(env, use, c)
    ensures Ready(env, use, c.(ignoreDestinationIPCIDRMatch := true))
  {
    hide CoherentCode;
  }

  lemma EmptyBody(env: Oracle, r: Rule, c: Context)
    requires r.Default? && NoItems(r)
    ensures EvalBody(env, r, c) == Outcome(true, c)
  {
  }

  /** With a destination code left by an earlier answer, a GeoIP condition judges the old
      answer, whatever the new one is. */
  lemma {:induction false} StaleCodeDecides(env: Oracle, codes: set<string>, c: Context, answer: seq<Addr>)
    requires c.geoIPCode != "" && c.cache == EMPTY_CACHE && !c.ignoreDestinationIPCIDRMatch
    ensures var r := Default(DNSRule, false, [], [], [], [], [GeoIP(false, codes)], []);
            EvalRule(env, true, r, c.(addresses := answer)).ok == (c.geoIPCode in codes)
  {
    var r := Default(DNSRule, false, [], [], [], [], [GeoIP(false, codes)], []);
    var d := SetDidMatch(c.(addresses := answer));
    assert EvalItem(env, r.destinationIPCIDRItems[0], d) == Outcome(c.geoIPCode in codes, d);
    assert EvalAny(env, r.destinationIPCIDRItems[1..], d) == Outcome(false, d);
    assert EvalAny(env, r.destinationIPCIDRItems, d) == Outcome(c.geoIPCode in codes, d);
    var staged := Stage(env, DestinationAddress, r.destinationIPCIDRItems, c.(addresses := answer));
    assert Stages(env, r, c.(addresses := answer)) == staged;
    assert EvalAll(env, r.items, staged) == Outcome(true, staged);
  }
}

/** A static analysis of rule trees: which rules never look at the resolved addresses (or
    at the destination GeoIP code cache), and the proof that evaluation obeys it. */
module Blindness {
  import opened Wrappers
  import opened RuleModel

  /** Facts the analysis may rely on.
      ignore: address items are switched off (first phase of a DNS rule);
      matchSource: ip_cidr items test the source address instead;
      sourceKnown: the source address is valid, so source GeoIP items never fall through;
      same: what is settled although a blind rule need not care. */
  datatype View = View(ignore: bool, matchSource: bool, sourceKnown: bool, same: Shared)

  /** The resolved addresses are the same in both runs; so is the destination code cache. */
  datatype Shared = Shared(addresses: bool, code: bool)

  ghost predicate BlindItem(v: View, item: Item)
    decreases item, 1
  {
    match item
    case Plain(_) => true
    case IPCIDR(isSource, _) => isSource || v.matchSource || v.same.addresses
    case IPIsPrivate(isSource) => isSource || v.same.addresses
    case GeoIP(isSource, _) => if isSource then v.sourceKnown else v.same.addresses && v.same.code
    case RuleSetItem(matchSource, _, sets) => BlindSets(v.(matchSource := matchSource), sets)
  }

  ghost predicate BlindItems(v: View, items: seq<Item>)
    decreases items, 0
  {
    forall item <- items :: BlindItem(v, item)
  }

  /** The sets of one item are tried in order on one cache. */
  ghost predicate BlindSets(v: View, sets: seq<RuleSet>)
    decreases sets, 0
  {
    sets == [] ||
    (BlindRules(v, sets[0].rules) && BlindSets(AfterRules(v, sets[0].rules), sets[1..]))
  }

  /** A logical rule resets the cache, match-source flag included, for itself and for
      every later rule of the list. */
  function AfterRules(v: View, rules: seq<Rule>): View
    decreases rules
  {
    if rules == [] then v
    else AfterRules(if rules[0].Default? then v else v.(matchSource := false), rules[1..])
  }

  ghost predicate BlindRules(v: View, rules: seq<Rule>)
    decreases rules, 0
  {
    rules == [] ||
    (BlindRule(v, false, rules[0]) && HeadlessShape(rules[0]) &&
     BlindRules(if rules[0].Default? then v else v.(matchSource := false), rules[1..]))
  }

  /** Rules inside rule sets are headless and hold no rule set. */
  ghost predicate HeadlessShape(r: Rule)
    decreases r
  {
    r.kind.HeadlessRule? &&
    match r
    case Default(_, _, items, sa, sp, da, dc, dp) =>
      NoRuleSetItem(items) && NoRuleSetItem(sa) && NoRuleSetItem(sp) &&
      NoRuleSetItem(da) && NoRuleSetItem(dc) && NoRuleSetItem(dp)
    case Logical(_, _, _, rules) => forall sub <- rules :: HeadlessShape(sub)
  }

  ghost predicate NoRuleSetItem(items: seq<Item>) { forall item <- items :: !item.RuleSetItem? }

  ghost predicate BlindRule(v: View, limit: bool, r: Rule)
    decreases r, 0
  {
    match r
    case Default(kind, _, items, sa, sp, da, dc, dp) =>
      BlindItems(v.(matchSource := false, ignore := v.ignore || (kind.DNSRule? && !limit)), items) &&
      BlindItems(v, sa) && BlindItems(v, sp) && BlindItems(v, da) && BlindItems(v, dp) &&
      NoRuleSetItem(sa) && NoRuleSetItem(sp) && NoRuleSetItem(da) && NoRuleSetItem(dc) && NoRuleSetItem(dp) &&
      (v.ignore || (kind.DNSRule? && !limit) || BlindItems(v, dc))
    case Logical(_, _, _, rules) => forall sub <- rules :: BlindRule(v.(matchSource := false), limit, sub)
  }

  /** The source code cache holds nothing, or the code of the source. */
  ghost predicate SourceCodeIn(env: Oracle, f: Facts, code: string) {
    code == "" || (f.source.Some? && code == CodeOf(env, f.source.value))
  }

  /** Equal except for what a blind rule does not see. */
  ghost predicate Alike(env: Oracle, same: Shared, c: Context, d: Context) {
    d == c.(addresses := d.addresses, geoIPCode := d.geoIPCode, sourceGeoIPCode := d.sourceGeoIPCode) &&
    (same.addresses ==> c.addresses == d.addresses) && (same.code ==> c.geoIPCode == d.geoIPCode) &&
    (c.sourceGeoIPCode == d.sourceGeoIPCode ||
     (SourceCodeIn(env, c.facts, c.sourceGeoIPCode) && SourceCodeIn(env, c.facts, d.sourceGeoIPCode)))
  }

  /** Only the cache and the source code change, the latter to the code of the source, and
      the destination code only where it is shared. */
  ghost predicate Framed(env: Oracle, same: Shared, c: Context, c': Context) {
    c' == c.(cache := c'.cache, sourceGeoIPCode := c'.sourceGeoIPCode, geoIPCode := c'.geoIPCode) &&
    (!same.code ==> c'.geoIPCode == c.geoIPCode) &&
    (c'.sourceGeoIPCode == c.sourceGeoIPCode || SourceCodeIn(env, c.facts, c'.sourceGeoIPCode))
  }

  /** Two runs side by side: both stay within their frame and stay alike; runs that agreed
      on the source code still do. */
  ghost predicate Steps(env: Oracle, same: Shared, c: Context, d: Context, c': Context, d': Context) {
    Alike(env, same, c', d') && Framed(env, same, c, c') && Framed(env, same, d, d') &&
    (c.sourceGeoIPCode == d.sourceGeoIPCode ==> c'.sourceGeoIPCode == d'.sourceGeoIPCode)
  }

  /** The same verdict from both runs. */
  ghost predicate SameRun(env: Oracle, same: Shared, c: Context, d: Context, p: Outcome, q: Outcome) {
    p.ok == q.ok && Steps(env, same, c, d, p.ctx, q.ctx)
  }

  /** The view is true of the context. */
  ghost predicate Sound(v: View, c: Context) {
    (v.ignore ==> c.ignoreDestinationIPCIDRMatch) &&
    (v.matchSource ==> c.cache.ipcidrMatchSource) &&
    (v.sourceKnown ==> c.facts.source.Some?) &&
    !c.dnsFallback && !c.fakeIPFilter
  }

  ghost predicate KeepsFlags(c: Context, c': Context) {
    c'.cache.ipcidrMatchSource == c.cache.ipcidrMatchSource && c'.cache.ipcidrAcceptEmpty == c.cache.ipcidrAcceptEmpty
  }

  // ---- composing runs ----

  lemma StepsTransitive(env: Oracle, same: Shared, c: Context, d: Context, c1: Context, d1: Context, c2: Context, d2: Context)
    requires Steps(env, same, c, d, c1, d1) && Steps(env, same, c1, d1, c2, d2)
    ensures Steps(env, same, c, d, c2, d2)
    ensures KeepsFlags(c, c1) && KeepsFlags(c1, c2) ==> KeepsFlags(c, c2)
  {
  }

  /** Replacing the cache on both sides by the same one. */
  lemma StepsCache(env: Oracle, same: Shared, c: Context, d: Context, cache: Cache)
    requires Alike(env, same, c, d)
    ensures c.cache == d.cache
    ensures Steps(env, same, c, d, c.(cache := cache), d.(cache := cache))
  {
  }

  lemma StepsSound(env: Oracle, v: View, c: Context, d: Context, c': Context, d': Context)
    requires Sound(v, c) && Steps(env, v.same, c, d, c', d')
    ensures Alike(env, v.same, c', d') && Sound(v.(matchSource := false), c')
    ensures KeepsFlags(c, c') ==> Sound(v, c')
    ensures c'.ignoreDestinationIPCIDRMatch == c.ignoreDestinationIPCIDRMatch == d'.ignoreDestinationIPCIDRMatch
  {
  }

  // ---- evaluation of blind items, groups and rules ----

  lemma {:induction false} ItemIsBlind(env: Oracle, v: View, item: Item, c: Context, d: Context)
    requires BlindItem(v, item) && Sound(v, c) && Alike(env, v.same, c, d)
    ensures SameRun(env, v.same, c, d, EvalItem(env, item, c), EvalItem(env, item, d))
    ensures !item.RuleSetItem? ==> KeepsFlags(c, EvalItem(env, item, c).ctx)
    decreases item, 1
  {
    var same := v.same;
    StepsCache(env, same, c, d, c.cache);
    if item.Plain? || item.IPCIDR? || item.IPIsPrivate? { SimpleItemIsBlind(env, v, item, c, d); }
    var known := v.sourceKnown ==> c.facts.source.Some?;
    assert known;
    hide Steps, Alike;
    match item
    case Plain(_) =>
    case IPCIDR(_, _) =>
    case IPIsPrivate(_) =>
    case GeoIP(isSource, codes) =>
      if isSource { SourceGeoIPIsBlind(env, same, codes, c, d); } else { DestinationGeoIPIsBlind(env, same, codes, c, d); }
    case RuleSetItem(matchSource, acceptEmpty, sets) =>
      var c0, d0 := SetSourceFlags(c, matchSource, acceptEmpty), SetSourceFlags(d, matchSource, acceptEmpty);
      StepsCache(env, same, c, d, c0.cache);
      StepsSound(env, v, c, d, c0, d0);
      SetsAreBlind(env, v.(matchSource := matchSource), sets, c0, d0);
      StepsTransitive(env, same, c, d, c0, d0, EvalSets(env, sets, c0).ctx, EvalSets(env, sets, d0).ctx);
  }

  lemma {:induction false} SimpleItemIsBlind(env: Oracle, v: View, item: Item, c: Context, d: Context)
    requires item.Plain? || item.IPCIDR? || item.IPIsPrivate?
    requires BlindItem(v, item) && Sound(v, c) && Alike(env, v.same, c, d)
    ensures EvalItem(env, item, c).ok == EvalItem(env, item, d).ok
    ensures EvalItem(env, item, c).ctx == c && EvalItem(env, item, d).ctx == d
  {
  }

  lemma {:induction false} SourceGeoIPIsBlind(env: Oracle, same: Shared, codes: set<string>, c: Context, d: Context)
    requires c.facts.source.Some? && Alike(env, same, c, d)
    ensures SameRun(env, same, c, d, EvalGeoIP(env, true, codes, c), EvalGeoIP(env, true, codes, d))
    ensures KeepsFlags(c, EvalGeoIP(env, true, codes, c).ctx)
  {
  }

  lemma {:induction false} DestinationGeoIPIsBlind(env: Oracle, same: Shared, codes: set<string>, c: Context, d: Context)
    requires same.addresses && same.code && Alike(env, same, c, d)
    ensures SameRun(env, same, c, d, EvalGeoIP(env, false, codes, c), EvalGeoIP(env, false, codes, d))
    ensures KeepsFlags(c, EvalGeoIP(env, false, codes, c).ctx)
  {
    EvalGeoIPTwice(env, codes, c, d);
    StepsCode(env, same, c, d, EvalGeoIP(env, false, codes, c).ctx.geoIPCode);
    hide EvalGeoIP, Steps, Alike;
  }

  lemma {:induction false} EvalGeoIPTwice(env: Oracle, codes: set<string>, c: Context, d: Context)
    requires c.geoIPCode == d.geoIPCode && c.facts == d.facts && c.addresses == d.addresses
    ensures var p, q := EvalGeoIP(env, false, codes, c), EvalGeoIP(env, false, codes, d);
            p.ok == q.ok && p.ctx == c.(geoIPCode := p.ctx.geoIPCode) && q.ctx == d.(geoIPCode := p.ctx.geoIPCode)
  {
    GeoIPAnyTwice(env, codes, c.addresses, c, d);
  }

  /** The same destination code on both sides. */
  lemma {:induction false} StepsCode(env: Oracle, same: Shared, c: Context, d: Context, code: string)
    requires same.code && Alike(env, same, c, d)
    ensures Steps(env, same, c, d, c.(geoIPCode := code), d.(geoIPCode := code))
  {
  }

  lemma {:induction false} GeoIPAnyTwice(env: Oracle, codes: set<string>, addrs: seq<Addr>, c: Context, d: Context)
    requires c.geoIPCode == d.geoIPCode
    ensures var p, q := GeoIPAny(env, false, codes, addrs, c), GeoIPAny(env, false, codes, addrs, d);
            p.ok == q.ok && p.ctx == c.(geoIPCode := p.ctx.geoIPCode) && q.ctx == d.(geoIPCode := p.ctx.geoIPCode)
  {
    if addrs != [] {
      GeoIPAnyTwice(env, codes, addrs[1..], GeoIPOne(env, false, codes, addrs[0], c).ctx, GeoIPOne(env, false, codes, addrs[0], d).ctx);
    }
  }

  lemma {:induction false} SetsAreBlind(env: Oracle, v: View, sets: seq<RuleSet>, c: Context, d: Context)
    requires BlindSets(v, sets) && Sound(v, c) && Alike(env, v.same, c, d)
    ensures SameRun(env, v.same, c, d, EvalSets(env, sets, c), EvalSets(env, sets, d))
    decreases sets, 0
  {
    if sets == [] {
      StepsCache(env, v.same, c, d, c.cache);
    } else {
      hide Steps, Alike;
      SetIsBlind(env, v, sets[0].rules, c, d);
      var p, q := EvalSet(env, sets[0].rules, c), EvalSet(env, sets[0].rules, d);
      if !p.ok {
        var w := AfterRules(v, sets[0].rules);
        StepsSound(env, v, c, d, p.ctx, q.ctx);
        SetsAreBlind(env, w, sets[1..], p.ctx, q.ctx);
        StepsTransitive(env, v.same, c, d, p.ctx, q.ctx, EvalSets(env, sets[1..], p.ctx).ctx, EvalSets(env, sets[1..], q.ctx).ctx);
      }
    }
  }

  lemma {:induction false} SetIsBlind(env: Oracle, v: View, rules: seq<Rule>, c: Context, d: Context)
    requires BlindRules(v, rules) && Sound(v, c) && Alike(env, v.same, c, d)
    ensures SameRun(env, v.same, c, d, EvalSet(env, rules, c), EvalSet(env, rules, d))
    ensures AfterRules(v, rules).same == v.same
    ensures !EvalSet(env, rules, c).ok ==> Sound(AfterRules(v, rules), EvalSet(env, rules, c).ctx)
    decreases rules, 0
  {
    if rules == [] {
      StepsCache(env, v.same, c, d, c.cache);
    } else {
      hide Steps, Alike, Sound;
      RuleIsBlind(env, v, false, rules[0], c, d);
      var p, q := EvalRule(env, false, rules[0], c), EvalRule(env, false, rules[0], d);
      StepsSound(env, v, c, d, p.ctx, q.ctx);
      var w := if rules[0].Default? then v else v.(matchSource := false);
      SetIsBlind(env, w, rules[1..], p.ctx, q.ctx);
      if !p.ok {
        StepsTransitive(env, v.same, c, d, p.ctx, q.ctx, EvalSet(env, rules[1..], p.ctx).ctx, EvalSet(env, rules[1..], q.ctx).ctx);
      }
    }
  }

  lemma {:induction false} AnyIsBlind(env: Oracle, v: View, items: seq<Item>, c: Context, d: Context)
    requires BlindItems(v, items) && NoRuleSetItem(items) && Sound(v, c) && Alike(env, v.same, c, d)
    ensures SameRun(env, v.same, c, d, EvalAny(env, items, c), EvalAny(env, items, d))
    ensures KeepsFlags(c, EvalAny(env, items, c).ctx)
    decreases items, 0
  {
    if items == [] {
      StepsCache(env, v.same, c, d, c.cache);
    } else {
      hide Steps, Alike, Sound;
      ItemIsBlind(env, v, items[0], c, d);
      var p, q := EvalItem(env, items[0], c), EvalItem(env, items[0], d);
      if !p.ok {
        StepsSound(env, v, c, d, p.ctx, q.ctx);
        AnyIsBlind(env, v, items[1..], p.ctx, q.ctx);
        StepsTransitive(env, v.same, c, d, p.ctx, q.ctx, EvalAny(env, items[1..], p.ctx).ctx, EvalAny(env, items[1..], q.ctx).ctx);
      }
    }
  }

  lemma {:induction false} AllIsBlind(env: Oracle, v: View, items: seq<Item>, c: Context, d: Context)
    requires !v.matchSource && BlindItems(v, items) && Sound(v, c) && Alike(env, v.same, c, d)
    ensures SameRun(env, v.same, c, d, EvalAll(env, items, c), EvalAll(env, items, d))
    ensures NoRuleSetItem(items) ==> KeepsFlags(c, EvalAll(env, items, c).ctx)
    decreases items, 0
  {
    if items == [] {
      StepsCache(env, v.same, c, d, c.cache);
    } else {
      hide Steps, Alike, Sound;
      var c0 := if items[0].RuleSetItem? then c else SetDidMatch(c);
      var d0 := if items[0].RuleSetItem? then d else SetDidMatch(d);
      StepsCache(env, v.same, c, d, c0.cache);
      StepsSound(env, v, c, d, c0, d0);
      ItemIsBlind(env, v, items[0], c0, d0);
      var p, q := EvalItem(env, items[0], c0), EvalItem(env, items[0], d0);
      StepsTransitive(env, v.same, c, d, c0, d0, p.ctx, q.ctx);
      StepsSound(env, v, c, d, p.ctx, q.ctx);
      AllIsBlind(env, v, items[1..], p.ctx, q.ctx);
      StepsTransitive(env, v.same, c, d, p.ctx, q.ctx, EvalAll(env, items[1..], p.ctx).ctx, EvalAll(env, items[1..], q.ctx).ctx);
    }
  }

  /** A group that is tried, up to recording its hit. */
  lemma {:induction false} GroupIsBlind(env: Oracle, v: View, items: seq<Item>, c: Context, d: Context)
      returns (p: Outcome, q: Outcome)
    requires BlindItems(v, items) && NoRuleSetItem(items) && Sound(v, c) && Alike(env, v.same, c, d)
    ensures p == EvalAny(env, items, SetDidMatch(c)) && q == EvalAny(env, items, SetDidMatch(d))
    ensures p.ok == q.ok && Steps(env, v.same, c, d, p.ctx, q.ctx) && KeepsFlags(c, p.ctx)
    ensures Alike(env, v.same, p.ctx, q.ctx)
    decreases items, 1
  {
    hide Steps, Alike, Sound;
    var same := v.same;
    var c0, d0 := SetDidMatch(c), SetDidMatch(d);
    StepsCache(env, same, c, d, c0.cache);
    StepsSound(env, v, c, d, c0, d0);
    AnyIsBlind(env, v, items, c0, d0);
    p, q := EvalAny(env, items, c0), EvalAny(env, items, d0);
    StepsTransitive(env, same, c, d, c0, d0, p.ctx, q.ctx);
    StepsSound(env, v, c, d, p.ctx, q.ctx);
  }

  lemma HitKeepsFlags(c: Context, slot: Slot)
    ensures KeepsFlags(c, SetHit(c, slot))
  {
  }

  lemma {:induction false} HitIsBlind(env: Oracle, same: Shared, c: Context, d: Context, p: Context, q: Context, slot: Slot)
    requires Steps(env, same, c, d, p, q) && KeepsFlags(c, p)
    ensures Steps(env, same, c, d, SetHit(p, slot), SetHit(q, slot)) && KeepsFlags(c, SetHit(p, slot))
  {
    assert Alike(env, same, p, q);
    HitKeepsFlags(p, slot);
    hide Steps, Alike, Mark;
    StepsCache(env, same, p, q, Mark(p.cache, slot));
    StepsTransitive(env, same, c, d, p, q, SetHit(p, slot), SetHit(q, slot));
  }

  lemma {:induction false} StageIsBlind(env: Oracle, v: View, slot: Slot, items: seq<Item>, c: Context, d: Context)
      returns (c': Context, d': Context)
    requires BlindItems(v, items) && NoRuleSetItem(items) && Sound(v, c) && Alike(env, v.same, c, d)
    ensures c' == Stage(env, slot, items, c) && d' == Stage(env, slot, items, d)
    ensures Steps(env, v.same, c, d, c', d') && KeepsFlags(c, c')
    ensures Alike(env, v.same, c', d') && Sound(v, c')
    ensures c'.ignoreDestinationIPCIDRMatch == c.ignoreDestinationIPCIDRMatch == d'.ignoreDestinationIPCIDRMatch
    decreases items, 2
  {
    hide Steps, Alike, Sound, EvalAny, Hit, SetHit, BlindItems, NoRuleSetItem;
    var same := v.same;
    c', d' := Stage(env, slot, items, c), Stage(env, slot, items, d);
    StepsCache(env, same, c, d, c.cache);
    if |items| > 0 && !Hit(c.cache, slot) {
      var p, q := GroupIsBlind(env, v, items, c, d);
      if p.ok { HitIsBlind(env, same, c, d, p.ctx, q.ctx, slot); }
    }
    StepsSound(env, v, c, d, c', d');
  }

  lemma {:induction false} StagesAreBlind(env: Oracle, v: View, limit: bool, r: Rule, c: Context, d: Context)
    requires r.Default? && BlindRule(v, limit, r) && Sound(v, c) && Alike(env, v.same, c, d)
    requires r.kind.DNSRule? && !limit ==> c.ignoreDestinationIPCIDRMatch
    ensures Steps(env, v.same, c, d, Stages(env, r, c), Stages(env, r, d))
    ensures KeepsFlags(c, Stages(env, r, c))
    decreases r, 0
  {
    assert v.ignore ==> c.ignoreDestinationIPCIDRMatch;
    hide Stage, BlindItems, Steps, Alike, Sound;
    var same := v.same;
    var c1, d1 := StageIsBlind(env, v, SourceAddress, r.sourceAddressItems, c, d);
    var c2, d2 := StageIsBlind(env, v, SourcePort, r.sourcePortItems, c1, d1);
    StepsTransitive(env, same, c, d, c1, d1, c2, d2);
    var c3, d3 := StageIsBlind(env, v, DestinationAddress, r.destinationAddressItems, c2, d2);
    StepsTransitive(env, same, c, d, c2, d2, c3, d3);
    var c4, d4 := c3, d3;
    if !c3.ignoreDestinationIPCIDRMatch {
      c4, d4 := StageIsBlind(env, v, DestinationAddress, r.destinationIPCIDRItems, c3, d3);
      StepsTransitive(env, same, c, d, c3, d3, c4, d4);
    }
    var c5, d5 := StageIsBlind(env, v, DestinationPort, r.destinationPortItems, c4, d4);
    StepsTransitive(env, same, c, d, c4, d4, c5, d5);
  }

  lemma {:induction false} BodyIsBlind(env: Oracle, v: View, limit: bool, r: Rule, c: Context, d: Context)
    requires r.Default? && BlindRule(v, limit, r) && Sound(v, c) && Alike(env, v.same, c, d)
    requires r.kind.DNSRule? && !limit ==> c.ignoreDestinationIPCIDRMatch
    ensures SameRun(env, v.same, c, d, EvalBody(env, r, c), EvalBody(env, r, d))
    ensures NoRuleSetItem(r.items) ==> KeepsFlags(c, EvalBody(env, r, c).ctx)
    decreases r, 1
  {
    var same := v.same;
    if NoItems(r) {
      StepsCache(env, same, c, d, c.cache);
    } else {
      hide Stages, EvalAll, BlindItems, Steps;
      StagesAreBlind(env, v, limit, r, c, d);
      var c1, d1 := Stages(env, r, c), Stages(env, r, d);
      StepsSound(env, v, c, d, c1, d1);
      var w := v.(matchSource := false, ignore := v.ignore || (r.kind.DNSRule? && !limit));
      AllIsBlind(env, w, r.items, c1, d1);
      var p, q := EvalAll(env, r.items, c1), EvalAll(env, r.items, d1);
      StepsTransitive(env, same, c, d, c1, d1, p.ctx, q.ctx);
      StepsSound(env, v, c, d, p.ctx, q.ctx);
      StepsCache(env, same, p.ctx, q.ctx, p.ctx.cache);
      SameSlots(r, p.ctx, q.ctx);
    }
  }

  lemma SameSlots(r: Rule, c: Context, d: Context)
    requires r.Default? && c.cache == d.cache && c.ignoreDestinationIPCIDRMatch == d.ignoreDestinationIPCIDRMatch
    ensures SlotsSatisfied(r, c) == SlotsSatisfied(r, d)
  {
  }

  /** A blind rule gives the same verdict on contexts that differ in what it does not see. */
  lemma {:induction false} RuleIsBlind(env: Oracle, v: View, limit: bool, r: Rule, c: Context, d: Context)
    requires BlindRule(v, limit, r) && Sound(v, c) && Alike(env, v.same, c, d)
    requires c.ignoreDestinationIPCIDRMatch ==> HeadlessShape(r)
    ensures SameRun(env, v.same, c, d, EvalRule(env, limit, r, c), EvalRule(env, limit, r, d))
    ensures r.Default? && HeadlessShape(r) ==> KeepsFlags(c, EvalRule(env, limit, r, c).ctx)
    decreases r, 2
  {
    match r
    case Default(kind, _, _, _, _, _, _, _) =>
      if kind.DNSRule? && !limit {
        BodyIsBlind(env, v, limit, r, c.(ignoreDestinationIPCIDRMatch := true), d.(ignoreDestinationIPCIDRMatch := true));
      } else {
        BodyIsBlind(env, v, limit, r, c, d);
        StepsCache(env, v.same, c, d, c.cache);
      }
    case Logical(_, mode, _, rules) => RulesAreBlind(env, v.(matchSource := false), limit, mode, rules, c, d);
  }

  lemma {:induction false} RulesAreBlind(env: Oracle, v: View, limit: bool, mode: Mode, rules: seq<Rule>, c: Context, d: Context)
    requires !v.matchSource && (forall sub <- rules :: BlindRule(v, limit, sub)) && Sound(v, c)
    requires Alike(env, v.same, c, d)
    requires c.ignoreDestinationIPCIDRMatch ==> forall sub <- rules :: HeadlessShape(sub)
    ensures SameRun(env, v.same, c, d, EvalRules(env, limit, mode, rules, c), EvalRules(env, limit, mode, rules, d))
    decreases rules, 0
  {
    var same := v.same;
    if rules == [] {
      StepsCache(env, same, c, d, c.cache);
    } else {
      hide Steps, Alike, Sound;
      StepsCache(env, same, c, d, EMPTY_CACHE);
      StepsSound(env, v, c, d, Reset(c), Reset(d));
      RuleIsBlind(env, v, limit, rules[0], Reset(c), Reset(d));
      var p, q := EvalRule(env, limit, rules[0], Reset(c)), EvalRule(env, limit, rules[0], Reset(d));
      StepsTransitive(env, same, c, d, Reset(c), Reset(d), p.ctx, q.ctx);
      StepsSound(env, v, c, d, p.ctx, q.ctx);
      RulesAreBlind(env, v, limit, mode, rules[1..], p.ctx, q.ctx);
      StepsTransitive(env, same, c, d, p.ctx, q.ctx, EvalRules(env, limit, mode, rules[1..], p.ctx).ctx, EvalRules(env, limit, mode, rules[1..], q.ctx).ctx);
    }
  }
}

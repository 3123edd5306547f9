/** What evaluation may change in the context, for every rule tree. */
module Frames {
  import opened Wrappers
  import opened RuleModel
  import opened Blindness

  /** Source GeoIP items occur only where known says so, and rule sets hold headless rules. */
  ghost predicate SafeItem(known: bool, item: Item)
    decreases item
  {
    match item
    case GeoIP(isSource, _) => isSource ==> known
    case RuleSetItem(_, _, sets) => forall s <- sets :: forall r <- s.rules :: HeadlessShape(r) && SafeRule(known, r)
    case _ => true
  }

  ghost predicate SafeItems(known: bool, items: seq<Item>)
    decreases items
  {
    forall item <- items :: SafeItem(known, item)
  }

  ghost predicate SafeRule(known: bool, r: Rule)
    decreases r
  {
    match r
    case Default(_, _, items, sa, sp, da, dc, dp) =>
      SafeItems(known, items) && SafeItems(known, sa) && SafeItems(known, sp) &&
      SafeItems(known, da) && SafeItems(known, dc) && SafeItems(known, dp)
    case Logical(_, _, _, rules) => forall sub <- rules :: SafeRule(known, sub)
  }

  /** Only the cache and the two code caches change; a new source code is the code of the
      source, except for source GeoIP items on a connection without a valid source. */
  ghost predicate Changes(env: Oracle, known: bool, c: Context, c': Context) {
    c' == c.(cache := c'.cache, sourceGeoIPCode := c'.sourceGeoIPCode, geoIPCode := c'.geoIPCode) &&
    (c'.sourceGeoIPCode == c.sourceGeoIPCode || (known && c.facts.source.None?) ||
     (c.sourceGeoIPCode == "" && SourceCodeIn(env, c.facts, c'.sourceGeoIPCode)))
  }

  lemma ChangesTransitive(env: Oracle, known: bool, c: Context, c1: Context, c2: Context)
    requires Changes(env, known, c, c1) && Changes(env, known, c1, c2)
    ensures Changes(env, known, c, c2)
    ensures c2.facts == c.facts && c2.ignoreDestinationIPCIDRMatch == c.ignoreDestinationIPCIDRMatch && c2.addresses == c.addresses
  {
  }

  lemma ChangesCache(env: Oracle, known: bool, c: Context, cache: Cache)
    ensures Changes(env, known, c, c.(cache := cache))
  {
  }

  lemma {:induction false} GeoIPAnyChanges(env: Oracle, known: bool, isSource: bool, codes: set<string>, addrs: seq<Addr>, c: Context)
    requires isSource ==> known && c.facts.source.None?
    ensures Changes(env, known, c, GeoIPAny(env, isSource, codes, addrs, c).ctx)
  {
    if addrs != [] {
      GeoIPAnyChanges(env, known, isSource, codes, addrs[1..], GeoIPOne(env, isSource, codes, addrs[0], c).ctx);
    }
  }

  lemma {:induction false} ItemChanges(env: Oracle, known: bool, item: Item, c: Context)
    requires SafeItem(known, item)
    ensures Changes(env, known, c, EvalItem(env, item, c).ctx)
    decreases item, 1
  {
    match item
    case Plain(_) =>
    case IPCIDR(_, _) =>
    case IPIsPrivate(_) =>
    case GeoIP(isSource, codes) =>
      if !isSource || c.facts.source.None? { GeoIPAnyChanges(env, known, isSource, codes, c.addresses, c); }
    case RuleSetItem(matchSource, acceptEmpty, sets) =>
      var c0 := SetSourceFlags(c, matchSource, acceptEmpty);
      SetsChange(env, known, sets, c0);
      ChangesTransitive(env, known, c, c0, EvalSets(env, sets, c0).ctx);
  }

  lemma {:induction false} SetsChange(env: Oracle, known: bool, sets: seq<RuleSet>, c: Context)
    requires forall s <- sets :: forall r <- s.rules :: HeadlessShape(r) && SafeRule(known, r)
    ensures Changes(env, known, c, EvalSets(env, sets, c).ctx)
    decreases sets, 0
  {
    ChangesCache(env, known, c, c.cache);
    if sets != [] {
      hide Changes;
      SetChanges(env, known, sets[0].rules, c);
      var o := EvalSet(env, sets[0].rules, c);
      ChangesTransitive(env, known, c, c, o.ctx);
      SetsChange(env, known, sets[1..], o.ctx);
      ChangesTransitive(env, known, c, o.ctx, EvalSets(env, sets[1..], o.ctx).ctx);
    }
  }

  lemma {:induction false} SetChanges(env: Oracle, known: bool, rules: seq<Rule>, c: Context)
    requires forall r <- rules :: HeadlessShape(r) && SafeRule(known, r)
    ensures Changes(env, known, c, EvalSet(env, rules, c).ctx)
    decreases rules, 0
  {
    ChangesCache(env, known, c, c.cache);
    if rules != [] {
      hide Changes;
      RuleChanges(env, known, false, rules[0], c);
      var o := EvalRule(env, false, rules[0], c);
      ChangesTransitive(env, known, c, c, o.ctx);
      SetChanges(env, known, rules[1..], o.ctx);
      ChangesTransitive(env, known, c, o.ctx, EvalSet(env, rules[1..], o.ctx).ctx);
    }
  }

  lemma {:induction false} AnyChanges(env: Oracle, known: bool, items: seq<Item>, c: Context)
    requires SafeItems(known, items)
    ensures Changes(env, known, c, EvalAny(env, items, c).ctx)
    decreases items, 0
  {
    ChangesCache(env, known, c, c.cache);
    if items != [] {
      hide Changes;
      ItemChanges(env, known, items[0], c);
      var o := EvalItem(env, items[0], c);
      ChangesTransitive(env, known, c, c, o.ctx);
      AnyChanges(env, known, items[1..], o.ctx);
      ChangesTransitive(env, known, c, o.ctx, EvalAny(env, items[1..], o.ctx).ctx);
    }
  }

  lemma {:induction false} AllChanges(env: Oracle, known: bool, items: seq<Item>, c: Context)
    requires SafeItems(known, items)
    ensures Changes(env, known, c, EvalAll(env, items, c).ctx)
    decreases items, 0
  {
    ChangesCache(env, known, c, c.cache);
    if items != [] {
      hide Changes;
      var c0 := if items[0].RuleSetItem? then c else SetDidMatch(c);
      ChangesCache(env, known, c, c0.cache);
      ItemChanges(env, known, items[0], c0);
      var o := EvalItem(env, items[0], c0);
      ChangesTransitive(env, known, c, c0, o.ctx);
      AllChanges(env, known, items[1..], o.ctx);
      ChangesTransitive(env, known, c, o.ctx, EvalAll(env, items[1..], o.ctx).ctx);
    }
  }

  lemma {:induction false} StageChanges(env: Oracle, known: bool, slot: Slot, items: seq<Item>, c: Context) returns (c': Context)
    requires SafeItems(known, items)
    ensures c' == Stage(env, slot, items, c) && Changes(env, known, c, c') && c'.facts == c.facts
    decreases items, 1
  {
    hide Changes, Mark, Hit, EvalAny, SafeItems;
    c' := Stage(env, slot, items, c);
    ChangesCache(env, known, c, c.cache);
    if |items| > 0 && !Hit(c.cache, slot) {
      var c0 := SetDidMatch(c);
      ChangesCache(env, known, c, c0.cache);
      AnyChanges(env, known, items, c0);
      var o := EvalAny(env, items, c0);
      ChangesTransitive(env, known, c, c0, o.ctx);
      ChangesCache(env, known, o.ctx, c'.cache);
      if o.ok { ChangesTransitive(env, known, c, o.ctx, c'); }
    }
  }

  lemma {:induction false} BodyChanges(env: Oracle, known: bool, r: Rule, c: Context)
    requires r.Default? && SafeRule(known, r)
    ensures Changes(env, known, c, EvalBody(env, r, c).ctx)
    decreases r, 1
  {
    hide Changes, Stage, EvalAll, SafeItems;
    ChangesCache(env, known, c, c.cache);
    if !NoItems(r) {
      var c1 := StageChanges(env, known, SourceAddress, r.sourceAddressItems, c);
      var c2 := StageChanges(env, known, SourcePort, r.sourcePortItems, c1);
      ChangesTransitive(env, known, c, c1, c2);
      var c3 := StageChanges(env, known, DestinationAddress, r.destinationAddressItems, c2);
      ChangesTransitive(env, known, c, c2, c3);
      var c4 := c3;
      if !c3.ignoreDestinationIPCIDRMatch {
        c4 := StageChanges(env, known, DestinationAddress, r.destinationIPCIDRItems, c3);
        ChangesTransitive(env, known, c, c3, c4);
      }
      var c5 := StageChanges(env, known, DestinationPort, r.destinationPortItems, c4);
      ChangesTransitive(env, known, c, c4, c5);
      assert c5 == Stages(env, r, c);
      AllChanges(env, known, r.items, c5);
      ChangesTransitive(env, known, c, c5, EvalAll(env, r.items, c5).ctx);
    }
  }

  /** Evaluating any rule, in either phase, leaves facts, addresses and modes alone. known
      tells whether the rule may hold source GeoIP items. */
  lemma {:induction false} RuleChanges(env: Oracle, known: bool, limit: bool, r: Rule, c: Context)
    requires SafeRule(known, r)
    requires c.ignoreDestinationIPCIDRMatch ==> HeadlessShape(r)
    ensures Changes(env, known, c, EvalRule(env, limit, r, c).ctx)
    decreases r, 2
  {
    match r
    case Default(kind, _, _, _, _, _, _, _) =>
      if kind.HeadlessRule? && !NoItems(r) && c.dnsFallback {
        AnyChanges(env, known, r.destinationIPCIDRItems, c);
      } else if kind.HeadlessRule? && !NoItems(r) && c.fakeIPFilter {
        AnyChanges(env, known, r.destinationAddressItems, c);
      } else if kind.DNSRule? && !limit {
        BodyChanges(env, known, r, c.(ignoreDestinationIPCIDRMatch := true));
      } else {
        BodyChanges(env, known, r, c);
      }
    case Logical(_, mode, _, rules) => RulesChange(env, known, limit, mode, rules, c);
  }

  lemma {:induction false} RulesChange(env: Oracle, known: bool, limit: bool, mode: Mode, rules: seq<Rule>, c: Context)
    requires forall sub <- rules :: SafeRule(known, sub)
    requires c.ignoreDestinationIPCIDRMatch ==> forall sub <- rules :: HeadlessShape(sub)
    ensures Changes(env, known, c, EvalRules(env, limit, mode, rules, c).ctx)
    decreases rules, 0
  {
    ChangesCache(env, known, c, c.cache);
    if rules != [] {
      hide Changes;
      ChangesCache(env, known, c, EMPTY_CACHE);
      RuleChanges(env, known, limit, rules[0], Reset(c));
      var o := EvalRule(env, limit, rules[0], Reset(c));
      ChangesTransitive(env, known, c, Reset(c), o.ctx);
      RulesChange(env, known, limit, mode, rules[1..], o.ctx);
      ChangesTransitive(env, known, c, o.ctx, EvalRules(env, limit, mode, rules[1..], o.ctx).ctx);
    }
  }

  // ---- facts and addresses, whatever the rule ----

  ghost predicate Kept(c: Context, c': Context) { c'.facts == c.facts && c'.addresses == c.addresses }

  lemma {:induction false} GeoIPKeeps(env: Oracle, isSource: bool, codes: set<string>, addrs: seq<Addr>, c: Context)
    ensures Kept(c, GeoIPAny(env, isSource, codes, addrs, c).ctx)
  {
    if addrs != [] { GeoIPKeeps(env, isSource, codes, addrs[1..], GeoIPOne(env, isSource, codes, addrs[0], c).ctx); }
  }

  lemma {:induction false} ItemKeeps(env: Oracle, item: Item, c: Context)
    ensures Kept(c, EvalItem(env, item, c).ctx)
    decreases item, 1
  {
    match item
    case Plain(_) =>
    case IPCIDR(_, _) =>
    case IPIsPrivate(_) =>
    case GeoIP(isSource, codes) => GeoIPKeeps(env, isSource, codes, c.addresses, c);
    case RuleSetItem(matchSource, acceptEmpty, sets) => SetsKeep(env, sets, SetSourceFlags(c, matchSource, acceptEmpty));
  }

  lemma {:induction false} SetsKeep(env: Oracle, sets: seq<RuleSet>, c: Context)
    ensures Kept(c, EvalSets(env, sets, c).ctx)
    decreases sets, 0
  {
    if sets != [] {
      SetKeeps(env, sets[0].rules, c);
      SetsKeep(env, sets[1..], EvalSet(env, sets[0].rules, c).ctx);
    }
  }

  lemma {:induction false} SetKeeps(env: Oracle, rules: seq<Rule>, c: Context)
    ensures Kept(c, EvalSet(env, rules, c).ctx)
    decreases rules, 0
  {
    if rules != [] {
      RuleKeeps(env, false, rules[0], c);
      SetKeeps(env, rules[1..], EvalRule(env, false, rules[0], c).ctx);
    }
  }

  lemma {:induction false} AnyKeeps(env: Oracle, items: seq<Item>, c: Context)
    ensures Kept(c, EvalAny(env, items, c).ctx)
    decreases items, 0
  {
    if items != [] {
      ItemKeeps(env, items[0], c);
      AnyKeeps(env, items[1..], EvalItem(env, items[0], c).ctx);
    }
  }

  lemma {:induction false} AllKeep(env: Oracle, items: seq<Item>, c: Context)
    ensures Kept(c, EvalAll(env, items, c).ctx)
    decreases items, 0
  {
    if items != [] {
      var c0 := if items[0].RuleSetItem? then c else SetDidMatch(c);
      ItemKeeps(env, items[0], c0);
      AllKeep(env, items[1..], EvalItem(env, items[0], c0).ctx);
    }
  }

  lemma {:induction false} StageKeeps(env: Oracle, slot: Slot, items: seq<Item>, c: Context) returns (c': Context)
    ensures c' == Stage(env, slot, items, c) && Kept(c, c')
    decreases items, 1
  {
    hide EvalAny, Hit, Mark;
    c' := Stage(env, slot, items, c);
    AnyKeeps(env, items, SetDidMatch(c));
  }

  lemma {:induction false} BodyKeeps(env: Oracle, r: Rule, c: Context)
    requires r.Default?
    ensures Kept(c, EvalBody(env, r, c).ctx)
    decreases r, 1
  {
    hide Stage, EvalAll;
    var c1 := StageKeeps(env, SourceAddress, r.sourceAddressItems, c);
    var c2 := StageKeeps(env, SourcePort, r.sourcePortItems, c1);
    var c3 := StageKeeps(env, DestinationAddress, r.destinationAddressItems, c2);
    var c4 := c3;
    if !c3.ignoreDestinationIPCIDRMatch { c4 := StageKeeps(env, DestinationAddress, r.destinationIPCIDRItems, c3); }
    var c5 := StageKeeps(env, DestinationPort, r.destinationPortItems, c4);
    assert c5 == Stages(env, r, c);
    AllKeep(env, r.items, c5);
  }

  /** Evaluating any rule at all leaves the facts and the addresses alone. */
  lemma {:induction false} RuleKeeps(env: Oracle, limit: bool, r: Rule, c: Context)
    ensures Kept(c, EvalRule(env, limit, r, c).ctx)
    decreases r, 2
  {
    match r
    case Default(_, _, _, _, _, da, dc, _) =>
      AnyKeeps(env, dc, c);
      AnyKeeps(env, da, c);
      BodyKeeps(env, r, c.(ignoreDestinationIPCIDRMatch := true));
      BodyKeeps(env, r, c);
    case Logical(_, mode, _, rules) => RulesKeep(env, limit, mode, rules, c);
  }

  lemma {:induction false} RulesKeep(env: Oracle, limit: bool, mode: Mode, rules: seq<Rule>, c: Context)
    ensures Kept(c, EvalRules(env, limit, mode, rules, c).ctx)
    decreases rules, 0
  {
    if rules != [] {
      RuleKeeps(env, limit, rules[0], Reset(c));
      RulesKeep(env, limit, mode, rules[1..], EvalRule(env, limit, rules[0], Reset(c)).ctx);
    }
  }
}

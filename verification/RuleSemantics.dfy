/** The boolean meaning of a rule tree, with no cache, and the theorem that the cached
    short-circuit evaluator computes it. */
module RuleSemantics {
  import opened Wrappers
  import opened RuleModel

  // ---- meaning ----

  ghost function Listed(a: Option<Addr>): seq<Addr> {
    match a case Some(x) => [x] case None => []
  }

  /** The endpoint when valid, else the resolved addresses. */
  ghost function Targets(f: Facts, addrs: seq<Addr>, isSource: bool): seq<Addr> {
    match Endpoint(f, isSource) case Some(x) => [x] case None => addrs
  }

  /** Some address is in one of the countries; an address that is not public counts as the
      country "private". */
  ghost predicate GeoIPHolds(env: Oracle, codes: set<string>, addrs: seq<Addr>) {
    exists a <- addrs :: if env.isPublic(a) then env.lookup(a) != "" && env.lookup(a) in codes else "private" in codes
  }

  /** An item holds when one of the addresses it inspects satisfies it. */
  ghost predicate ItemHolds(env: Oracle, item: Item, f: Facts, addrs: seq<Addr>) {
    match item
    case Plain(test) => test(f)
    case IPCIDR(isSource, ipSet) =>
      AnyIn(ipSet, if isSource then Listed(f.source) else Targets(f, addrs, false))
    case IPIsPrivate(isSource) =>
      exists a <- (if isSource then Listed(f.source) else Targets(f, addrs, false)) :: !env.isPublic(a)
    case GeoIP(isSource, codes) => GeoIPHolds(env, codes, Targets(f, addrs, isSource))
    case RuleSetItem(_, _, _) => false
  }

  ghost predicate AnyHolds(env: Oracle, items: seq<Item>, f: Facts, addrs: seq<Addr>) {
    exists item <- items :: ItemHolds(env, item, f, addrs)
  }

  ghost predicate AllHold(env: Oracle, items: seq<Item>, f: Facts, addrs: seq<Addr>) {
    forall item <- items :: ItemHolds(env, item, f, addrs)
  }

  /** Every plain item, and some item of every non-empty group; domain and address items
      form one group, from which ignore removes the address items. */
  ghost predicate BodyHolds(env: Oracle, r: Rule, ignore: bool, f: Facts, addrs: seq<Addr>)
    requires r.Default?
  {
    AllHold(env, r.items, f, addrs) &&
    (|r.sourceAddressItems| > 0 ==> AnyHolds(env, r.sourceAddressItems, f, addrs)) &&
    (|r.sourcePortItems| > 0 ==> AnyHolds(env, r.sourcePortItems, f, addrs)) &&
    (|r.destinationAddressItems| > 0 || (!ignore && |r.destinationIPCIDRItems| > 0) ==>
       AnyHolds(env, r.destinationAddressItems, f, addrs) ||
       (!ignore && AnyHolds(env, r.destinationIPCIDRItems, f, addrs))) &&
    (|r.destinationPortItems| > 0 ==> AnyHolds(env, r.destinationPortItems, f, addrs))
  }

  /** Some condition is left to evaluate. */
  ghost predicate Conditional(r: Rule, ignore: bool)
    requires r.Default?
  {
    |r.items| > 0 || |r.sourceAddressItems| > 0 || |r.sourcePortItems| > 0 ||
    |r.destinationAddressItems| > 0 || (!ignore && |r.destinationIPCIDRItems| > 0) || |r.destinationPortItems| > 0
  }

  ghost predicate DefaultHolds(env: Oracle, r: Rule, ignore: bool, f: Facts, addrs: seq<Addr>)
    requires r.Default?
  {
    !Conditional(r, ignore) || BodyHolds(env, r, ignore, f, addrs) != r.invert
  }

  ghost predicate Holds(env: Oracle, limit: bool, r: Rule, f: Facts, addrs: seq<Addr>)
    decreases r
  {
    match r
    case Default(kind, _, _, _, _, _, _, _) => DefaultHolds(env, r, kind.DNSRule? && !limit, f, addrs)
    case Logical(_, And, invert, rules) => (forall sub <- rules :: Holds(env, limit, sub, f, addrs)) != invert
    case Logical(_, Or, invert, rules) => (exists sub <- rules :: Holds(env, limit, sub, f, addrs)) != invert
  }

  // ---- the GeoIP code cache ----

  /** All addresses that have a code have the same one. */
  ghost predicate Uniform(env: Oracle, addrs: seq<Addr>) {
    forall a <- addrs, b <- addrs ::
      CodeOf(env, a) != "" && CodeOf(env, b) != "" ==> CodeOf(env, a) == CodeOf(env, b)
  }

  /** A cached code is the code of one of the inspected addresses. */
  ghost predicate CoherentCode(env: Oracle, targets: seq<Addr>, code: string) {
    Uniform(env, targets) && (code != "" ==> exists a <- targets :: CodeOf(env, a) == code)
  }

  ghost predicate Coherent(env: Oracle, isSource: bool, c: Context) {
    CoherentCode(env, Targets(c.facts, c.addresses, isSource), CachedCode(c, isSource))
  }

  /** Which of the two code caches a tree uses. */
  datatype GeoUse = GeoUse(source: bool, destination: bool)

  ghost predicate Ready(env: Oracle, use: GeoUse, c: Context) {
    (use.source ==> Coherent(env, true, c)) && (use.destination ==> Coherent(env, false, c))
  }

  /** No rule set, and GeoIP items only where the use allows. */
  ghost predicate PermittedItem(use: GeoUse, item: Item) {
    !item.RuleSetItem? && (item.GeoIP? ==> if item.isSource then use.source else use.destination)
  }

  ghost predicate PermittedItems(use: GeoUse, items: seq<Item>) {
    forall item <- items :: PermittedItem(use, item)
  }

  ghost predicate Permitted(use: GeoUse, r: Rule)
    decreases r
  {
    match r
    case Default(_, _, items, sa, sp, da, dc, dp) =>
      PermittedItems(use, items) && PermittedItems(use, sa) && PermittedItems(use, sp) &&
      PermittedItems(use, da) && PermittedItems(use, dc) && PermittedItems(use, dp)
    case Logical(_, _, _, rules) => forall sub <- rules :: Permitted(use, sub)
  }

  ghost predicate OnlyCodesChanged(c: Context, c': Context) {
    c' == c.(sourceGeoIPCode := c'.sourceGeoIPCode, geoIPCode := c'.geoIPCode)
  }

  ghost predicate OnlyCacheChanged(c: Context, c': Context) {
    c' == c.(sourceGeoIPCode := c'.sourceGeoIPCode, geoIPCode := c'.geoIPCode, cache := c'.cache)
  }

  /** Without a usable cache the scan is recomputation, and it leaves a coherent code. */
  lemma {:induction false} GeoIPAnyRecomputes(env: Oracle, isSource: bool, codes: set<string>, addrs: seq<Addr>, c: Context)
    ensures var o := GeoIPAny(env, isSource, codes, addrs, c);
            o.ok == GeoIPHolds(env, codes, addrs) &&
            OnlyCodesChanged(c, o.ctx) && CachedCode(o.ctx, !isSource) == CachedCode(c, !isSource) &&
            (CachedCode(o.ctx, isSource) == CachedCode(c, isSource) ||
             exists a <- addrs :: CodeOf(env, a) == CachedCode(o.ctx, isSource))
  {
    if addrs != [] {
      var o := GeoIPOne(env, isSource, codes, addrs[0], c);
      GeoIPAnyRecomputes(env, isSource, codes, addrs[1..], o.ctx);
      assert addrs == [addrs[0]] + addrs[1..];
    }
  }

  /** On a coherent cache a GeoIP item answers as if nothing had been cached. */
  lemma {:induction false} GeoIPCacheIsRecomputation(env: Oracle, isSource: bool, codes: set<string>, c: Context)
    requires Coherent(env, isSource, c)
    ensures var o := EvalGeoIP(env, isSource, codes, c);
            o.ok == GeoIPHolds(env, codes, Targets(c.facts, c.addresses, isSource)) &&
            OnlyCodesChanged(c, o.ctx) && CachedCode(o.ctx, !isSource) == CachedCode(c, !isSource) &&
            Coherent(env, isSource, o.ctx)
  {
    var targets := Targets(c.facts, c.addresses, isSource);
    if CachedCode(c, isSource) != "" {
      var a :| a in targets && CodeOf(env, a) == CachedCode(c, isSource);
    } else {
      GeoIPAnyRecomputes(env, isSource, codes, targets, c);
      if Endpoint(c.facts, isSource).Some? {
        assert targets[1..] == [];
        var one := GeoIPOne(env, isSource, codes, targets[0], c);
        assert GeoIPAny(env, isSource, codes, [], one.ctx) == Outcome(false, one.ctx);
        assert GeoIPAny(env, isSource, codes, targets, c) == one;
      }
    }
  }

  /** With a literal destination or source the empty code cache is coherent. */
  lemma LiteralEndpointIsCoherent(env: Oracle, isSource: bool, c: Context)
    requires Endpoint(c.facts, isSource).Some?
    ensures Coherent(env, isSource, c.(sourceGeoIPCode := "", geoIPCode := ""))
  {
  }

  /** Two GeoIP items in a row, as they share the code cache. */
  ghost predicate SecondItemRecomputes(env: Oracle, isSource: bool, first: set<string>, second: set<string>, c: Context) {
    EvalGeoIP(env, isSource, second, EvalGeoIP(env, isSource, first, c).ctx).ok
      == GeoIPHolds(env, second, Targets(c.facts, c.addresses, isSource))
  }

  /** The code cache is invisible to every pair of items exactly when the inspected
      addresses share one code. */
  lemma {:induction false} CodeCacheInvisibleIffUniform(env: Oracle, isSource: bool, c: Context)
    requires CachedCode(c, isSource) == ""
    ensures Uniform(env, Targets(c.facts, c.addresses, isSource))
       <==> forall first: set<string>, second: set<string> :: SecondItemRecomputes(env, isSource, first, second, c)
  {
    var targets := Targets(c.facts, c.addresses, isSource);
    if Uniform(env, targets) {
      forall first: set<string>, second: set<string>
        ensures SecondItemRecomputes(env, isSource, first, second, c)
      {
        GeoIPCacheIsRecomputation(env, isSource, first, c);
        GeoIPCacheIsRecomputation(env, isSource, second, EvalGeoIP(env, isSource, first, c).ctx);
      }
    } else {
      var a, b :| a in targets && b in targets && CodeOf(env, a) != "" && CodeOf(env, b) != "" &&
                  CodeOf(env, a) != CodeOf(env, b);
      var x, y := CodeOf(env, a), CodeOf(env, b);
      GeoIPAnyRecomputes(env, isSource, {x}, targets, c);
      FirstHitCaches(env, isSource, x, targets, c);
      assert !SecondItemRecomputes(env, isSource, {x}, {y}, c);
    }
  }

  lemma {:induction false} FirstHitCaches(env: Oracle, isSource: bool, code: string, addrs: seq<Addr>, c: Context)
    requires code != "" && exists a <- addrs :: CodeOf(env, a) == code
    ensures CachedCode(GeoIPAny(env, isSource, {code}, addrs, c).ctx, isSource) == code
  {
    var o := GeoIPOne(env, isSource, {code}, addrs[0], c);
    if !o.ok {
      assert addrs == [addrs[0]] + addrs[1..];
      FirstHitCaches(env, isSource, code, addrs[1..], o.ctx);
    }
  }

  // ---- items and groups ----

  lemma {:induction false} EvalItemHolds(env: Oracle, use: GeoUse, item: Item, c: Context)
    requires PermittedItem(use, item) && Ready(env, use, c)
    requires !c.cache.ipcidrMatchSource && !c.cache.ipcidrAcceptEmpty
    ensures var o := EvalItem(env, item, c);
            o.ok == ItemHolds(env, item, c.facts, c.addresses) && OnlyCodesChanged(c, o.ctx) && Ready(env, use, o.ctx)
  {
    match item
    case Plain(_) =>
    case IPCIDR(_, _) =>
    case IPIsPrivate(_) =>
    case GeoIP(isSource, codes) => GeoIPCacheIsRecomputation(env, isSource, codes, c);
  }

  lemma {:induction false} EvalAnyHolds(env: Oracle, use: GeoUse, items: seq<Item>, c: Context)
    requires PermittedItems(use, items) && Ready(env, use, c)
    requires !c.cache.ipcidrMatchSource && !c.cache.ipcidrAcceptEmpty
    ensures var o := EvalAny(env, items, c);
            o.ok == AnyHolds(env, items, c.facts, c.addresses) && OnlyCodesChanged(c, o.ctx) && Ready(env, use, o.ctx)
  {
    hide ItemHolds, CoherentCode;
    if items != [] {
      assert items == [items[0]] + items[1..];
      EvalItemHolds(env, use, items[0], c);
      var o := EvalItem(env, items[0], c);
      if !o.ok { EvalAnyHolds(env, use, items[1..], o.ctx); }
    }
  }

  lemma {:induction false} EvalAllHolds(env: Oracle, use: GeoUse, items: seq<Item>, c: Context)
    requires PermittedItems(use, items) && Ready(env, use, c)
    requires !c.cache.ipcidrMatchSource && !c.cache.ipcidrAcceptEmpty
    ensures var o := EvalAll(env, items, c);
            o.ok == AllHold(env, items, c.facts, c.addresses) && Ready(env, use, o.ctx) &&
            OnlyCodesChanged(if |items| > 0 then SetDidMatch(c) else c, o.ctx)
  {
    hide ItemHolds, CoherentCode;
    if items != [] {
      assert items == [items[0]] + items[1..];
      EvalItemHolds(env, use, items[0], SetDidMatch(c));
      var o := EvalItem(env, items[0], SetDidMatch(c));
      assert PermittedItem(use, items[0]);
      assert EvalAll(env, items, c) == if o.ok then EvalAll(env, items[1..], o.ctx) else o;
      if o.ok {
        EvalAllHolds(env, use, items[1..], o.ctx);
        assert OnlyCodesChanged(SetDidMatch(c), EvalAll(env, items[1..], o.ctx).ctx);
      }
    }
  }

  /** What a stage does to the cache. */
  ghost function StageCache(env: Oracle, slot: Slot, items: seq<Item>, c: Context): Cache {
    if |items| == 0 || Hit(c.cache, slot) then c.cache
    else if AnyHolds(env, items, c.facts, c.addresses) then Mark(c.cache.(didMatch := true), slot)
    else c.cache.(didMatch := true)
  }

  lemma {:induction false} StageHolds(env: Oracle, use: GeoUse, slot: Slot, items: seq<Item>, c: Context)
    requires PermittedItems(use, items) && Ready(env, use, c)
    requires !c.cache.ipcidrMatchSource && !c.cache.ipcidrAcceptEmpty
    ensures var c' := Stage(env, slot, items, c);
            OnlyCodesChanged(c.(cache := StageCache(env, slot, items, c)), c') && Ready(env, use, c')
    ensures |items| == 0 ==> !AnyHolds(env, items, c.facts, c.addresses)
  {
    EvalAnyHolds(env, use, items, SetDidMatch(c));
  }

  /** A cache left over from evaluating the same rule on the same facts: every hit is
      deserved, and a hit implies that something was evaluated. A reset cache is one. */
  ghost predicate Leftover(env: Oracle, r: Rule, c: Context)
    requires r.Default?
  {
    var f, addrs, cache := c.facts, c.addresses, c.cache;
    !cache.ipcidrMatchSource && !cache.ipcidrAcceptEmpty &&
    (cache.sourceAddressMatch ==> AnyHolds(env, r.sourceAddressItems, f, addrs)) &&
    (cache.sourcePortMatch ==> AnyHolds(env, r.sourcePortItems, f, addrs)) &&
    (cache.destinationAddressMatch ==> AnyHolds(env, r.destinationAddressItems, f, addrs)) &&
    (cache.destinationPortMatch ==> AnyHolds(env, r.destinationPortItems, f, addrs)) &&
    HitsNeedEvaluation(cache)
  }

  ghost predicate HitsNeedEvaluation(cache: Cache) {
    (cache.sourceAddressMatch || cache.sourcePortMatch || cache.destinationAddressMatch || cache.destinationPortMatch)
    ==> cache.didMatch
  }

  /** A stage on a deserved slot decides the slot. */
  ghost function Decide(cache: Cache, slot: Slot, any: bool, did: bool): Cache {
    var decided := match slot
      case SourceAddress => cache.(sourceAddressMatch := any)
      case SourcePort => cache.(sourcePortMatch := any)
      case DestinationAddress => cache.(destinationAddressMatch := any)
      case DestinationPort => cache.(destinationPortMatch := any);
    decided.(didMatch := did)
  }

  lemma {:induction false} StageDecides(env: Oracle, use: GeoUse, slot: Slot, items: seq<Item>, c: Context)
    requires PermittedItems(use, items) && Ready(env, use, c)
    requires !c.cache.ipcidrMatchSource && !c.cache.ipcidrAcceptEmpty
    requires Hit(c.cache, slot) ==> AnyHolds(env, items, c.facts, c.addresses) && c.cache.didMatch
    ensures var c' := Stage(env, slot, items, c);
            var any := AnyHolds(env, items, c.facts, c.addresses);
            OnlyCodesChanged(c.(cache := Decide(c.cache, slot, any, c.cache.didMatch || |items| > 0)), c') && Ready(env, use, c')
  {
    hide AnyHolds, Ready, Stage;
    StageHolds(env, use, slot, items, c);
  }

  /** The cache after the two source stages of a default rule. */
  ghost function SourceCache(env: Oracle, r: Rule, c: Context): Cache
    requires r.Default?
  {
    c.cache.(
      sourceAddressMatch := AnyHolds(env, r.sourceAddressItems, c.facts, c.addresses),
      sourcePortMatch := AnyHolds(env, r.sourcePortItems, c.facts, c.addresses),
      didMatch := c.cache.didMatch || |r.sourceAddressItems| > 0 || |r.sourcePortItems| > 0)
  }

  /** The cache after all stages. */
  ghost function StagedCache(env: Oracle, r: Rule, c: Context): Cache
    requires r.Default?
  {
    var f, addrs, ignore := c.facts, c.addresses, c.ignoreDestinationIPCIDRMatch;
    Cache(false, false,
      AnyHolds(env, r.sourceAddressItems, f, addrs), AnyHolds(env, r.sourcePortItems, f, addrs),
      AnyHolds(env, r.destinationAddressItems, f, addrs) || (!ignore && AnyHolds(env, r.destinationIPCIDRItems, f, addrs)),
      AnyHolds(env, r.destinationPortItems, f, addrs),
      c.cache.didMatch || Conditional(r.(items := []), ignore))
  }

  lemma {:induction false} SourceStagesHold(env: Oracle, use: GeoUse, r: Rule, c: Context)
      returns (c2: Context)
    requires r.Default? && Permitted(use, r) && Ready(env, use, c) && Leftover(env, r, c)
    ensures c2 == Stage(env, SourcePort, r.sourcePortItems, Stage(env, SourceAddress, r.sourceAddressItems, c))
    ensures OnlyCodesChanged(c.(cache := SourceCache(env, r, c)), c2) && Ready(env, use, c2)
  {
    hide AnyHolds, Ready, Stage;
    StageDecides(env, use, SourceAddress, r.sourceAddressItems, c);
    var c1 := Stage(env, SourceAddress, r.sourceAddressItems, c);
    StageDecides(env, use, SourcePort, r.sourcePortItems, c1);
    c2 := Stage(env, SourcePort, r.sourcePortItems, c1);
  }

  lemma NoItemsNoneHolds(env: Oracle, items: seq<Item>, f: Facts, addrs: seq<Addr>)
    ensures |items| == 0 ==> !AnyHolds(env, items, f, addrs)
  {
  }

  /** Domain and address items decide one slot between them. */
  lemma {:induction false} DestinationStagesHold(env: Oracle, use: GeoUse, da: seq<Item>, dc: seq<Item>, c: Context)
      returns (c2: Context)
    requires PermittedItems(use, da) && PermittedItems(use, dc) && Ready(env, use, c)
    requires !c.cache.ipcidrMatchSource && !c.cache.ipcidrAcceptEmpty
    requires c.cache.destinationAddressMatch ==> AnyHolds(env, da, c.facts, c.addresses) && c.cache.didMatch
    ensures var ignore := c.ignoreDestinationIPCIDRMatch;
            var c1 := Stage(env, DestinationAddress, da, c);
            c2 == (if c1.ignoreDestinationIPCIDRMatch then c1 else Stage(env, DestinationAddress, dc, c1)) &&
            OnlyCodesChanged(c.(cache := Decide(c.cache, DestinationAddress,
                AnyHolds(env, da, c.facts, c.addresses) || (!ignore && AnyHolds(env, dc, c.facts, c.addresses)),
                c.cache.didMatch || |da| > 0 || (!ignore && |dc| > 0))), c2) &&
            Ready(env, use, c2)
  {
    hide AnyHolds, Ready, Stage;
    StageDecides(env, use, DestinationAddress, da, c);
    NoItemsNoneHolds(env, da, c.facts, c.addresses);
    var c1 := Stage(env, DestinationAddress, da, c);
    c2 := c1;
    if !c1.ignoreDestinationIPCIDRMatch {
      StageHolds(env, use, DestinationAddress, dc, c1);
      c2 := Stage(env, DestinationAddress, dc, c1);
    }
  }

  lemma {:induction false} StagesHold(env: Oracle, use: GeoUse, r: Rule, c: Context)
    requires r.Default? && Permitted(use, r) && Ready(env, use, c) && Leftover(env, r, c)
    ensures var c' := Stages(env, r, c);
            OnlyCodesChanged(c.(cache := StagedCache(env, r, c)), c') && Ready(env, use, c')
  {
    hide AnyHolds, Ready, Stage;
    var c2 := SourceStagesHold(env, use, r, c);
    var c4 := DestinationStagesHold(env, use, r.destinationAddressItems, r.destinationIPCIDRItems, c2);
    StageDecides(env, use, DestinationPort, r.destinationPortItems, c4);
  }

  // ---- rules ----

  /** A default rule evaluated on a left-over cache gives its boolean meaning, and an
      evaluation that ignores address items leaves a left-over cache. */
  lemma {:induction false} EvalBodyHolds(env: Oracle, use: GeoUse, r: Rule, c: Context)
    requires r.Default? && Permitted(use, r) && Ready(env, use, c) && Leftover(env, r, c)
    requires c.cache.didMatch ==> Conditional(r, c.ignoreDestinationIPCIDRMatch)
    ensures var o := EvalBody(env, r, c);
            o.ok == DefaultHolds(env, r, c.ignoreDestinationIPCIDRMatch, c.facts, c.addresses) &&
            OnlyCacheChanged(c, o.ctx) && Ready(env, use, o.ctx) &&
            (c.ignoreDestinationIPCIDRMatch ==> Leftover(env, r, o.ctx))
  {
    hide AnyHolds, Ready, Stages, EvalAll;
    if !NoItems(r) {
      StagesHold(env, use, r, c);
      EvalAllHolds(env, use, r.items, Stages(env, r, c));
      NoItemsNoneHolds(env, r.sourceAddressItems, c.facts, c.addresses);
      NoItemsNoneHolds(env, r.sourcePortItems, c.facts, c.addresses);
      NoItemsNoneHolds(env, r.destinationAddressItems, c.facts, c.addresses);
      NoItemsNoneHolds(env, r.destinationPortItems, c.facts, c.addresses);
    }
  }

  /** The main theorem: from a reset cache the evaluator returns the boolean meaning of
      the tree, and hands on a context in which the same holds again. */
  lemma {:induction false} CachedEvaluatorIsBoolean(env: Oracle, use: GeoUse, limit: bool, r: Rule, c: Context)
    requires Permitted(use, r) && Ready(env, use, c) && c.cache == EMPTY_CACHE
    requires !c.ignoreDestinationIPCIDRMatch && !c.dnsFallback && !c.fakeIPFilter
    ensures var o := EvalRule(env, limit, r, c);
            o.ok == Holds(env, limit, r, c.facts, c.addresses) &&
            OnlyCacheChanged(c, o.ctx) && Ready(env, use, o.ctx)
    decreases r, 1
  {
    match r
    case Default(kind, _, _, _, _, _, _, _) =>
      if kind.DNSRule? && !limit {
        EvalBodyHolds(env, use, r, c.(ignoreDestinationIPCIDRMatch := true));
      } else {
        EvalBodyHolds(env, use, r, c);
      }
    case Logical(_, mode, _, rules) => EvalRulesHold(env, use, limit, mode, rules, c);
  }

  lemma {:induction false} EvalRulesHold(env: Oracle, use: GeoUse, limit: bool, mode: Mode, rules: seq<Rule>, c: Context)
    requires (forall sub <- rules :: Permitted(use, sub)) && Ready(env, use, c)
    requires !c.ignoreDestinationIPCIDRMatch && !c.dnsFallback && !c.fakeIPFilter
    ensures var o := EvalRules(env, limit, mode, rules, c);
            OnlyCacheChanged(c, o.ctx) && Ready(env, use, o.ctx) &&
            (mode.And? ==> o.ok == forall sub <- rules :: Holds(env, limit, sub, c.facts, c.addresses)) &&
            (mode.Or? ==> o.ok == exists sub <- rules :: Holds(env, limit, sub, c.facts, c.addresses))
    decreases rules, 0
  {
    if rules != [] {
      assert rules == [rules[0]] + rules[1..];
      CachedEvaluatorIsBoolean(env, use, limit, rules[0], Reset(c));
      var o := EvalRule(env, limit, rules[0], Reset(c));
      EvalRulesHold(env, use, limit, mode, rules[1..], o.ctx);
    }
  }

  /** A logical rule with a sub-rule returns the same verdict and the same context
      whatever the cache held before; rule sets included. */
  lemma LogicalIgnoresIncomingCache(env: Oracle, limit: bool, r: Rule, c: Context, cache: Cache)
    requires r.Logical? && r.rules != []
    ensures EvalRule(env, limit, r, c).ok == EvalRule(env, limit, r, c.(cache := cache)).ok
    ensures !(r.kind.HeadlessRule? && c.dnsFallback) ==>
              EvalRule(env, limit, r, c) == EvalRule(env, limit, r, c.(cache := cache))
  {
    assert Reset(c) == Reset(c.(cache := cache));
  }
}

/** The meaning of fallback rules, which are matched on the answer of a query in a context
    of their own. */
module DnsFallback {
  import opened Wrappers
  import opened RuleModel
  import opened DnsSearch
  import RuleSemantics
  import RuleSetMerge
  import LazyResolution
  import Blindness
  import DnsRules

  /** In this mode a rule-set rule counts when it is empty or one of its ip_cidr items
      contains an address of the answer; logical rules never count. */
  ghost predicate RuleCovers(r: Rule, addrs: seq<Addr>) {
    r.Default? && (NoItems(r) || exists item <- r.destinationIPCIDRItems :: item.IPCIDR? && AnyIn(item.ipSet, addrs))
  }

  ghost predicate FallbackItemHolds(env: Oracle, item: Item, addrs: seq<Addr>) {
    match item
    case Plain(test) => test(NO_FACTS)
    case IPCIDR(_, ipSet) => AnyIn(ipSet, addrs)
    case IPIsPrivate(_) => exists a <- addrs :: !env.isPublic(a)
    case GeoIP(_, codes) => RuleSemantics.GeoIPHolds(env, codes, addrs)
    case RuleSetItem(_, _, sets) => exists r <- Flatten(sets) :: RuleCovers(r, addrs)
  }

  ghost predicate FallbackHolds(env: Oracle, fb: Fallback, addrs: seq<Addr>) {
    fb.matchAll ||
    ((forall item <- fb.items :: FallbackItemHolds(env, item, addrs)) &&
     (exists item <- fb.destinationAddressItems :: FallbackItemHolds(env, item, addrs))) != fb.invert
  }

  /** The first fallback rule that holds and can be followed decides. */
  ghost function PureChoice(g: Config, fbs: seq<Fallback>, allowFakeIP: bool, addrs: seq<Addr>): Choice {
    if fbs == [] then Keep
    else if FallbackHolds(g.env, fbs[0], addrs) && fbs[0].acceptResult then Keep
    else if FallbackHolds(g.env, fbs[0], addrs) && fbs[0].server == "" then GoOn
    else if FallbackHolds(g.env, fbs[0], addrs) && fbs[0].server in g.transports && Allowed(g.transports[fbs[0].server], allowFakeIP)
    then Ask(g.transports[fbs[0].server])
    else PureChoice(g, fbs[1..], allowFakeIP, addrs)
  }

  /** Items of a fallback rule as its constructor builds them. */
  ghost predicate FallbackItem(geo: bool, item: Item) {
    match item
    case Plain(_) => true
    case IPCIDR(isSource, _) => !isSource
    case IPIsPrivate(isSource) => !isSource
    case GeoIP(isSource, _) => !isSource && geo
    case RuleSetItem(matchSource, acceptEmpty, sets) =>
      !matchSource && !acceptEmpty && forall r <- Flatten(sets) :: LazyResolution.HeadlessGrouped(r)
  }

  ghost predicate FallbackShape(geo: bool, fb: Fallback) {
    (forall item <- fb.items :: FallbackItem(geo, item)) &&
    (forall item <- fb.destinationAddressItems :: FallbackItem(geo, item))
  }

  /** The private context of fallback matching, at any point. */
  ghost predicate InFallback(env: Oracle, geo: bool, addrs: seq<Addr>, c: Context) {
    c.facts == NO_FACTS && c.addresses == addrs && c.dnsFallback && !c.fakeIPFilter &&
    !c.cache.ipcidrMatchSource && !c.cache.ipcidrAcceptEmpty &&
    (geo ==> RuleSemantics.CoherentCode(env, addrs, c.geoIPCode))
  }

  lemma {:induction false} CoversByAny(env: Oracle, geo: bool, items: seq<Item>, addrs: seq<Addr>, c: Context)
    requires InFallback(env, geo, addrs, c) && forall item <- items :: item.IPCIDR? && !item.isSource
    ensures EvalAny(env, items, c) == Outcome(exists item <- items :: item.IPCIDR? && AnyIn(item.ipSet, addrs), c)
  {
    if items != [] {
      assert items == [items[0]] + items[1..];
      assert EvalItem(env, items[0], c) == Outcome(AnyIn(items[0].ipSet, addrs), c);
      CoversByAny(env, geo, items[1..], addrs, c);
    }
  }

  lemma {:induction false} SetCovers(env: Oracle, geo: bool, rules: seq<Rule>, addrs: seq<Addr>, c: Context)
    requires InFallback(env, geo, addrs, c) && forall r <- rules :: LazyResolution.HeadlessGrouped(r)
    ensures EvalSet(env, rules, c) == Outcome(exists r <- rules :: RuleCovers(r, addrs), c)
    decreases rules
  {
    if rules != [] {
      assert rules == [rules[0]] + rules[1..];
      assert LazyResolution.HeadlessGrouped(rules[0]);
      assert EvalRule(env, false, rules[0], c) == Outcome(RuleCovers(rules[0], addrs), c) by {
        if rules[0].Default? && !NoItems(rules[0]) { CoversByAny(env, geo, rules[0].destinationIPCIDRItems, addrs, c); }
      }
      SetCovers(env, geo, rules[1..], addrs, c);
    }
  }

  lemma {:induction false} ItemMeaning(env: Oracle, geo: bool, item: Item, addrs: seq<Addr>, c: Context)
    requires FallbackItem(geo, item) && InFallback(env, geo, addrs, c)
    ensures var o := EvalItem(env, item, c);
            o.ok == FallbackItemHolds(env, item, addrs) && InFallback(env, geo, addrs, o.ctx)
  {
    match item
    case Plain(_) =>
    case IPCIDR(_, _) =>
    case IPIsPrivate(_) =>
    case GeoIP(_, codes) => RuleSemantics.GeoIPCacheIsRecomputation(env, false, codes, c);
    case RuleSetItem(_, _, sets) =>
      assert SetSourceFlags(c, false, false) == c;
      RuleSetMerge.SetsAreOneSet(env, sets, c);
      SetCovers(env, geo, Flatten(sets), addrs, c);
  }

  lemma {:induction false} EachMeaning(env: Oracle, geo: bool, items: seq<Item>, addrs: seq<Addr>, c: Context)
    requires (forall item <- items :: FallbackItem(geo, item)) && InFallback(env, geo, addrs, c)
    ensures var o := EvalEach(env, items, c);
            o.ok == (forall item <- items :: FallbackItemHolds(env, item, addrs)) && InFallback(env, geo, addrs, o.ctx)
  {
    hide InFallback, FallbackItemHolds;
    if items != [] {
      assert items == [items[0]] + items[1..];
      ItemMeaning(env, geo, items[0], addrs, c);
      var o := EvalItem(env, items[0], c);
      if o.ok { EachMeaning(env, geo, items[1..], addrs, o.ctx); }
    }
  }

  lemma {:induction false} SomeMeaning(env: Oracle, geo: bool, items: seq<Item>, addrs: seq<Addr>, c: Context)
    requires (forall item <- items :: FallbackItem(geo, item)) && InFallback(env, geo, addrs, c)
    ensures var o := EvalAny(env, items, c);
            o.ok == (exists item <- items :: FallbackItemHolds(env, item, addrs)) && InFallback(env, geo, addrs, o.ctx)
  {
    hide InFallback, FallbackItemHolds;
    if items != [] {
      assert items == [items[0]] + items[1..];
      ItemMeaning(env, geo, items[0], addrs, c);
      var o := EvalItem(env, items[0], c);
      if !o.ok { SomeMeaning(env, geo, items[1..], addrs, o.ctx); }
    }
  }

  lemma {:induction false} FallbackMeaning(env: Oracle, geo: bool, fb: Fallback, addrs: seq<Addr>, c: Context)
    requires FallbackShape(geo, fb) && InFallback(env, geo, addrs, c)
    ensures var o := EvalFallback(env, fb, c);
            o.ok == FallbackHolds(env, fb, addrs) && InFallback(env, geo, addrs, o.ctx)
  {
    hide InFallback, FallbackItemHolds;
    if !fb.matchAll {
      EachMeaning(env, geo, fb.items, addrs, c);
      var o := EvalEach(env, fb.items, c);
      if o.ok { SomeMeaning(env, geo, fb.destinationAddressItems, addrs, o.ctx); }
    }
  }

  lemma {:induction false} ChoiceMeaning(g: Config, geo: bool, fbs: seq<Fallback>, allowFakeIP: bool, addrs: seq<Addr>, c: Context)
    requires (forall fb <- fbs :: FallbackShape(geo, fb)) && InFallback(g.env, geo, addrs, c)
    ensures ChooseFallback(g, fbs, allowFakeIP, c) == PureChoice(g, fbs, allowFakeIP, addrs)
    decreases fbs
  {
    if fbs != [] {
      assert InFallback(g.env, geo, addrs, Reset(c));
      FallbackMeaning(g.env, geo, fbs[0], addrs, Reset(c));
      ChoiceMeaning(g, geo, fbs[1..], allowFakeIP, addrs, EvalFallback(g.env, fbs[0], Reset(c)).ctx);
    }
  }

  /** Fallback rules decide by their boolean meaning on the answer, provided they use no
      GeoIP or the addresses of the answer share one code. */
  lemma {:induction false} FallbackIsPure(g: Config, fbs: seq<Fallback>, allowFakeIP: bool, addrs: seq<Addr>)
    requires (forall fb <- fbs :: FallbackShape(false, fb)) ||
             (RuleSemantics.Uniform(g.env, addrs) && forall fb <- fbs :: FallbackShape(true, fb))
    ensures ChooseFallback(g, fbs, allowFakeIP, FallbackContext(addrs)) == PureChoice(g, fbs, allowFakeIP, addrs)
  {
    if forall fb <- fbs :: FallbackShape(false, fb) {
      ChoiceMeaning(g, false, fbs, allowFakeIP, addrs, FallbackContext(addrs));
    } else {
      ChoiceMeaning(g, true, fbs, allowFakeIP, addrs, FallbackContext(addrs));
    }
  }

  /** Both checks of a rule without rule sets and destination GeoIP items are its boolean
      meaning, without and with the addresses of the answer. */
  lemma {:induction false} StaticChecksAreMeaning(g: Config, start: Context, j: nat, addrs: seq<Addr>)
    requires j < |g.rules| && Shaped(g, start.facts.source.Some?) && Searchable(start)
    requires RuleSemantics.Permitted(RuleSemantics.GeoUse(start.facts.source.Some?, false), g.rules[j].rule)
    requires Blindness.SourceCodeIn(g.env, start.facts, start.sourceGeoIPCode)
    ensures StaticMatch(g, start, j) == RuleSemantics.Holds(g.env, false, g.rules[j].rule, start.facts, start.addresses)
    ensures StaticVerdict(g, start, j, addrs) == RuleSemantics.Holds(g.env, true, g.rules[j].rule, start.facts, addrs)
  {
    var use := RuleSemantics.GeoUse(start.facts.source.Some?, false);
    var c := Reset(start);
    if start.facts.source.Some? {
      var targets := [start.facts.source.value];
      assert RuleSemantics.Targets(c.facts, c.addresses, true) == targets && targets[0] in targets;
    }
    RuleSemantics.CachedEvaluatorIsBoolean(g.env, use, false, g.rules[j].rule, c);
    DnsRules.SecondCheckIsFresh(g.env, use, g.rules[j].rule, c, addrs);
  }
}

/** The exclude rule of the fake-IP store, which is matched on a domain alone, and the rules of
    rule sets in that mode. */
module FakeIPExclude {
  import opened Wrappers
  import opened RuleModel
  import opened RuleEngine
  import LazyResolution
  import RuleSetMerge

  /** In this mode a default rule counts when it is empty or one of its domain items holds; a
      logical rule combines its sub-rules. */
  ghost predicate FilterHolds(r: Rule, f: Facts)
    decreases r
  {
    match r
    case Default(_, _, _, _, _, da, _, _) => NoItems(r) || exists item <- da :: item.Plain? && item.test(f)
    case Logical(_, And, invert, rules) => (forall sub <- rules :: FilterHolds(sub, f)) != invert
    case Logical(_, Or, invert, rules) => (exists sub <- rules :: FilterHolds(sub, f)) != invert
  }

  ghost predicate ExcludeItemHolds(item: Item, f: Facts) {
    match item
    case Plain(test) => test(f)
    case RuleSetItem(_, _, sets) => exists r <- Flatten(sets) :: FilterHolds(r, f)
    case _ => false
  }

  /** Items of an exclude rule as its constructor builds them. */
  ghost predicate ExcludeItem(item: Item) {
    item.Plain? || (item.RuleSetItem? && !item.matchSource && !item.acceptEmpty && forall r <- Flatten(item.sets) :: LazyResolution.HeadlessGrouped(r))
  }

  ghost predicate Filtering(f: Facts, c: Context) { c.fakeIPFilter && !c.dnsFallback && c.facts == f }

  lemma {:induction false} AnyDomain(env: Oracle, items: seq<Item>, c: Context)
    requires PlainItems(items)
    ensures EvalAny(env, items, c) == Outcome(exists item <- items :: item.Plain? && item.test(c.facts), c)
  {
    if items != [] {
      assert items == [items[0]] + items[1..];
      AnyDomain(env, items[1..], c);
    }
  }

  lemma {:induction false} RuleInFilter(env: Oracle, r: Rule, c: Context)
    requires LazyResolution.HeadlessGrouped(r) && Filtering(c.facts, c)
    ensures var o := EvalRule(env, false, r, c); o.ok == FilterHolds(r, c.facts) && Filtering(c.facts, o.ctx)
    decreases r, 1
  {
    match r
    case Default(_, _, _, _, _, da, _, _) => AnyDomain(env, da, c);
    case Logical(_, mode, _, rules) => RulesInFilter(env, mode, rules, c);
  }

  lemma {:induction false} RulesInFilter(env: Oracle, mode: Mode, rules: seq<Rule>, c: Context)
    requires (forall sub <- rules :: LazyResolution.HeadlessGrouped(sub)) && Filtering(c.facts, c)
    ensures var o := EvalRules(env, false, mode, rules, c);
            Filtering(c.facts, o.ctx) &&
            o.ok == if mode.And? then forall sub <- rules :: FilterHolds(sub, c.facts) else exists sub <- rules :: FilterHolds(sub, c.facts)
    decreases rules, 0
  {
    if rules != [] {
      assert rules == [rules[0]] + rules[1..];
      RuleInFilter(env, rules[0], Reset(c));
      var o := EvalRule(env, false, rules[0], Reset(c));
      hide EvalRule, FilterHolds;
      RulesInFilter(env, mode, rules[1..], o.ctx);
    }
  }

  lemma {:induction false} SetInFilter(env: Oracle, rules: seq<Rule>, c: Context)
    requires (forall r <- rules :: LazyResolution.HeadlessGrouped(r)) && Filtering(c.facts, c)
    ensures var o := EvalSet(env, rules, c);
            o.ok == (exists r <- rules :: FilterHolds(r, c.facts)) && Filtering(c.facts, o.ctx)
    decreases rules
  {
    if rules != [] {
      assert rules == [rules[0]] + rules[1..];
      RuleInFilter(env, rules[0], c);
      var o := EvalRule(env, false, rules[0], c);
      hide EvalRule, FilterHolds;
      if !o.ok { SetInFilter(env, rules[1..], o.ctx); }
    }
  }

  lemma {:induction false} ItemsInFilter(env: Oracle, items: seq<Item>, c: Context)
    requires (forall item <- items :: ExcludeItem(item)) && Filtering(c.facts, c)
    ensures EvalAny(env, items, c).ok == exists item <- items :: ExcludeItemHolds(item, c.facts)
    decreases items
  {
    if items != [] {
      assert items == [items[0]] + items[1..];
      var item, o := items[0], EvalItem(env, items[0], c);
      assert ExcludeItem(item);
      if item.RuleSetItem? {
        var d := SetSourceFlags(c, false, false);
        RuleSetMerge.SetsAreOneSet(env, item.sets, d);
        SetInFilter(env, Flatten(item.sets), d);
      }
      assert o.ok == ExcludeItemHolds(item, c.facts) && Filtering(c.facts, o.ctx);
      hide EvalItem, ExcludeItemHolds;
      if !o.ok { ItemsInFilter(env, items[1..], o.ctx); }
    }
  }

  /** The facts of a query for a domain. */
  function DomainFacts(domain: string): Facts { Facts("", 0, "", None, 0, NoDestination, 0, "", "", "", "", "", "", domain, "", 0) }

  /** A domain is excluded from fake addresses exactly when one of the rule's own domain items
      holds or a rule of one of its sets does, by domain items alone. */
  method MatchExclude(env: Oracle, items: seq<Item>, domain: string) returns (excluded: bool)
    requires forall item <- items :: ExcludeItem(item)
    ensures excluded <==> exists item <- items :: ExcludeItemHolds(item, DomainFacts(domain))
  {
    var m := new InboundContext(DomainFacts(domain), false, true);
    ItemsInFilter(env, items, m.Value());
    excluded := m.MatchAny(env, items);
  }
}

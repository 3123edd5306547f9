/** Route matching with on-demand resolution of the destination domain, and the theorem
    that it picks what matching with the domain resolved up front would pick. */
module LazyResolution {
  import opened Wrappers
  import opened RuleModel
  import opened RuleEngine
  import opened Blindness
  import Frames
  import RuleSemantics

  // ---- the static analysis ----

  /** ContainsDestinationIPCIDRRule */
  function ContainsIPCIDR(r: Rule): bool
    decreases r
  {
    match r
    case Default(_, _, items, _, _, _, dc, _) =>
      |dc| > 0 ||
      exists i | 0 <= i < |items| ::
        items[i].RuleSetItem? && !items[i].matchSource &&
        exists j | 0 <= j < |items[i].sets| :: items[i].sets[j].containsIPCIDRRule
    case Logical(_, _, _, rules) => exists i | 0 <= i < |rules| :: ContainsIPCIDR(rules[i])
  }

  // ---- where the constructors put which item ----

  ghost predicate SourceItem(item: Item) {
    match item
    case IPCIDR(isSource, _) => isSource
    case IPIsPrivate(isSource) => isSource
    case GeoIP(isSource, _) => isSource
    case _ => false
  }

  ghost predicate DestinationItem(item: Item) {
    match item
    case IPCIDR(isSource, _) => !isSource
    case IPIsPrivate(isSource) => !isSource
    case GeoIP(isSource, _) => !isSource
    case _ => false
  }

  /** Items of a rule inside a rule set: source_ip_cidr and ip_cidr are its only address items. */
  ghost predicate HeadlessGrouped(r: Rule)
    decreases r
  {
    r.kind.HeadlessRule? &&
    match r
    case Default(_, _, items, sa, sp, da, dc, dp) =>
      PlainItems(items) && PlainItems(sp) && PlainItems(da) && PlainItems(dp) &&
      (forall item <- sa :: item.IPCIDR? && item.isSource) &&
      (forall item <- dc :: item.IPCIDR? && !item.isSource)
    case Logical(_, _, _, rules) => forall sub <- rules :: HeadlessGrouped(sub)
  }

  /** The metadata of a rule set does not miss an address rule. */
  ghost predicate MetadataCovers(s: RuleSet) {
    forall r <- s.rules :: HeadlessGrouped(r) && (ContainsIPCIDR(r) ==> s.containsIPCIDRRule)
  }

  /** No ip_cidr at or after the first logical rule of the list. */
  ghost predicate NoCIDRFromLogical(rules: seq<Rule>, seen: bool)
    decreases rules
  {
    rules == [] ||
    ((seen || rules[0].Logical? ==> !ContainsIPCIDR(rules[0])) &&
     NoCIDRFromLogical(rules[1..], seen || rules[0].Logical?))
  }

  ghost predicate GroupedItem(item: Item) {
    item.Plain? ||
    (item.RuleSetItem? && (forall s <- item.sets :: MetadataCovers(s)) &&
     (item.matchSource ==> NoCIDRFromLogical(Flatten(item.sets), false)))
  }

  /** A route or DNS rule as its constructor builds it. When the source address may be
      invalid, source GeoIP items are excluded; match-source rule sets must not hold
      ip_cidr at or after a logical rule. */
  ghost predicate Grouped(sourceKnown: bool, r: Rule)
    decreases r
  {
    match r
    case Default(_, _, items, sa, sp, da, dc, dp) =>
      PlainItems(sp) && PlainItems(da) && PlainItems(dp) &&
      (forall item <- items :: GroupedItem(item)) &&
      (forall item <- sa :: SourceItem(item) && (item.GeoIP? ==> sourceKnown)) &&
      (forall item <- dc :: DestinationItem(item))
    case Logical(_, _, _, rules) => forall sub <- rules :: Grouped(sourceKnown, sub)
  }

  // ---- the analysis is sound ----

  lemma {:induction false} HeadlessIsBlind(v: View, r: Rule)
    requires HeadlessGrouped(r)
    requires ContainsIPCIDR(r) ==> v.matchSource && r.Default?
    ensures HeadlessShape(r) && BlindRule(v, false, r)
    decreases r
  {
    match r
    case Default(_, _, items, _, _, _, _, _) =>
    case Logical(_, _, _, rules) =>
      forall sub | sub in rules ensures HeadlessShape(sub) && BlindRule(v.(matchSource := false), false, sub) {
        var i :| 0 <= i < |rules| && rules[i] == sub;
        HeadlessIsBlind(v.(matchSource := false), sub);
      }
  }

  lemma {:induction false} RulesBlindHere(v: View, rules: seq<Rule>)
    requires forall r <- rules :: HeadlessGrouped(r)
    requires NoCIDRFromLogical(rules, !v.matchSource)
    ensures BlindRules(v, rules)
    decreases rules
  {
    if rules != [] {
      HeadlessIsBlind(v, rules[0]);
      RulesBlindHere(if rules[0].Default? then v else v.(matchSource := false), rules[1..]);
    }
  }

  lemma {:induction false} NoCIDRSplit(xs: seq<Rule>, ys: seq<Rule>, v: View)
    requires NoCIDRFromLogical(xs + ys, !v.matchSource)
    ensures NoCIDRFromLogical(xs, !v.matchSource)
    ensures NoCIDRFromLogical(ys, !AfterRules(v, xs).matchSource)
    decreases xs
  {
    if xs == [] {
      assert xs + ys == ys;
    } else {
      assert (xs + ys)[1..] == xs[1..] + ys;
      NoCIDRSplit(xs[1..], ys, if xs[0].Default? then v else v.(matchSource := false));
    }
  }

  lemma {:induction false} SetsBlindHere(v: View, sets: seq<RuleSet>)
    requires forall s <- sets :: MetadataCovers(s)
    requires NoCIDRFromLogical(Flatten(sets), !v.matchSource)
    ensures BlindSets(v, sets)
    decreases sets
  {
    if sets != [] {
      NoCIDRSplit(sets[0].rules, Flatten(sets[1..]), v);
      assert MetadataCovers(sets[0]);
      RulesBlindHere(v, sets[0].rules);
      SetsBlindHere(AfterRules(v, sets[0].rules), sets[1..]);
    }
  }

  lemma {:induction false} NoCIDRAnywhere(rules: seq<Rule>, seen: bool)
    requires forall r <- rules :: !ContainsIPCIDR(r)
    ensures NoCIDRFromLogical(rules, seen)
    decreases rules
  {
    if rules != [] { NoCIDRAnywhere(rules[1..], seen || rules[0].Logical?); }
  }

  lemma {:induction false} UncoveredSetsHaveNoCIDR(sets: seq<RuleSet>)
    requires forall s <- sets :: MetadataCovers(s) && !s.containsIPCIDRRule
    ensures forall r <- Flatten(sets) :: !ContainsIPCIDR(r)
  {
    if sets != [] { UncoveredSetsHaveNoCIDR(sets[1..]); }
  }

  lemma {:induction false} ItemBlindHere(v: View, item: Item)
    requires !v.matchSource && GroupedItem(item)
    requires item.RuleSetItem? && !item.matchSource ==> forall s <- item.sets :: !s.containsIPCIDRRule
    ensures BlindItem(v, item)
  {
    if item.RuleSetItem? {
      var w := v.(matchSource := item.matchSource);
      if !item.matchSource {
        UncoveredSetsHaveNoCIDR(item.sets);
        NoCIDRAnywhere(Flatten(item.sets), true);
      }
      SetsBlindHere(w, item.sets);
    }
  }

  /** A rule without destination address items, by the router's own analysis, is blind to
      the resolved addresses. */
  lemma {:induction false} AnalysisIsSound(v: View, r: Rule)
    requires !v.matchSource && Grouped(v.sourceKnown, r) && !ContainsIPCIDR(r)
    ensures BlindRule(v, false, r)
    decreases r
  {
    match r
    case Default(kind, _, items, sa, sp, da, dc, dp) =>
      var w := v.(ignore := v.ignore || kind.DNSRule?);
      forall item | item in items ensures BlindItem(w, item) {
        var i :| 0 <= i < |items| && items[i] == item;
        ItemBlindHere(w, item);
      }
      assert BlindItems(v, sa) && BlindItems(v, sp) && BlindItems(v, da) && BlindItems(v, dp);
    case Logical(_, _, _, rules) =>
      forall sub | sub in rules ensures BlindRule(v.(matchSource := false), false, sub) {
        var i :| 0 <= i < |rules| && rules[i] == sub;
        AnalysisIsSound(v, sub);
      }
  }

  // ---- matching ----

  type Outbound = string

  datatype RoutingRule = RoutingRule(rule: Rule, disabled: bool, skipResolve: bool, outbound: string)

  datatype Resolution = NotNeeded | Pending | Resolved | Failed

  /** The decision, the state of resolution and the context at its end. */
  datatype Decision = Decision(index: Option<nat>, outbound: Outbound, resolution: Resolution, ctx: Context)

  datatype Router = Router(env: Oracle, rules: seq<RoutingRule>, outbounds: map<string, Outbound>, fallback: Outbound)

  function StartResolution(c: Context): Resolution {
    if c.facts.destination.FqdnDestination? && |c.addresses| == 0 then Pending else NotNeeded
  }

  /** The context a rule is matched in: reset, and resolved if the rule asks for it. */
  function Prepare(rule: RoutingRule, lookup: Option<seq<Addr>>, s: Resolution, c: Context): (Resolution, Context) {
    if !rule.skipResolve && s.Pending? && ContainsIPCIDR(rule.rule) then
      match lookup
      case Some(addrs) => (Resolved, Reset(c).(addresses := addrs))
      case None => (Failed, Reset(c))
    else (s, Reset(c))
  }

  function LazyFrom(t: Router, lookup: Option<seq<Addr>>, i: nat, s: Resolution, c: Context): Decision
    requires i <= |t.rules|
    decreases |t.rules| - i
  {
    if i == |t.rules| then Decision(None, t.fallback, s, c)
    else if t.rules[i].disabled then LazyFrom(t, lookup, i + 1, s, c)
    else
      var (s', c') := Prepare(t.rules[i], lookup, s, c);
      var o := EvalRule(t.env, false, t.rules[i].rule, c');
      if o.ok && t.rules[i].outbound in t.outbounds
      then Decision(Some(i), t.outbounds[t.rules[i].outbound], s', o.ctx)
      else LazyFrom(t, lookup, i + 1, s', o.ctx)
  }

  /** Matching without any resolution on the way. */
  function PlainFrom(t: Router, i: nat, c: Context): (Option<nat>, Outbound)
    requires i <= |t.rules|
    decreases |t.rules| - i
  {
    if i == |t.rules| then (None, t.fallback)
    else if t.rules[i].disabled then PlainFrom(t, i + 1, c)
    else
      var o := EvalRule(t.env, false, t.rules[i].rule, Reset(c));
      if o.ok && t.rules[i].outbound in t.outbounds
      then (Some(i), t.outbounds[t.rules[i].outbound])
      else PlainFrom(t, i + 1, o.ctx)
  }

  /** Matching with the domain resolved before the first rule. */
  function Eager(t: Router, lookup: Option<seq<Addr>>, c: Context): (Option<nat>, Outbound) {
    if StartResolution(c).Pending? && lookup.Some? then PlainFrom(t, 0, c.(addresses := lookup.value))
    else PlainFrom(t, 0, c)
  }

  /** An enabled rule that looks at addresses and does not skip resolution. */
  ghost predicate Asks(r: RoutingRule) { !r.disabled && !r.skipResolve && ContainsIPCIDR(r.rule) }

  /** Such a rule is among those tried: up to the one that matched, or all. */
  ghost predicate Asked(rules: seq<RoutingRule>, index: Option<nat>) { AskedFrom(rules, 0, index) }

  ghost predicate AskedFrom(rules: seq<RoutingRule>, i: nat, index: Option<nat>) {
    exists k | i <= k < |rules| && (index.Some? ==> k <= index.value) :: Asks(rules[k])
  }

  /** When the domain is looked up, and the addresses at the end of matching. */
  lemma {:induction false} LookupTold(t: Router, lookup: Option<seq<Addr>>, i: nat, s: Resolution, c: Context)
    requires i <= |t.rules|
    ensures var d := LazyFrom(t, lookup, i, s, c);
            (d.index.Some? ==> i <= d.index.value < |t.rules|) &&
            d.resolution == (if s.Pending? && AskedFrom(t.rules, i, d.index) then (if lookup.Some? then Resolved else Failed) else s) &&
            d.ctx.addresses == (if s.Pending? && d.resolution.Resolved? then lookup.value else c.addresses)
    decreases |t.rules| - i
  {
    hide EvalRule, ContainsIPCIDR;
    if i < |t.rules| {
      var d := LazyFrom(t, lookup, i, s, c);
      if t.rules[i].disabled {
        LookupTold(t, lookup, i + 1, s, c);
      } else {
        var (s', c') := Prepare(t.rules[i], lookup, s, c);
        Frames.RuleKeeps(t.env, false, t.rules[i].rule, c');
        LookupTold(t, lookup, i + 1, s', EvalRule(t.env, false, t.rules[i].rule, c').ctx);
      }
      assert AskedFrom(t.rules, i, d.index) <==> Asks(t.rules[i]) || AskedFrom(t.rules, i + 1, d.index);
    }
  }

  /** Clears the rule cache and, when the rule looks at addresses that are not known yet,
      resolves the domain. */
  method ResolveIfNeeded(rule: RoutingRule, m: InboundContext, lookup: Option<seq<Addr>>, status: Resolution) returns (next: Resolution)
    modifies m
    ensures (next, m.Value()) == Prepare(rule, lookup, status, old(m.Value()))
    ensures next != status ==> status.Pending? && (next.Resolved? || next.Failed?)
  {
    hide ContainsIPCIDR;
    m.ResetRuleCache();
    next := status;
    if !rule.skipResolve && status.Pending? && ContainsIPCIDR(rule.rule) {
      next := Failed;
      if lookup.Some? {
        next := Resolved;
        m.destinationAddresses := lookup.value;
      }
      m.ResetRuleCache();
    }
  }

  /** The loop over the rules. */
  method MatchRules(t: Router, m: InboundContext, lookup: Option<seq<Addr>>)
      returns (index: Option<nat>, outbound: Outbound, status: Resolution, lookups: nat)
    modifies m
    ensures Decision(index, outbound, status, m.Value()) == LazyFrom(t, lookup, 0, StartResolution(old(m.Value())), old(m.Value()))
    ensures lookups == (if status.Resolved? || status.Failed? then 1 else 0)
  {
    hide EvalRule, Prepare;
    status := StartResolution(m.Value());
    lookups, index, outbound := 0, None, t.fallback;
    ghost var d := LazyFrom(t, lookup, 0, status, m.Value());
    var i := 0;
    while i < |t.rules|
      invariant 0 <= i <= |t.rules|
      invariant index == None && outbound == t.fallback
      invariant LazyFrom(t, lookup, i, status, m.Value()) == d
      invariant lookups == (if status.Resolved? || status.Failed? then 1 else 0)
    {
      var rule := t.rules[i];
      if !rule.disabled {
        var before := status;
        status := ResolveIfNeeded(rule, m, lookup, status);
        if status != before { lookups := lookups + 1; }
        var ok := m.Match(t.env, false, rule.rule);
        if ok && rule.outbound in t.outbounds {
          index, outbound := Some(i), t.outbounds[rule.outbound];
          break;
        }
      }
      i := i + 1;
    }
  }

  /** Matching with its deferred clean-up. The domain is looked up, once, exactly when it is
      unknown and a rule that asks for addresses is tried; addresses found on the way stay
      exactly when the outbound needs them. */
  method Match0(t: Router, m: InboundContext, lookup: Option<seq<Addr>>, useIP: Outbound -> bool)
      returns (index: Option<nat>, outbound: Outbound, lookups: nat)
    modifies m
    ensures var d := LazyFrom(t, lookup, 0, StartResolution(old(m.Value())), old(m.Value()));
            index == d.index && outbound == d.outbound && m.Value() == d.ctx.(addresses := m.destinationAddresses)
    ensures lookups == if old(m.facts.destination.FqdnDestination? && |m.destinationAddresses| == 0) && Asked(t.rules, index) then 1 else 0
    ensures m.destinationAddresses ==
              if lookups == 0 || lookup.None? then old(m.destinationAddresses)
              else if useIP(outbound) then lookup.value else []
  {
    hide LazyFrom;
    LookupTold(t, lookup, 0, StartResolution(m.Value()), m.Value());
    var status: Resolution;
    index, outbound, status, lookups := MatchRules(t, m, lookup);
    if status.Resolved? && !useIP(outbound) {
      m.destinationAddresses := [];
    }
  }

  // ---- lazy equals eager ----

  /** The first enabled rule with address items does not skip resolution. */
  ghost predicate ResolvesFirst(rules: seq<RoutingRule>)
    decreases rules
  {
    rules == [] ||
    if rules[0].disabled then ResolvesFirst(rules[1..])
    else if ContainsIPCIDR(rules[0].rule) then !rules[0].skipResolve
    else ResolvesFirst(rules[1..])
  }

  ghost predicate Configured(sourceKnown: bool, rules: seq<RoutingRule>) {
    forall i | 0 <= i < |rules| :: rules[i].rule.kind.RouteRule? && Grouped(sourceKnown, rules[i].rule)
  }

  ghost predicate Ordinary(c: Context) {
    !c.ignoreDestinationIPCIDRMatch && !c.dnsFallback && !c.fakeIPFilter
  }

  lemma {:induction false} SettledIsPlain(t: Router, lookup: Option<seq<Addr>>, i: nat, s: Resolution, c: Context)
    requires i <= |t.rules| && !s.Pending?
    ensures var d := LazyFrom(t, lookup, i, s, c);
            (d.index, d.outbound) == PlainFrom(t, i, c) && d.resolution == s
    decreases |t.rules| - i
  {
    if i < |t.rules| {
      if t.rules[i].disabled {
        SettledIsPlain(t, lookup, i + 1, s, c);
      } else {
        SettledIsPlain(t, lookup, i + 1, s, EvalRule(t.env, false, t.rules[i].rule, Reset(c)).ctx);
      }
    }
  }

  lemma {:induction false} PendingIsPlain(t: Router, addrs: seq<Addr>, i: nat, c: Context)
    requires i <= |t.rules| && ResolvesFirst(t.rules[i..])
    requires Configured(c.facts.source.Some?, t.rules) && Ordinary(c)
    ensures var d := LazyFrom(t, Some(addrs), i, Pending, c);
            (d.index, d.outbound) == PlainFrom(t, i, c.(addresses := addrs))
    decreases |t.rules| - i
  {
    if i < |t.rules| {
      assert t.rules[i..][1..] == t.rules[i + 1..];
      var rule := t.rules[i];
      if rule.disabled {
        PendingIsPlain(t, addrs, i + 1, c);
      } else if ContainsIPCIDR(rule.rule) {
        var o := EvalRule(t.env, false, rule.rule, Reset(c).(addresses := addrs));
        assert Reset(c).(addresses := addrs) == Reset(c.(addresses := addrs));
        SettledIsPlain(t, Some(addrs), i + 1, Resolved, o.ctx);
      } else {
        var v := View(false, false, c.facts.source.Some?, Shared(false, false));
        AnalysisIsSound(v, rule.rule);
        var c0, d0 := Reset(c), Reset(c.(addresses := addrs));
        RuleIsBlind(t.env, v, false, rule.rule, c0, d0);
        var p, q := EvalRule(t.env, false, rule.rule, c0), EvalRule(t.env, false, rule.rule, d0);
        assert q.ctx == p.ctx.(addresses := addrs);
        PendingIsPlain(t, addrs, i + 1, p.ctx);
      }
    }
  }

  /** Lazy resolution picks the same rule and the same outbound as resolving the domain
      before the first rule, whatever the lookup returns. */
  lemma {:induction false} LazyIsEager(t: Router, lookup: Option<seq<Addr>>, c: Context)
    requires Configured(c.facts.source.Some?, t.rules) && ResolvesFirst(t.rules) && Ordinary(c)
    ensures var d := LazyFrom(t, lookup, 0, StartResolution(c), c);
            (d.index, d.outbound) == Eager(t, lookup, c)
  {
    assert t.rules[0..] == t.rules;
    if StartResolution(c).Pending? && lookup.Some? {
      PendingIsPlain(t, lookup.value, 0, c);
    } else if StartResolution(c).Pending? {
      FailedIsPlain(t, 0, c);
    } else {
      SettledIsPlain(t, lookup, 0, NotNeeded, c);
    }
  }

  /** Rule k is enabled, holds and has a known outbound. */
  ghost predicate Chooses(t: Router, f: Facts, addrs: seq<Addr>, k: nat) {
    k < |t.rules| && !t.rules[k].disabled && RuleSemantics.Holds(t.env, false, t.rules[k].rule, f, addrs) && t.rules[k].outbound in t.outbounds
  }

  /** The decision is the first rule from i on that chooses, or the default outbound. */
  ghost predicate FirstChoice(t: Router, f: Facts, addrs: seq<Addr>, i: nat, index: Option<nat>, outbound: Outbound) {
    match index
    case Some(k) => i <= k && Chooses(t, f, addrs, k) && outbound == t.outbounds[t.rules[k].outbound] && forall j: nat | i <= j < k :: !Chooses(t, f, addrs, j)
    case None => outbound == t.fallback && forall j: nat | i <= j :: !Chooses(t, f, addrs, j)
  }

  /** Rules without rule sets, on coherent code caches, are decided by their meaning. */
  lemma {:induction false} PlainIsFirstChoice(t: Router, use: RuleSemantics.GeoUse, i: nat, c: Context)
    requires i <= |t.rules| && Ordinary(c) && RuleSemantics.Ready(t.env, use, c)
    requires forall k | 0 <= k < |t.rules| :: RuleSemantics.Permitted(use, t.rules[k].rule)
    ensures var (index, outbound) := PlainFrom(t, i, c); FirstChoice(t, c.facts, c.addresses, i, index, outbound)
    decreases |t.rules| - i
  {
    hide EvalRule, RuleSemantics.Holds, RuleSemantics.Permitted;
    if i < |t.rules| {
      assert Chooses(t, c.facts, c.addresses, i) ==> !t.rules[i].disabled;
      if t.rules[i].disabled {
        PlainIsFirstChoice(t, use, i + 1, c);
      } else {
        RuleSemantics.CachedEvaluatorIsBoolean(t.env, use, false, t.rules[i].rule, Reset(c));
        var o := EvalRule(t.env, false, t.rules[i].rule, Reset(c));
        PlainIsFirstChoice(t, use, i + 1, o.ctx);
      }
    }
  }

  /** Lazy matching decides by the meaning of the rules on the addresses of the domain. */
  lemma {:induction false} LazyIsFirstChoice(t: Router, use: RuleSemantics.GeoUse, lookup: Option<seq<Addr>>, c: Context)
    requires Configured(c.facts.source.Some?, t.rules) && ResolvesFirst(t.rules) && Ordinary(c)
    requires forall k | 0 <= k < |t.rules| :: RuleSemantics.Permitted(use, t.rules[k].rule)
    requires var known := if StartResolution(c).Pending? && lookup.Some? then c.(addresses := lookup.value) else c;
             RuleSemantics.Ready(t.env, use, known)
    ensures var d := LazyFrom(t, lookup, 0, StartResolution(c), c);
            var unknown := c.facts.destination.FqdnDestination? && c.addresses == [];
            FirstChoice(t, c.facts, if unknown && lookup.Some? then lookup.value else c.addresses, 0, d.index, d.outbound)
  {
    hide EvalRule, RuleSemantics.Holds, RuleSemantics.Permitted, Configured, ResolvesFirst, RuleSemantics.Ready;
    LazyIsEager(t, lookup, c);
    PlainIsFirstChoice(t, use, 0, if StartResolution(c).Pending? && lookup.Some? then c.(addresses := lookup.value) else c);
  }

  lemma {:induction false} FailedIsPlain(t: Router, i: nat, c: Context)
    requires i <= |t.rules|
    ensures var d := LazyFrom(t, None, i, Pending, c);
            (d.index, d.outbound) == PlainFrom(t, i, c)
    decreases |t.rules| - i
  {
    if i < |t.rules| {
      if t.rules[i].disabled {
        FailedIsPlain(t, i + 1, c);
      } else {
        var o := EvalRule(t.env, false, t.rules[i].rule, Reset(c));
        SettledIsPlain(t, None, i + 1, Failed, o.ctx);
        FailedIsPlain(t, i + 1, o.ctx);
      }
    }
  }

  // ---- each condition is needed ----

  function One(rule: Rule, skipResolve: bool, lookup: Addr -> string): Router {
    Router(Oracle(_ => true, lookup), [RoutingRule(rule, false, skipResolve, "proxy")],
           map["proxy" := "proxy"], "direct")
  }

  /** The lazy and the eager decision for a single rule. */
  ghost predicate Disagrees(t: Router, lookup: Option<seq<Addr>>, c: Context) {
    var d := LazyFrom(t, lookup, 0, StartResolution(c), c);
    (d.index, d.outbound) == (None, t.fallback) && Eager(t, lookup, c) == (Some(0), "proxy")
  }

  lemma {:induction false} SingleRuleDisagrees(t: Router, addrs: seq<Addr>, c: Context)
    requires |t.rules| == 1 && !t.rules[0].disabled && t.outbounds == map["proxy" := "proxy"] && t.rules[0].outbound == "proxy"
    requires StartResolution(c).Pending? && Prepare(t.rules[0], Some(addrs), Pending, c) == (Pending, Reset(c))
    requires !EvalRule(t.env, false, t.rules[0].rule, Reset(c)).ok
    requires EvalRule(t.env, false, t.rules[0].rule, Reset(c.(addresses := addrs))).ok
    ensures Disagrees(t, Some(addrs), c)
  {
    var o := EvalRule(t.env, false, t.rules[0].rule, Reset(c));
    assert LazyFrom(t, Some(addrs), 1, Pending, o.ctx) == Decision(None, t.fallback, Pending, o.ctx);
  }

  function CIDRRule(kind: Kind, ipSet: set<Addr>): Rule {
    Default(kind, false, [], [], [], [], [IPCIDR(false, ipSet)], [])
  }

  lemma {:induction false} CIDRRuleVerdict(env: Oracle, kind: Kind, ipSet: set<Addr>, c: Context)
    requires !kind.DNSRule? && c.cache == EMPTY_CACHE && Ordinary(c)
    ensures EvalRule(env, false, CIDRRule(kind, ipSet), c).ok == MatchIPCIDR(false, ipSet, c)
  {
    var r := CIDRRule(kind, ipSet);
    RuleSemantics.CachedEvaluatorIsBoolean(env, RuleSemantics.GeoUse(false, false), false, r, c);
    assert r.destinationIPCIDRItems[0] in r.destinationIPCIDRItems;
  }

  /** A rule that skips resolution hides its addresses. */
  lemma {:induction false} SkipResolveBreaksLaziness(ipSet: set<Addr>, a: Addr, c: Context)
    requires a in ipSet && StartResolution(c).Pending? && Ordinary(c)
    ensures Disagrees(One(CIDRRule(RouteRule, ipSet), true, _ => ""), Some([a]), c)
  {
    var t := One(CIDRRule(RouteRule, ipSet), true, _ => "");
    CIDRRuleVerdict(t.env, RouteRule, ipSet, Reset(c));
    CIDRRuleVerdict(t.env, RouteRule, ipSet, Reset(c.(addresses := [a])));
    SingleRuleDisagrees(t, [a], c);
  }

  /** A source GeoIP item with an invalid source reads the destination addresses, which
      the analysis does not count. */
  lemma {:induction false} InvalidSourceBreaksLaziness(code: string, a: Addr, c: Context)
    requires code != "" && c.facts.source.None? && c.sourceGeoIPCode == ""
    requires StartResolution(c).Pending? && Ordinary(c)
    ensures Disagrees(One(Default(RouteRule, false, [], [GeoIP(true, {code})], [], [], [], []), false, _ => code), Some([a]), c)
  {
    var r := Default(RouteRule, false, [], [GeoIP(true, {code})], [], [], [], []);
    var t := One(r, false, _ => code);
    var c0, d0 := Reset(c), Reset(c.(addresses := [a]));
    assert r.sourceAddressItems[0] in r.sourceAddressItems && d0.addresses[0] == a;
    assert CodeOf(t.env, a) == code && RuleSemantics.ItemHolds(t.env, r.sourceAddressItems[0], d0.facts, d0.addresses);
    RuleSemantics.CachedEvaluatorIsBoolean(t.env, RuleSemantics.GeoUse(true, false), false, r, c0);
    RuleSemantics.CachedEvaluatorIsBoolean(t.env, RuleSemantics.GeoUse(true, false), false, r, d0);
    SingleRuleDisagrees(t, [a], c);
  }

  function LeakySet(ipSet: set<Addr>): Rule {
    Default(RouteRule, false,
            [RuleSetItem(true, false, [RuleSet([Logical(HeadlessRule, Or, false, [CIDRRule(HeadlessRule, ipSet)])], true)])],
            [], [], [], [], [])
  }

  /** A logical rule in a match-source set forgets the match-source flag, while the
      analysis takes the whole item for a source condition. */
  lemma {:induction false} MatchSourceLogicalBreaksLaziness(ipSet: set<Addr>, a: Addr, c: Context)
    requires a in ipSet && StartResolution(c).Pending? && Ordinary(c)
    ensures Disagrees(One(LeakySet(ipSet), false, _ => ""), Some([a]), c)
  {
    var t := One(LeakySet(ipSet), false, _ => "");
    LeakySetVerdict(t.env, ipSet, Reset(c));
    LeakySetVerdict(t.env, ipSet, Reset(c.(addresses := [a])));
    SingleRuleDisagrees(t, [a], c);
  }

  lemma {:induction false} LeakySetVerdict(env: Oracle, ipSet: set<Addr>, c: Context)
    requires c.cache == EMPTY_CACHE && Ordinary(c)
    ensures EvalRule(env, false, LeakySet(ipSet), c).ok == MatchIPCIDR(false, ipSet, c)
  {
    var r := LeakySet(ipSet);
    var sets := r.items[0].sets;
    var inner := sets[0].rules[0].rules[0];
    var c1 := SetSourceFlags(c, true, false);
    CIDRRuleVerdict(env, HeadlessRule, ipSet, Reset(c1));
    assert Reset(c1) == c;
    var o := EvalRule(env, false, inner, c);
    assert EvalRules(env, false, Or, sets[0].rules[0].rules[1..], o.ctx) == Outcome(false, o.ctx);
    assert EvalRules(env, false, Or, sets[0].rules[0].rules, c1) == o;
    assert EvalSet(env, sets[0].rules[1..], o.ctx) == Outcome(false, o.ctx);
    assert EvalSet(env, sets[0].rules, c1) == o;
    assert EvalSets(env, sets[1..], o.ctx) == Outcome(false, o.ctx);
    assert EvalSets(env, sets, c1) == o;
    assert EvalItem(env, r.items[0], c) == o;
    assert Stages(env, r, c) == c;
    assert EvalAll(env, r.items[1..], o.ctx) == Outcome(true, o.ctx);
    assert EvalAll(env, r.items, c) == o;
  }
}

/** What a rule set means when its rules share one match cache. */
module RuleSetMerge {
  import opened RuleModel
  import RuleSemantics

  /** Items whose verdict leaves the context alone. */
  ghost predicate PureItem(item: Item) { item.Plain? || item.IPCIDR? || item.IPIsPrivate? }

  ghost predicate PureItems(items: seq<Item>) { forall item <- items :: PureItem(item) }

  /** What an address condition says: ofSource asks for the source, otherwise some destination
      address must be in the set; with none at all, acceptEmpty decides. */
  ghost predicate AddressHolds(ipSet: set<Addr>, ofSource: bool, acceptEmpty: bool, f: Facts, addrs: seq<Addr>) {
    if ofSource then AnyIn(ipSet, RuleSemantics.Listed(f.source))
    else
      var targets := RuleSemantics.Targets(f, addrs, false);
      AnyIn(ipSet, targets) || (targets == [] && acceptEmpty)
  }

  /** What a pure item says, under the two flags of an enclosing rule-set item. */
  ghost predicate Says(env: Oracle, item: Item, matchSource: bool, acceptEmpty: bool, f: Facts, addrs: seq<Addr>) {
    match item
    case Plain(test) => test(f)
    case IPCIDR(isSource, ipSet) => AddressHolds(ipSet, isSource || matchSource, acceptEmpty, f, addrs)
    case IPIsPrivate(isSource) =>
      exists a <- (if isSource then RuleSemantics.Listed(f.source) else RuleSemantics.Targets(f, addrs, false)) :: !env.isPublic(a)
    case _ => false
  }

  /** The verdict of a pure item. */
  ghost predicate Verdict(env: Oracle, item: Item, c: Context) {
    Says(env, item, c.cache.ipcidrMatchSource, c.cache.ipcidrAcceptEmpty, c.facts, c.addresses)
  }

  lemma {:induction false} PureItemVerdict(env: Oracle, item: Item, c: Context)
    requires PureItem(item)
    ensures EvalItem(env, item, c) == Outcome(Verdict(env, item, c), c)
  {
    if c.facts.source.Some? {
      var source := RuleSemantics.Listed(c.facts.source);
      assert source == [c.facts.source.value] && source[0] in source;
    }
    var targets := RuleSemantics.Targets(c.facts, c.addresses, false);
    if c.facts.destination.IPDestination? { assert targets == [c.facts.destination.addr] && targets[0] in targets; }
  }

  ghost predicate AnyVerdict(env: Oracle, items: seq<Item>, c: Context) { exists item <- items :: Verdict(env, item, c) }

  ghost predicate AllVerdict(env: Oracle, items: seq<Item>, c: Context) { forall item <- items :: Verdict(env, item, c) }

  /** A non-inverted default rule of pure items. */
  ghost predicate Simple(r: Rule) {
    r.Default? && !r.invert && r.kind.HeadlessRule? && PureItems(r.items) && PureGroups(r)
  }

  ghost predicate AllDefault(rules: seq<Rule>) { forall i | 0 <= i < |rules| :: rules[i].Default? }

  ghost predicate AllSimple(rules: seq<Rule>)
    ensures AllSimple(rules) ==> AllDefault(rules)
  {
    forall i | 0 <= i < |rules| :: Simple(rules[i])
  }

  ghost predicate PureGroups(r: Rule)
    requires r.Default?
  {
    PureItems(r.sourceAddressItems) && PureItems(r.sourcePortItems) && PureItems(r.destinationAddressItems) &&
    PureItems(r.destinationIPCIDRItems) && PureItems(r.destinationPortItems)
  }

  /** The rule has a condition in this group. */
  ghost predicate Demands(r: Rule, slot: Slot, c: Context)
    requires r.Default?
  {
    match slot
    case SourceAddress => |r.sourceAddressItems| > 0
    case SourcePort => |r.sourcePortItems| > 0
    case DestinationAddress =>
      |r.destinationAddressItems| > 0 || (!c.ignoreDestinationIPCIDRMatch && |r.destinationIPCIDRItems| > 0)
    case DestinationPort => |r.destinationPortItems| > 0
  }

  /** Some item of the rule's group holds. */
  ghost predicate Supplies(env: Oracle, r: Rule, slot: Slot, c: Context)
    requires r.Default?
  {
    match slot
    case SourceAddress => AnyVerdict(env, r.sourceAddressItems, c)
    case SourcePort => AnyVerdict(env, r.sourcePortItems, c)
    case DestinationAddress =>
      AnyVerdict(env, r.destinationAddressItems, c) ||
      (!c.ignoreDestinationIPCIDRMatch && AnyVerdict(env, r.destinationIPCIDRItems, c))
    case DestinationPort => AnyVerdict(env, r.destinationPortItems, c)
  }

  /** The rule matches by itself, on a cache with no hits. */
  ghost predicate MatchesAlone(env: Oracle, r: Rule, c: Context)
    requires r.Default?
  {
    AllVerdict(env, r.items, c) && forall slot: Slot :: Demands(r, slot, c) ==> Supplies(env, r, slot, c)
  }

  /** Equal up to hits and the DidMatch mark, so that pure verdicts agree. */
  ghost predicate SameQuestion(c: Context, d: Context) {
    d == c.(cache := d.cache) &&
    d.cache.ipcidrMatchSource == c.cache.ipcidrMatchSource && d.cache.ipcidrAcceptEmpty == c.cache.ipcidrAcceptEmpty
  }

  ghost predicate Plainly(c: Context) { !c.dnsFallback && !c.fakeIPFilter }

  // ---- one rule ----

  lemma {:induction false} AnyOfPure(env: Oracle, items: seq<Item>, c: Context)
    requires PureItems(items)
    ensures EvalAny(env, items, c) == Outcome(AnyVerdict(env, items, c), c)
    ensures |items| == 0 ==> !AnyVerdict(env, items, c)
  {
    if items != [] {
      assert items == [items[0]] + items[1..];
      assert PureItem(items[0]);
      PureItemVerdict(env, items[0], c);
      AnyOfPure(env, items[1..], c);
    }
  }

  lemma {:induction false} AllOfPure(env: Oracle, items: seq<Item>, c: Context)
    requires PureItems(items)
    ensures EvalAll(env, items, c) == Outcome(AllVerdict(env, items, c), if |items| > 0 then SetDidMatch(c) else c)
  {
    if items != [] {
      assert items == [items[0]] + items[1..];
      assert PureItem(items[0]);
      var d := SetDidMatch(c);
      assert forall item <- items :: Verdict(env, item, d) == Verdict(env, item, c);
      PureItemVerdict(env, items[0], d);
      AllOfPure(env, items[1..], d);
    }
  }

  /** d is c with the given hits added. */
  ghost predicate Adds(c: Context, d: Context, sa: bool, sp: bool, da: bool, dp: bool) {
    SameQuestion(c, d) &&
    d.cache.sourceAddressMatch == (c.cache.sourceAddressMatch || sa) &&
    d.cache.sourcePortMatch == (c.cache.sourcePortMatch || sp) &&
    d.cache.destinationAddressMatch == (c.cache.destinationAddressMatch || da) &&
    d.cache.destinationPortMatch == (c.cache.destinationPortMatch || dp)
  }

  lemma {:induction false} StageOfPure(env: Oracle, slot: Slot, items: seq<Item>, c: Context)
    requires PureItems(items)
    ensures var any := AnyVerdict(env, items, c);
            Adds(c, Stage(env, slot, items, c), slot.SourceAddress? && any, slot.SourcePort? && any,
                 slot.DestinationAddress? && any, slot.DestinationPort? && any)
  {
    hide AnyVerdict, AllVerdict, EvalAny, Verdict;
    var d := SetDidMatch(c);
    AnyOfPure(env, items, d);
    SameVerdicts(env, items, c, d);
    if |items| == 0 || Hit(c.cache, slot) {
      assert Stage(env, slot, items, c) == c;
    } else {
      assert Stage(env, slot, items, c) == if AnyVerdict(env, items, c) then SetHit(d, slot) else d;
    }
  }

  lemma {:induction false} SameVerdicts(env: Oracle, items: seq<Item>, c: Context, d: Context)
    requires SameQuestion(c, d)
    ensures AnyVerdict(env, items, c) == AnyVerdict(env, items, d)
    ensures AllVerdict(env, items, c) == AllVerdict(env, items, d)
  {
    assert forall item <- items :: Verdict(env, item, c) == Verdict(env, item, d);
  }

  lemma {:induction false} StagesSupply(env: Oracle, r: Rule, c: Context)
    requires r.Default? && PureGroups(r)
    ensures Adds(c, Stages(env, r, c), AnyVerdict(env, r.sourceAddressItems, c), AnyVerdict(env, r.sourcePortItems, c),
                 AnyVerdict(env, r.destinationAddressItems, c) ||
                 (!c.ignoreDestinationIPCIDRMatch && AnyVerdict(env, r.destinationIPCIDRItems, c)),
                 AnyVerdict(env, r.destinationPortItems, c))
  {
    hide AnyVerdict, AllVerdict, Stage, PureItems;
    StageOfPure(env, SourceAddress, r.sourceAddressItems, c);
    var c1 := Stage(env, SourceAddress, r.sourceAddressItems, c);
    StageOfPure(env, SourcePort, r.sourcePortItems, c1);
    SameVerdicts(env, r.sourcePortItems, c, c1);
    var c2 := Stage(env, SourcePort, r.sourcePortItems, c1);
    StageOfPure(env, DestinationAddress, r.destinationAddressItems, c2);
    SameVerdicts(env, r.destinationAddressItems, c, c2);
    var c3 := Stage(env, DestinationAddress, r.destinationAddressItems, c2);
    var c4 := if c3.ignoreDestinationIPCIDRMatch then c3
              else Stage(env, DestinationAddress, r.destinationIPCIDRItems, c3);
    if !c3.ignoreDestinationIPCIDRMatch {
      StageOfPure(env, DestinationAddress, r.destinationIPCIDRItems, c3);
      SameVerdicts(env, r.destinationIPCIDRItems, c, c3);
    }
    StageOfPure(env, DestinationPort, r.destinationPortItems, c4);
    SameVerdicts(env, r.destinationPortItems, c, c4);
  }

  /** After the stages every slot is hit if it was, or if the rule supplies it. */
  lemma {:induction false} StagesOfPure(env: Oracle, r: Rule, c: Context)
    requires r.Default? && PureGroups(r)
    ensures var d := Stages(env, r, c);
            SameQuestion(c, d) &&
            forall slot: Slot :: Hit(d.cache, slot) == (Hit(c.cache, slot) || Supplies(env, r, slot, c))
  {
    hide AnyVerdict, Stages, PureItems;
    StagesSupply(env, r, c);
  }

  /** The demands of a rule are met by a cache. */
  ghost predicate Met(r: Rule, c: Context)
    requires r.Default?
  {
    forall slot: Slot :: Demands(r, slot, c) ==> Hit(c.cache, slot)
  }

  lemma MetIsSlotsSatisfied(r: Rule, c: Context)
    requires r.Default?
    ensures Met(r, c) == SlotsSatisfied(r, c)
  {
    if SlotsSatisfied(r, c) {
      forall slot: Slot | Demands(r, slot, c) ensures Hit(c.cache, slot) {
        match slot case SourceAddress => case SourcePort => case DestinationAddress => case DestinationPort =>
      }
    } else {
      assert Demands(r, SourceAddress, c) == (|r.sourceAddressItems| > 0);
      assert Demands(r, SourcePort, c) == (|r.sourcePortItems| > 0);
      assert Demands(r, DestinationPort, c) == (|r.destinationPortItems| > 0);
      assert !(Demands(r, DestinationAddress, c) ==> Hit(c.cache, DestinationAddress))
          || !(Demands(r, SourceAddress, c) ==> Hit(c.cache, SourceAddress))
          || !(Demands(r, SourcePort, c) ==> Hit(c.cache, SourcePort))
          || !(Demands(r, DestinationPort, c) ==> Hit(c.cache, DestinationPort));
    }
  }

  /** One simple rule: it adds what it supplies to the hits, and matches when its plain
      items hold and its demands are met by the hits accumulated so far. */
  lemma {:induction false} RuleOnCache(env: Oracle, r: Rule, c: Context)
    requires Simple(r) && Plainly(c)
    ensures var o := EvalRule(env, false, r, c);
            SameQuestion(c, o.ctx) &&
            (forall slot: Slot :: Hit(o.ctx.cache, slot) == (Hit(c.cache, slot) || Supplies(env, r, slot, c))) &&
            o.ok == (AllVerdict(env, r.items, c) && Met(r, o.ctx))
  {
    hide AnyVerdict, Stages, EvalAll, Met;
    if NoItems(r) {
      AnyOfPure(env, [], c);
      assert forall slot: Slot :: !Supplies(env, r, slot, c) by { NothingSupplied(env, r, c); }
      assert !Demands(r, SourceAddress, c) && !Demands(r, SourcePort, c) && !Demands(r, DestinationAddress, c) && !Demands(r, DestinationPort, c);
      MetIsSlotsSatisfied(r, c);
    } else {
      StagesOfPure(env, r, c);
      var d := Stages(env, r, c);
      AllOfPure(env, r.items, d);
      SameVerdicts(env, r.items, c, d);
      var o := EvalAll(env, r.items, d);
      assert forall slot: Slot :: Hit(o.ctx.cache, slot) == Hit(d.cache, slot);
      MetIsSlotsSatisfied(r, o.ctx);
    }
  }

  lemma NothingSupplied(env: Oracle, r: Rule, c: Context)
    requires r.Default? && NoItems(r)
    ensures forall slot: Slot :: !Supplies(env, r, slot, c)
  {
  }

  // ---- a whole set ----

  /** The exact meaning of a set: some rule whose plain items hold, and whose every demand
      is supplied by a hit present at the start, by itself, or by an earlier rule. */
  ghost predicate Merged(env: Oracle, rules: seq<Rule>, c: Context)
    requires AllDefault(rules)
  {
    exists k | 0 <= k < |rules| :: MatchesMerged(env, rules, k, c)
  }

  ghost predicate MatchesMerged(env: Oracle, rules: seq<Rule>, k: nat, c: Context)
    requires k < |rules| && AllDefault(rules)
  {
    AllVerdict(env, rules[k].items, c) &&
    forall slot: Slot :: Demands(rules[k], slot, c) ==> SuppliedBy(env, rules, k, slot, c)
  }

  ghost predicate SuppliedBy(env: Oracle, rules: seq<Rule>, k: nat, slot: Slot, c: Context)
    requires k < |rules| && AllDefault(rules)
  {
    Hit(c.cache, slot) || exists j | 0 <= j <= k :: Supplies(env, rules[j], slot, c)
  }

  lemma {:induction false} SameSupplies(env: Oracle, r: Rule, slot: Slot, c: Context, d: Context)
    requires r.Default? && SameQuestion(c, d)
    ensures Supplies(env, r, slot, c) == Supplies(env, r, slot, d)
  {
    hide AnyVerdict, AllVerdict;
    SameVerdicts(env, r.sourceAddressItems, c, d);
    SameVerdicts(env, r.sourcePortItems, c, d);
    SameVerdicts(env, r.destinationAddressItems, c, d);
    SameVerdicts(env, r.destinationIPCIDRItems, c, d);
    SameVerdicts(env, r.destinationPortItems, c, d);
  }

  /** Moving the first rule's supplies into the starting cache changes no later verdict. */
  lemma {:induction false} SupplyShift(env: Oracle, rules: seq<Rule>, k: nat, slot: Slot, c: Context, d: Context)
    requires 0 < k < |rules| && AllDefault(rules) && SameQuestion(c, d)
    requires Hit(d.cache, slot) == (Hit(c.cache, slot) || Supplies(env, rules[0], slot, c))
    ensures SuppliedBy(env, rules, k, slot, c) == SuppliedBy(env, rules[1..], k - 1, slot, d)
  {
    hide Supplies;
    forall j | 0 <= j < |rules|
      ensures Supplies(env, rules[j], slot, c) == Supplies(env, rules[j], slot, d)
    {
      SameSupplies(env, rules[j], slot, c, d);
    }
    var tail := rules[1..];
    assert forall j | 0 <= j <= k - 1 :: tail[j] == rules[j + 1];
    if exists j | 0 < j <= k :: Supplies(env, rules[j], slot, c) {
      var j :| 0 < j <= k && Supplies(env, rules[j], slot, c);
      assert Supplies(env, tail[j - 1], slot, d);
    }
  }

  lemma {:induction false} MergedShift(env: Oracle, rules: seq<Rule>, k: nat, c: Context, d: Context)
    requires 0 < k < |rules| && AllDefault(rules) && SameQuestion(c, d)
    requires forall slot: Slot :: Hit(d.cache, slot) == (Hit(c.cache, slot) || Supplies(env, rules[0], slot, c))
    ensures MatchesMerged(env, rules, k, c) == MatchesMerged(env, rules[1..], k - 1, d)
  {
    hide Supplies, SuppliedBy, AllVerdict;
    SameVerdicts(env, rules[k].items, c, d);
    forall slot: Slot
      ensures SuppliedBy(env, rules, k, slot, c) == SuppliedBy(env, rules[1..], k - 1, slot, d)
      ensures Demands(rules[k], slot, c) == Demands(rules[k], slot, d)
    {
      SupplyShift(env, rules, k, slot, c, d);
    }
  }

  lemma {:induction false} FirstRuleMerged(env: Oracle, rules: seq<Rule>, c: Context)
    requires rules != [] && AllSimple(rules) && Plainly(c)
    ensures EvalRule(env, false, rules[0], c).ok == MatchesMerged(env, rules, 0, c)
  {
    hide Supplies, AllVerdict;
    RuleOnCache(env, rules[0], c);
    var o := EvalRule(env, false, rules[0], c);
    forall slot: Slot
      ensures SuppliedBy(env, rules, 0, slot, c) == Hit(o.ctx.cache, slot)
      ensures Demands(rules[0], slot, o.ctx) == Demands(rules[0], slot, c)
    {
      assert Supplies(env, rules[0], slot, c) ==> SuppliedBy(env, rules, 0, slot, c);
    }
  }

  /** Evaluating a set of simple rules on any starting cache computes its merged meaning. */
  lemma {:induction false} SetIsMerged(env: Oracle, rules: seq<Rule>, c: Context)
    requires AllSimple(rules) && Plainly(c)
    ensures EvalSet(env, rules, c).ok == Merged(env, rules, c)
    decreases rules
  {
    hide MatchesMerged, EvalRule;
    if rules != [] {
      FirstRuleMerged(env, rules, c);
      var o := EvalRule(env, false, rules[0], c);
      if o.ok {
        assert MatchesMerged(env, rules, 0, c);
      } else {
        RuleOnCache(env, rules[0], c);
        SetIsMerged(env, rules[1..], o.ctx);
        forall k | 0 < k < |rules|
          ensures MatchesMerged(env, rules, k, c) == MatchesMerged(env, rules[1..], k - 1, o.ctx)
        {
          MergedShift(env, rules, k, c, o.ctx);
        }
        if Merged(env, rules[1..], o.ctx) {
          var k :| 0 <= k < |rules[1..]| && MatchesMerged(env, rules[1..], k, o.ctx);
          assert MatchesMerged(env, rules, k + 1, c);
        }
        if Merged(env, rules, c) {
          var k :| 0 <= k < |rules| && MatchesMerged(env, rules, k, c);
          assert k > 0;
          assert MatchesMerged(env, rules[1..], k - 1, o.ctx);
        }
      }
    }
  }

  /** Any rule that matches alone makes the set match: earlier rules can only help. */
  lemma {:induction false} AnyRuleAloneSuffices(env: Oracle, rules: seq<Rule>, k: nat, c: Context)
    requires AllSimple(rules) && Plainly(c)
    requires k < |rules| && MatchesAlone(env, rules[k], c)
    ensures EvalSet(env, rules, c).ok
  {
    SetIsMerged(env, rules, c);
    forall slot: Slot | Demands(rules[k], slot, c) ensures SuppliedBy(env, rules, k, slot, c) {
      assert Supplies(env, rules[k], slot, c);
    }
    assert MatchesMerged(env, rules, k, c);
  }

  /** Only destination conditions. */
  ghost predicate DestinationOnly(r: Rule) {
    Simple(r) && |r.items| == 0 && |r.sourceAddressItems| == 0 && |r.sourcePortItems| == 0 && |r.destinationPortItems| == 0
  }

  ghost predicate AllDestinationOnly(rules: seq<Rule>)
    ensures AllDestinationOnly(rules) ==> AllSimple(rules)
  {
    forall i | 0 <= i < |rules| :: DestinationOnly(rules[i])
  }

  ghost predicate SomeMatchesAlone(env: Oracle, rules: seq<Rule>, c: Context)
    requires AllDefault(rules)
  {
    exists k | 0 <= k < |rules| :: MatchesAlone(env, rules[k], c)
  }

  /** A set of destination-only rules, on a cache without a destination hit, matches
      exactly when one of its rules does. */
  lemma {:induction false} DestinationSetIsDisjunction(env: Oracle, rules: seq<Rule>, c: Context)
    requires AllDestinationOnly(rules) && Plainly(c) && !c.cache.destinationAddressMatch
    ensures EvalSet(env, rules, c).ok == SomeMatchesAlone(env, rules, c)
  {
    hide Supplies;
    SetIsMerged(env, rules, c);
    if SomeMatchesAlone(env, rules, c) {
      var k :| 0 <= k < |rules| && MatchesAlone(env, rules[k], c);
      AnyRuleAloneSuffices(env, rules, k, c);
    }
    if Merged(env, rules, c) {
      var k :| 0 <= k < |rules| && MatchesMerged(env, rules, k, c);
      if Demands(rules[k], DestinationAddress, c) {
        assert SuppliedBy(env, rules, k, DestinationAddress, c);
        var j :| 0 <= j <= k && Supplies(env, rules[j], DestinationAddress, c);
        OnlyDestinationMatters(env, rules[j], c);
      } else {
        OnlyDestinationMatters(env, rules[k], c);
      }
    }
  }

  lemma {:induction false} OnlyDestinationMatters(env: Oracle, r: Rule, c: Context)
    requires DestinationOnly(r)
    ensures MatchesAlone(env, r, c) == (Demands(r, DestinationAddress, c) ==> Supplies(env, r, DestinationAddress, c))
  {
    hide Supplies;
    forall slot: Slot | Demands(r, slot, c) ensures slot == DestinationAddress {
      match slot case SourceAddress => case SourcePort => case DestinationAddress => case DestinationPort =>
    }
    if MatchesAlone(env, r, c) {
      assert Demands(r, DestinationAddress, c) ==> Supplies(env, r, DestinationAddress, c);
    }
  }

  /** Two rules of which neither matches, but whose set does: the first supplies the
      address, the second the port. */
  lemma {:induction false} MergingIsNotDisjunction(env: Oracle, c: Context)
    requires Plainly(c) && c.cache == EMPTY_CACHE
    ensures var yes, no := Plain((f: Facts) => true), Plain((f: Facts) => false);
            var first := Default(HeadlessRule, false, [], [], [], [yes], [], [no]);
            var second := Default(HeadlessRule, false, [], [], [], [no], [], [yes]);
            EvalSet(env, [first, second], c).ok &&
            !EvalSet(env, [first], c).ok && !EvalSet(env, [second], c).ok
  {
    var yes, no := Plain((f: Facts) => true), Plain((f: Facts) => false);
    var first := Default(HeadlessRule, false, [], [], [], [yes], [], [no]);
    var second := Default(HeadlessRule, false, [], [], [], [no], [], [yes]);
    var rules := [first, second];
    SetIsMerged(env, rules, c);
    SetIsMerged(env, [first], c);
    SetIsMerged(env, [second], c);
    assert first.destinationAddressItems[0] in first.destinationAddressItems;
    assert second.destinationPortItems[0] in second.destinationPortItems;
    assert Supplies(env, rules[0], DestinationAddress, c) && Supplies(env, rules[1], DestinationPort, c);
    forall slot: Slot | Demands(second, slot, c) ensures SuppliedBy(env, rules, 1, slot, c) {
      match slot case SourceAddress => case SourcePort => case DestinationAddress => case DestinationPort =>
    }
    assert MatchesMerged(env, rules, 1, c);
    assert Demands(first, DestinationPort, c) && !SuppliedBy(env, [first], 0, DestinationPort, c);
    assert Demands(second, DestinationAddress, c) && !SuppliedBy(env, [second], 0, DestinationAddress, c);
  }

  // ---- exactly which sets are disjunctions ----

  /** The same number of items in every group. */
  ghost predicate SameShape(r: Rule, q: Rule) {
    r.Default? && q.Default? && |r.items| == |q.items| &&
    |r.sourceAddressItems| == |q.sourceAddressItems| && |r.sourcePortItems| == |q.sourcePortItems| &&
    |r.destinationAddressItems| == |q.destinationAddressItems| &&
    |r.destinationIPCIDRItems| == |q.destinationIPCIDRItems| && |r.destinationPortItems| == |q.destinationPortItems|
  }

  ghost predicate SameShapes(rules: seq<Rule>, qs: seq<Rule>) {
    |rules| == |qs| && forall k | 0 <= k < |rules| :: SameShape(rules[k], qs[k])
  }

  /** Whatever the items of these groups say, the set matches exactly when some rule does. */
  ghost predicate AlwaysDisjunction(env: Oracle, rules: seq<Rule>, c: Context) {
    forall qs: seq<Rule> | AllSimple(qs) && SameShapes(rules, qs) :: EvalSet(env, qs, c).ok == SomeMatchesAlone(env, qs, c)
  }

  /** Nothing to satisfy. */
  ghost predicate Unconditional(r: Rule, c: Context)
    requires r.Default?
  {
    |r.items| == 0 && forall slot: Slot :: !Demands(r, slot, c)
  }

  /** This slot is all the rule asks for. */
  ghost predicate OnlyAsks(r: Rule, slot: Slot, c: Context)
    requires r.Default?
  {
    |r.items| == 0 && forall t: Slot :: Demands(r, t, c) ==> t == slot
  }

  /** A rule that shares a demand with a later one asks for nothing else. */
  ghost predicate Independent(rules: seq<Rule>, c: Context)
    requires AllDefault(rules)
  {
    forall j, k, slot: Slot | 0 <= j < k < |rules| && Demands(rules[j], slot, c) && Demands(rules[k], slot, c) :: OnlyAsks(rules[j], slot, c)
  }

  ghost predicate NoHits(c: Context) { forall slot: Slot :: !Hit(c.cache, slot) }

  lemma {:induction false} SuppliesWhatIsDemanded(env: Oracle, r: Rule, slot: Slot, c: Context)
    requires r.Default? && Supplies(env, r, slot, c)
    ensures Demands(r, slot, c)
  {
    match slot case SourceAddress => case SourcePort => case DestinationAddress => case DestinationPort =>
  }

  lemma {:induction false} SameDemands(r: Rule, q: Rule, slot: Slot, c: Context)
    requires SameShape(r, q)
    ensures Demands(r, slot, c) == Demands(q, slot, c)
  {
    match slot case SourceAddress => case SourcePort => case DestinationAddress => case DestinationPort =>
  }

  /** Independent rules: what an earlier rule supplies to a later one, it matches by. */
  lemma {:induction false} IndependentIsDisjunction(env: Oracle, rules: seq<Rule>, c: Context)
    requires AllSimple(rules) && Plainly(c) && NoHits(c)
    requires Independent(rules, c) || exists k | 0 <= k < |rules| :: Unconditional(rules[k], c)
    ensures EvalSet(env, rules, c).ok == SomeMatchesAlone(env, rules, c)
  {
    hide Supplies, Demands;
    SetIsMerged(env, rules, c);
    if SomeMatchesAlone(env, rules, c) {
      var k :| 0 <= k < |rules| && MatchesAlone(env, rules[k], c);
      AnyRuleAloneSuffices(env, rules, k, c);
    }
    if Merged(env, rules, c) {
      var k :| 0 <= k < |rules| && MatchesMerged(env, rules, k, c);
      if slot: Slot :| Demands(rules[k], slot, c) && !Supplies(env, rules[k], slot, c) {
        assert SuppliedBy(env, rules, k, slot, c);
        var j :| 0 <= j <= k && Supplies(env, rules[j], slot, c);
        SuppliesWhatIsDemanded(env, rules[j], slot, c);
        if Independent(rules, c) {
          assert OnlyAsks(rules[j], slot, c);
          assert MatchesAlone(env, rules[j], c);
        } else {
          var i :| 0 <= i < |rules| && Unconditional(rules[i], c);
          assert MatchesAlone(env, rules[i], c);
        }
      } else {
        assert MatchesAlone(env, rules[k], c);
      }
    }
  }

  // The converse fills the groups with items of constant verdict.

  function Constant(b: bool, n: nat): seq<Item> { seq(n, _ => Plain((f: Facts) => b)) }

  function Filled(r: Rule, plain: bool, hits: Slot -> bool): Rule
    requires r.Default?
  {
    Default(HeadlessRule, false, Constant(plain, |r.items|),
            Constant(hits(SourceAddress), |r.sourceAddressItems|), Constant(hits(SourcePort), |r.sourcePortItems|),
            Constant(hits(DestinationAddress), |r.destinationAddressItems|),
            Constant(hits(DestinationAddress), |r.destinationIPCIDRItems|),
            Constant(hits(DestinationPort), |r.destinationPortItems|))
  }

  lemma {:induction false} ConstantVerdicts(env: Oracle, b: bool, n: nat, c: Context)
    ensures PureItems(Constant(b, n)) && AnyVerdict(env, Constant(b, n), c) == (b && n > 0) && AllVerdict(env, Constant(b, n), c) == (b || n == 0)
  {
    var items := Constant(b, n);
    forall item | item in items ensures Verdict(env, item, c) == b && PureItem(item) {
    }
    if n > 0 { assert items[0] in items; }
  }

  lemma {:induction false} FilledSupplies(env: Oracle, r: Rule, plain: bool, hits: Slot -> bool, c: Context)
    requires r.Default?
    ensures var q := Filled(r, plain, hits);
            Simple(q) && SameShape(r, q) && AllVerdict(env, q.items, c) == (plain || |r.items| == 0) &&
            forall slot: Slot :: Supplies(env, q, slot, c) == (hits(slot) && Demands(r, slot, c))
  {
    ConstantVerdicts(env, plain, |r.items|, c);
    ConstantVerdicts(env, hits(SourceAddress), |r.sourceAddressItems|, c);
    ConstantVerdicts(env, hits(SourcePort), |r.sourcePortItems|, c);
    ConstantVerdicts(env, hits(DestinationAddress), |r.destinationAddressItems|, c);
    ConstantVerdicts(env, hits(DestinationAddress), |r.destinationIPCIDRItems|, c);
    ConstantVerdicts(env, hits(DestinationPort), |r.destinationPortItems|, c);
    hide Constant, AnyVerdict, AllVerdict, PureItems;
    var q := Filled(r, plain, hits);
    forall slot: Slot ensures Supplies(env, q, slot, c) == (hits(slot) && Demands(r, slot, c)) {
      match slot case SourceAddress => case SourcePort => case DestinationAddress => case DestinationPort =>
    }
  }

  /** Rule j supplies only the shared slot, rule k everything else, the others nothing. */
  function Conspiring(rules: seq<Rule>, j: nat, k: nat, slot: Slot): seq<Rule>
    requires AllDefault(rules)
  {
    seq(|rules|, m requires 0 <= m < |rules| =>
      Filled(rules[m], m == k, (t: Slot) => (m == j && t == slot) || (m == k && t != slot)))
  }

  lemma {:induction false} ConspiringMatch(env: Oracle, rules: seq<Rule>, c: Context, j: nat, k: nat, slot: Slot)
    requires AllSimple(rules) && Plainly(c) && NoHits(c) && j < k < |rules|
    requires Demands(rules[j], slot, c) && Demands(rules[k], slot, c) && !OnlyAsks(rules[j], slot, c)
    requires forall m | 0 <= m < |rules| :: !Unconditional(rules[m], c)
    ensures var qs := Conspiring(rules, j, k, slot);
            AllSimple(qs) && SameShapes(rules, qs) && EvalSet(env, qs, c).ok && !SomeMatchesAlone(env, qs, c)
  {
    var qs := Conspiring(rules, j, k, slot);
    forall m | 0 <= m < |rules|
      ensures Simple(qs[m]) && SameShape(rules[m], qs[m]) && AllVerdict(env, qs[m].items, c) == (m == k || |rules[m].items| == 0)
      ensures forall t: Slot :: Supplies(env, qs[m], t, c) == (((m == j && t == slot) || (m == k && t != slot)) && Demands(rules[m], t, c))
      ensures forall t: Slot :: Demands(qs[m], t, c) == Demands(rules[m], t, c)
    {
      FilledSupplies(env, rules[m], m == k, (t: Slot) => (m == j && t == slot) || (m == k && t != slot), c);
      forall t: Slot ensures Demands(qs[m], t, c) == Demands(rules[m], t, c) { SameDemands(rules[m], qs[m], t, c); }
    }
    hide Supplies, Demands, AllVerdict, Conspiring, Simple, SameShape;
    assert AllSimple(qs) && SameShapes(rules, qs);
    forall m | 0 <= m < |rules| ensures !MatchesAlone(env, qs[m], c) {
      if m == k {
        assert Demands(qs[m], slot, c) && !Supplies(env, qs[m], slot, c);
      } else if |rules[m].items| == 0 {
        var t: Slot :| Demands(rules[m], t, c) && (m == j ==> t != slot);
        assert Demands(qs[m], t, c) && !Supplies(env, qs[m], t, c);
      }
    }
    forall t: Slot | Demands(qs[k], t, c) ensures SuppliedBy(env, qs, k, t, c) {
      assert Supplies(env, qs[if t == slot then j else k], t, c);
    }
    assert MatchesMerged(env, qs, k, c);
    SetIsMerged(env, qs, c);
  }

  /** On a cache without hits a set is the disjunction of its rules, whatever its items say,
      exactly when some rule asks for nothing, or every rule that shares a demand with a later
      one asks for nothing else. */
  lemma {:induction false} DisjunctionIffIndependent(env: Oracle, rules: seq<Rule>, c: Context)
    requires AllSimple(rules) && Plainly(c) && NoHits(c)
    ensures AlwaysDisjunction(env, rules, c) <==>
            (exists k | 0 <= k < |rules| :: Unconditional(rules[k], c)) || Independent(rules, c)
  {
    if (exists k | 0 <= k < |rules| :: Unconditional(rules[k], c)) || Independent(rules, c) {
      forall qs: seq<Rule> | AllSimple(qs) && SameShapes(rules, qs) ensures EvalSet(env, qs, c).ok == SomeMatchesAlone(env, qs, c) {
        ShapeDecides(rules, qs, c);
        IndependentIsDisjunction(env, qs, c);
      }
    } else {
      var j, k, slot: Slot :| 0 <= j < k < |rules| && Demands(rules[j], slot, c) && Demands(rules[k], slot, c) && !OnlyAsks(rules[j], slot, c);
      ConspiringMatch(env, rules, c, j, k, slot);
      assert !AlwaysDisjunction(env, rules, c);
    }
  }

  lemma {:induction false} ShapeDecides(rules: seq<Rule>, qs: seq<Rule>, c: Context)
    requires AllDefault(rules) && AllDefault(qs) && SameShapes(rules, qs)
    ensures Independent(rules, c) ==> Independent(qs, c)
    ensures (exists k | 0 <= k < |rules| :: Unconditional(rules[k], c)) ==> exists k | 0 <= k < |qs| :: Unconditional(qs[k], c)
  {
    forall k, slot: Slot | 0 <= k < |rules| ensures Demands(qs[k], slot, c) == Demands(rules[k], slot, c) {
      SameDemands(rules[k], qs[k], slot, c);
    }
    hide Demands;
    if Independent(rules, c) {
      forall j, k, slot: Slot | 0 <= j < k < |qs| && Demands(qs[j], slot, c) && Demands(qs[k], slot, c) ensures OnlyAsks(qs[j], slot, c) {
        assert Demands(rules[j], slot, c) && Demands(rules[k], slot, c);
        assert OnlyAsks(rules[j], slot, c);
      }
    }
    if k :| 0 <= k < |rules| && Unconditional(rules[k], c) { assert Unconditional(qs[k], c); }
  }

  // ---- a rule with domain conditions and a rule-set item ----

  lemma {:induction false} SetsAreOneSet(env: Oracle, sets: seq<RuleSet>, c: Context)
    ensures EvalSets(env, sets, c) == EvalSet(env, Flatten(sets), c)
    decreases sets
  {
    if sets != [] {
      SetSplit(env, sets[0].rules, Flatten(sets[1..]), c);
      SetsAreOneSet(env, sets[1..], EvalSet(env, sets[0].rules, c).ctx);
    }
  }

  lemma {:induction false} SetSplit(env: Oracle, xs: seq<Rule>, ys: seq<Rule>, c: Context)
    ensures var o := EvalSet(env, xs, c);
            EvalSet(env, xs + ys, c) == if o.ok then o else EvalSet(env, ys, o.ctx)
    decreases xs
  {
    if xs == [] {
      assert xs + ys == ys;
    } else {
      assert (xs + ys)[1..] == xs[1..] + ys;
      SetSplit(env, xs[1..], ys, EvalRule(env, false, xs[0], c).ctx);
    }
  }

  lemma {:induction false} AllSplit(env: Oracle, xs: seq<Item>, ys: seq<Item>, c: Context)
    ensures var o := EvalAll(env, xs, c);
            EvalAll(env, xs + ys, c) == if o.ok then EvalAll(env, ys, o.ctx) else o
    decreases xs
  {
    if xs == [] {
      assert xs + ys == ys;
    } else {
      assert (xs + ys)[1..] == xs[1..] + ys;
      AllSplit(env, xs[1..], ys, EvalItem(env, xs[0], if xs[0].RuleSetItem? then c else SetDidMatch(c)).ctx);
    }
  }

  /** A destination-only set touches the destination hit alone, and a match leaves it set. */
  lemma {:induction false} DestinationSetHits(env: Oracle, rules: seq<Rule>, c: Context)
    requires AllDestinationOnly(rules) && Plainly(c) && !c.ignoreDestinationIPCIDRMatch
    requires forall i | 0 <= i < |rules| :: !NoItems(rules[i])
    ensures var o := EvalSet(env, rules, c);
            SameQuestion(c, o.ctx) && (o.ok ==> o.ctx.cache.destinationAddressMatch) &&
            forall slot: Slot :: slot != DestinationAddress ==> Hit(o.ctx.cache, slot) == Hit(c.cache, slot)
    decreases rules
  {
    hide AllVerdict, EvalRule;
    if rules != [] {
      RuleOnCache(env, rules[0], c);
      var o := EvalRule(env, false, rules[0], c);
      assert Demands(rules[0], DestinationAddress, o.ctx);
      forall slot: Slot | slot != DestinationAddress ensures Hit(o.ctx.cache, slot) == Hit(c.cache, slot) {
        match slot case SourceAddress => case SourcePort => case DestinationAddress => case DestinationPort =>
      }
      if !o.ok { DestinationSetHits(env, rules[1..], o.ctx); }
    }
  }

  lemma {:induction false} DestinationSetVerdict(env: Oracle, rules: seq<Rule>, c: Context)
    requires AllDestinationOnly(rules) && Plainly(c)
    ensures EvalSet(env, rules, c).ok ==
              if c.cache.destinationAddressMatch then |rules| > 0 else SomeMatchesAlone(env, rules, c)
  {
    if !c.cache.destinationAddressMatch {
      DestinationSetIsDisjunction(env, rules, c);
    } else if rules != [] {
      hide Supplies;
      SetIsMerged(env, rules, c);
      forall slot: Slot | Demands(rules[0], slot, c) ensures SuppliedBy(env, rules, 0, slot, c) {
        match slot case SourceAddress => case SourcePort => case DestinationAddress => case DestinationPort =>
      }
      assert MatchesMerged(env, rules, 0, c);
    }
  }

  /** A non-inverted rule: plain items around one rule-set item whose sets hold only
      destination conditions. */
  ghost predicate RuleWithSet(r: Rule, pre: seq<Item>, sets: seq<RuleSet>, matchSource: bool, acceptEmpty: bool, post: seq<Item>) {
    r.Default? && !r.kind.HeadlessRule? && !r.invert && PureGroups(r) && PlainItems(pre) && PlainItems(post) &&
    r.items == pre + [RuleSetItem(matchSource, acceptEmpty, sets)] + post &&
    AllDestinationOnly(Flatten(sets)) && forall i | 0 <= i < |Flatten(sets)| :: !NoItems(Flatten(sets)[i])
  }

  /** Its destination condition: its own, or that of the set; its own needs a set that is
      not empty, since an empty set never matches. */
  ghost predicate DestinationPart(env: Oracle, r: Rule, rules: seq<Rule>, matchSource: bool, acceptEmpty: bool, c: Context)
    requires r.Default? && AllDefault(rules)
  {
    (Supplies(env, r, DestinationAddress, c) && |rules| > 0) ||
    exists k | 0 <= k < |rules| :: SetRuleSays(env, rules[k], matchSource, acceptEmpty, c.facts, c.addresses)
  }

  /** Some domain or address item of the rule says yes. */
  ghost predicate SetRuleSays(env: Oracle, r: Rule, matchSource: bool, acceptEmpty: bool, f: Facts, addrs: seq<Addr>)
    requires r.Default?
  {
    (exists item <- r.destinationAddressItems :: Says(env, item, matchSource, acceptEmpty, f, addrs)) ||
    exists item <- r.destinationIPCIDRItems :: Says(env, item, matchSource, acceptEmpty, f, addrs)
  }

  lemma {:induction false} AloneIsSaid(env: Oracle, rules: seq<Rule>, matchSource: bool, acceptEmpty: bool, c: Context)
    requires AllDestinationOnly(rules) && !c.ignoreDestinationIPCIDRMatch && forall i | 0 <= i < |rules| :: !NoItems(rules[i])
    ensures SomeMatchesAlone(env, rules, SetSourceFlags(c, matchSource, acceptEmpty)) ==
            exists k | 0 <= k < |rules| :: SetRuleSays(env, rules[k], matchSource, acceptEmpty, c.facts, c.addresses)
  {
    var d := SetSourceFlags(c, matchSource, acceptEmpty);
    forall k | 0 <= k < |rules|
      ensures MatchesAlone(env, rules[k], d) == SetRuleSays(env, rules[k], matchSource, acceptEmpty, c.facts, c.addresses)
    {
      OnlyDestinationMatters(env, rules[k], d);
      assert Demands(rules[k], DestinationAddress, d);
      assert Supplies(env, rules[k], DestinationAddress, d) == SetRuleSays(env, rules[k], matchSource, acceptEmpty, c.facts, c.addresses);
    }
  }

  lemma {:induction false} SomeAloneSame(env: Oracle, rules: seq<Rule>, c: Context, d: Context)
    requires AllDefault(rules) && SameQuestion(c, d)
    ensures SomeMatchesAlone(env, rules, c) == SomeMatchesAlone(env, rules, d)
  {
    hide Supplies, AllVerdict;
    forall k | 0 <= k < |rules| ensures MatchesAlone(env, rules[k], c) == MatchesAlone(env, rules[k], d) {
      SameVerdicts(env, rules[k].items, c, d);
      forall slot: Slot
        ensures Supplies(env, rules[k], slot, c) == Supplies(env, rules[k], slot, d)
        ensures Demands(rules[k], slot, c) == Demands(rules[k], slot, d)
      {
        SameSupplies(env, rules[k], slot, c, d);
      }
    }
  }

  lemma {:induction false} PlainVerdicts(env: Oracle, items: seq<Item>, c: Context, d: Context)
    requires PlainItems(items) && c.facts == d.facts
    ensures PureItems(items) && AllVerdict(env, items, c) == AllVerdict(env, items, d)
  {
    assert forall item <- items :: Verdict(env, item, c) == Verdict(env, item, d);
  }

  /** The plain items and the rule-set item of such a rule, on the staged cache. */
  lemma {:induction false} ItemsWithSet(env: Oracle, r: Rule, pre: seq<Item>, sets: seq<RuleSet>, matchSource: bool, acceptEmpty: bool, post: seq<Item>, d: Context)
    requires RuleWithSet(r, pre, sets, matchSource, acceptEmpty, post) && Plainly(d) && !d.ignoreDestinationIPCIDRMatch
    ensures var o := EvalAll(env, r.items, d);
            var rules := Flatten(sets);
            o.ok == (AllVerdict(env, pre, d) && AllVerdict(env, post, d) &&
                     if d.cache.destinationAddressMatch then |rules| > 0
                     else SomeMatchesAlone(env, rules, SetSourceFlags(d, matchSource, acceptEmpty))) &&
            (o.ok ==> Hit(o.ctx.cache, DestinationAddress) && !o.ctx.ignoreDestinationIPCIDRMatch &&
                      forall slot: Slot :: slot != DestinationAddress ==> Hit(o.ctx.cache, slot) == Hit(d.cache, slot))
  {
    hide AllVerdict, EvalAll, EvalSet, EvalRule, SomeMatchesAlone;
    var rules := Flatten(sets);
    var item := RuleSetItem(matchSource, acceptEmpty, sets);
    assert r.items == pre + ([item] + post);
    AllSplit(env, pre, [item] + post, d);
    PlainVerdicts(env, pre, d, d);
    AllOfPure(env, pre, d);
    var d1 := EvalAll(env, pre, d).ctx;
    if EvalAll(env, pre, d).ok {
      var q := SetSourceFlags(d1, matchSource, acceptEmpty);
      SetsAreOneSet(env, sets, q);
      DestinationSetVerdict(env, rules, q);
      SomeAloneSame(env, rules, SetSourceFlags(d, matchSource, acceptEmpty), q);
      DestinationSetHits(env, rules, q);
      var s := EvalSet(env, rules, q);
      SingleItemThen(env, item, post, d1);
      PlainVerdicts(env, post, d, s.ctx);
      AllOfPure(env, post, s.ctx);
      var o := EvalAll(env, r.items, d);
      if o.ok {
        forall slot: Slot | slot != DestinationAddress ensures Hit(o.ctx.cache, slot) == Hit(d.cache, slot) {
          assert Hit(o.ctx.cache, slot) == Hit(s.ctx.cache, slot) == Hit(q.cache, slot);
        }
      }
    }
  }

  lemma {:induction false} SingleItemThen(env: Oracle, item: Item, post: seq<Item>, c: Context)
    requires item.RuleSetItem?
    ensures var o := EvalSets(env, item.sets, SetSourceFlags(c, item.matchSource, item.acceptEmpty));
            EvalAll(env, [item] + post, c) == if o.ok then EvalAll(env, post, o.ctx) else o
  {
    assert ([item] + post)[1..] == post;
  }

  /** From a reset cache a route rule, or a DNS rule put to its address check, matches exactly
      when its plain items hold, its source and port groups hold, and its own destination
      condition or the set's does. */
  lemma {:induction false} OuterRuleMergesSet(env: Oracle, limit: bool, r: Rule, pre: seq<Item>, sets: seq<RuleSet>,
                                              matchSource: bool, acceptEmpty: bool, post: seq<Item>, c: Context)
    requires RuleWithSet(r, pre, sets, matchSource, acceptEmpty, post) && (r.kind.DNSRule? ==> limit)
    requires c.cache == EMPTY_CACHE && Plainly(c) && !c.ignoreDestinationIPCIDRMatch
    ensures EvalRule(env, limit, r, c).ok ==
              (AllVerdict(env, pre, c) && AllVerdict(env, post, c) &&
               (forall slot: Slot :: slot != DestinationAddress && Demands(r, slot, c) ==> Supplies(env, r, slot, c)) &&
               DestinationPart(env, r, Flatten(sets), matchSource, acceptEmpty, c))
  {
    hide AllVerdict, EvalAll, Stages, Supplies, SomeMatchesAlone, SetRuleSays;
    var rules := Flatten(sets);
    StagesOfPure(env, r, c);
    var d := Stages(env, r, c);
    ItemsWithSet(env, r, pre, sets, matchSource, acceptEmpty, post, d);
    PlainVerdicts(env, pre, c, d);
    PlainVerdicts(env, post, c, d);
    SomeAloneSame(env, rules, SetSourceFlags(c, matchSource, acceptEmpty), SetSourceFlags(d, matchSource, acceptEmpty));
    AloneIsSaid(env, rules, matchSource, acceptEmpty, c);
    var o := EvalAll(env, r.items, d);
    MetIsSlotsSatisfied(r, o.ctx);
    assert EvalRule(env, limit, r, c).ok == (o.ok && Met(r, o.ctx));
  }

  /** A rule of a set that holds nothing but ip_cidr conditions on the destination. */
  ghost predicate AddressRule(r: Rule) {
    DestinationOnly(r) && |r.destinationAddressItems| == 0 && |r.destinationIPCIDRItems| > 0 &&
    forall item <- r.destinationIPCIDRItems :: item.IPCIDR? && !item.isSource
  }

  /** Some condition of the rule has the address. */
  ghost predicate ListsAddress(r: Rule, a: Addr)
    requires r.Default?
  {
    exists item <- r.destinationIPCIDRItems :: item.IPCIDR? && a in item.ipSet
  }

  ghost predicate Lists(rules: seq<Rule>, a: Addr)
    requires AllDefault(rules)
  {
    exists k | 0 <= k < |rules| :: ListsAddress(rules[k], a)
  }

  /** The address check of a DNS rule whose only condition is an item with sets of addresses,
      for a domain: it holds exactly when some address of the answer is listed, or the answer is
      empty and the item accepts that; with match-source it asks for the source instead. */
  lemma {:induction false} AnswerCheckOfSets(env: Oracle, sets: seq<RuleSet>, matchSource: bool, acceptEmpty: bool, c: Context)
    requires c.cache == EMPTY_CACHE && Plainly(c) && !c.ignoreDestinationIPCIDRMatch && !c.facts.destination.IPDestination?
    requires AllDestinationOnly(Flatten(sets)) && forall i | 0 <= i < |Flatten(sets)| :: AddressRule(Flatten(sets)[i])
    ensures var rules := Flatten(sets);
            EvalRule(env, true, Default(DNSRule, false, [RuleSetItem(matchSource, acceptEmpty, sets)], [], [], [], [], []), c).ok ==
            if matchSource then c.facts.source.Some? && Lists(rules, c.facts.source.value)
            else (exists a <- c.addresses :: Lists(rules, a)) || (c.addresses == [] && acceptEmpty && |rules| > 0)
  {
    var rules := Flatten(sets);
    var item := RuleSetItem(matchSource, acceptEmpty, sets);
    var r := Default(DNSRule, false, [item], [], [], [], [], []);
    assert r.items == [] + [item] + [];
    OuterRuleMergesSet(env, true, r, [], sets, matchSource, acceptEmpty, [], c);
    forall slot: Slot ensures !Demands(r, slot, c) && !Supplies(env, r, slot, c) {
      match slot case SourceAddress => case SourcePort => case DestinationAddress => case DestinationPort =>
    }
    hide EvalRule;
    forall k | 0 <= k < |rules|
      ensures SetRuleSays(env, rules[k], matchSource, acceptEmpty, c.facts, c.addresses) ==
              if matchSource then c.facts.source.Some? && ListsAddress(rules[k], c.facts.source.value)
              else (exists a <- c.addresses :: ListsAddress(rules[k], a)) || (c.addresses == [] && acceptEmpty)
    {
      AddressRuleSays(env, rules[k], matchSource, acceptEmpty, c.facts, c.addresses);
    }
    hide ListsAddress, SetRuleSays;
    if !matchSource && exists a <- c.addresses :: Lists(rules, a) {
      var a :| a in c.addresses && Lists(rules, a);
      var k :| 0 <= k < |rules| && ListsAddress(rules[k], a);
      assert SetRuleSays(env, rules[k], matchSource, acceptEmpty, c.facts, c.addresses);
    }
    if !matchSource && exists k | 0 <= k < |rules| :: SetRuleSays(env, rules[k], matchSource, acceptEmpty, c.facts, c.addresses) {
      var k :| 0 <= k < |rules| && SetRuleSays(env, rules[k], matchSource, acceptEmpty, c.facts, c.addresses);
      if a :| a in c.addresses && ListsAddress(rules[k], a) { assert Lists(rules, a); }
    }
    if c.addresses == [] && acceptEmpty && !matchSource && |rules| > 0 {
      assert SetRuleSays(env, rules[0], matchSource, acceptEmpty, c.facts, c.addresses);
    }
  }

  lemma {:induction false} AddressRuleSays(env: Oracle, r: Rule, matchSource: bool, acceptEmpty: bool, f: Facts, addrs: seq<Addr>)
    requires AddressRule(r) && !f.destination.IPDestination?
    ensures SetRuleSays(env, r, matchSource, acceptEmpty, f, addrs) ==
            if matchSource then f.source.Some? && ListsAddress(r, f.source.value)
            else (exists a <- addrs :: ListsAddress(r, a)) || (addrs == [] && acceptEmpty)
  {
    var items := r.destinationIPCIDRItems;
    assert items[0] in items;
    forall item | item in items
      ensures Says(env, item, matchSource, acceptEmpty, f, addrs) ==
              if matchSource then f.source.Some? && f.source.value in item.ipSet
              else AnyIn(item.ipSet, addrs) || (addrs == [] && acceptEmpty)
    {
      if f.source.Some? { assert RuleSemantics.Listed(f.source) == [f.source.value] && [f.source.value][0] == f.source.value; }
    }
    if !matchSource && exists a <- addrs :: ListsAddress(r, a) {
      var a :| a in addrs && ListsAddress(r, a);
      var item :| item in items && a in item.ipSet;
      assert AnyIn(item.ipSet, addrs);
    }
    if item :| !matchSource && item in items && AnyIn(item.ipSet, addrs) {
      var a :| a in addrs && a in item.ipSet;
      assert ListsAddress(r, a);
    }
  }
}

/** The evaluator in the form the router runs it: one shared mutable context, updated
    field by field while items, rule sets and sub-rules are tried in loops. */
module RuleEngine {
  import opened Wrappers
  import opened RuleModel

  class InboundContext {
    const facts: Facts
    var destinationAddresses: seq<Addr>
    var sourceGeoIPCode: string
    var geoIPCode: string

    var ipcidrMatchSource: bool
    var ipcidrAcceptEmpty: bool
    var sourceAddressMatch: bool
    var sourcePortMatch: bool
    var destinationAddressMatch: bool
    var destinationPortMatch: bool
    var didMatch: bool

    var ignoreDestinationIPCIDRMatch: bool
    var dnsFallback: bool
    var fakeIPFilter: bool

    constructor (facts: Facts, dnsFallback: bool, fakeIPFilter: bool)
      ensures Value() == Context(facts, [], "", "", EMPTY_CACHE, false, dnsFallback, fakeIPFilter)
    {
      this.facts := facts;
      destinationAddresses := [];
      sourceGeoIPCode := "";
      geoIPCode := "";
      ipcidrMatchSource := false;
      ipcidrAcceptEmpty := false;
      sourceAddressMatch := false;
      sourcePortMatch := false;
      destinationAddressMatch := false;
      destinationPortMatch := false;
      didMatch := false;
      ignoreDestinationIPCIDRMatch := false;
      this.dnsFallback := dnsFallback;
      this.fakeIPFilter := fakeIPFilter;
    }

    function Value(): Context
      reads this
    {
      Context(facts, destinationAddresses, sourceGeoIPCode, geoIPCode,
              Cache(ipcidrMatchSource, ipcidrAcceptEmpty, sourceAddressMatch, sourcePortMatch,
                    destinationAddressMatch, destinationPortMatch, didMatch),
              ignoreDestinationIPCIDRMatch, dnsFallback, fakeIPFilter)
    }

    method ResetRuleCache()
      modifies this
      ensures Value() == Reset(old(Value()))
    {
      ipcidrMatchSource := false;
      ipcidrAcceptEmpty := false;
      sourceAddressMatch := false;
      sourcePortMatch := false;
      destinationAddressMatch := false;
      destinationPortMatch := false;
      didMatch := false;
    }

    // ---- items ----

    method MatchCIDR(isSource: bool, ipSet: set<Addr>) returns (ok: bool)
      ensures ok == MatchIPCIDR(isSource, ipSet, Value())
    {
      if isSource || ipcidrMatchSource {
        return Contains(ipSet, facts.source);
      }
      if facts.destination.IPDestination? {
        return facts.destination.addr in ipSet;
      }
      if |destinationAddresses| > 0 {
        for i := 0 to |destinationAddresses|
          invariant forall a <- destinationAddresses[..i] :: a !in ipSet
        {
          if destinationAddresses[i] in ipSet { return true; }
        }
        return false;
      }
      return ipcidrAcceptEmpty;
    }

    method MatchPrivate(env: Oracle, isSource: bool) returns (ok: bool)
      ensures ok == MatchIPIsPrivate(env, isSource, Value())
    {
      var endpoint := Endpoint(facts, isSource);
      if endpoint.Some? {
        return !env.isPublic(endpoint.value);
      }
      if !isSource {
        for i := 0 to |destinationAddresses|
          invariant forall a <- destinationAddresses[..i] :: env.isPublic(a)
        {
          if !env.isPublic(destinationAddresses[i]) { return true; }
        }
      }
      return false;
    }

    method LookupGeoIP(env: Oracle, isSource: bool, codes: set<string>, a: Addr) returns (ok: bool)
      modifies this
      ensures Outcome(ok, Value()) == GeoIPOne(env, isSource, codes, a, old(Value()))
    {
      var code := CodeOf(env, a);
      if code == "" { return false; }
      if isSource { sourceGeoIPCode := code; } else { geoIPCode := code; }
      return code in codes;
    }

    method MatchGeoIP(env: Oracle, isSource: bool, codes: set<string>) returns (ok: bool)
      modifies this
      ensures Outcome(ok, Value()) == EvalGeoIP(env, isSource, codes, old(Value()))
    {
      var code := if isSource then sourceGeoIPCode else geoIPCode;
      if code != "" { return code in codes; }
      var endpoint := Endpoint(facts, isSource);
      if endpoint.Some? {
        ok := LookupGeoIP(env, isSource, codes, endpoint.value);
        return;
      }
      var addrs := destinationAddresses;
      for i := 0 to |addrs|
        invariant GeoIPAny(env, isSource, codes, addrs[i..], Value())
               == GeoIPAny(env, isSource, codes, addrs, old(Value()))
      {
        assert addrs[i..][1..] == addrs[i + 1..];
        ok := LookupGeoIP(env, isSource, codes, addrs[i]);
        if ok { return; }
      }
      return false;
    }

    method MatchItem(env: Oracle, item: Item) returns (ok: bool)
      modifies this
      ensures Outcome(ok, Value()) == EvalItem(env, item, old(Value()))
      decreases item, 1
    {
      match item
      case Plain(test) => ok := test(facts);
      case IPCIDR(isSource, ipSet) => ok := MatchCIDR(isSource, ipSet);
      case IPIsPrivate(isSource) => ok := MatchPrivate(env, isSource);
      case GeoIP(isSource, codes) => ok := MatchGeoIP(env, isSource, codes);
      case RuleSetItem(matchSource, acceptEmpty, sets) =>
        ipcidrMatchSource := matchSource;
        ipcidrAcceptEmpty := acceptEmpty;
        ghost var before := Value();
        for i := 0 to |sets|
          invariant EvalSets(env, sets[i..], Value()) == EvalSets(env, sets, before)
        {
          assert sets[i..][1..] == sets[i + 1..];
          ok := MatchSet(env, sets[i]);
          if ok { return; }
        }
        ok := false;
    }

    /** abstractRuleSet.Match: no reset between the rules. */
    method MatchSet(env: Oracle, ruleSet: RuleSet) returns (ok: bool)
      modifies this
      ensures Outcome(ok, Value()) == EvalSet(env, ruleSet.rules, old(Value()))
      decreases ruleSet, 0
    {
      var rules := ruleSet.rules;
      for i := 0 to |rules|
        invariant EvalSet(env, rules[i..], Value()) == EvalSet(env, rules, old(Value()))
      {
        assert rules[i..][1..] == rules[i + 1..];
        ok := Match(env, false, rules[i]);
        if ok { return; }
      }
      return false;
    }

    method MatchAny(env: Oracle, items: seq<Item>) returns (ok: bool)
      modifies this
      ensures Outcome(ok, Value()) == EvalAny(env, items, old(Value()))
      decreases items, 0
    {
      for i := 0 to |items|
        invariant EvalAny(env, items[i..], Value()) == EvalAny(env, items, old(Value()))
      {
        assert items[i..][1..] == items[i + 1..];
        ok := MatchItem(env, items[i]);
        if ok { return; }
      }
      return false;
    }

    method MatchAll(env: Oracle, items: seq<Item>) returns (ok: bool)
      modifies this
      ensures Outcome(ok, Value()) == EvalAll(env, items, old(Value()))
      decreases items, 0
    {
      for i := 0 to |items|
        invariant EvalAll(env, items[i..], Value()) == EvalAll(env, items, old(Value()))
      {
        assert items[i..][1..] == items[i + 1..];
        ghost var before := Value();
        if !items[i].RuleSetItem? { didMatch := true; }
        assert Value() == if items[i].RuleSetItem? then before else SetDidMatch(before);
        ok := MatchItem(env, items[i]);
        assert EvalAll(env, items[i..], before)
            == if ok then EvalAll(env, items[i + 1..], Value()) else Outcome(ok, Value());
        if !ok { return; }
      }
      return true;
    }

    // ---- rules ----

    /** One of the five group loops of abstractDefaultRule.Match. */
    method RunStage(env: Oracle, slot: Slot, items: seq<Item>)
      modifies this
      ensures Value() == Stage(env, slot, items, old(Value()))
      decreases items, 1
    {
      ghost var before := Value();
      if |items| > 0 && !Hit(Value().cache, slot) {
        didMatch := true;
        assert Value() == SetDidMatch(before);
        var ok := MatchAny(env, items);
        assert Outcome(ok, Value()) == EvalAny(env, items, SetDidMatch(before));
        if ok { RecordHit(slot); }
      }
    }

    method RecordHit(slot: Slot)
      modifies this
      ensures Value() == SetHit(old(Value()), slot)
    {
      match slot
      case SourceAddress => sourceAddressMatch := true;
      case SourcePort => sourcePortMatch := true;
      case DestinationAddress => destinationAddressMatch := true;
      case DestinationPort => destinationPortMatch := true;
    }

    method RunStages(env: Oracle, r: Rule)
      requires r.Default?
      modifies this
      ensures Value() == Stages(env, r, old(Value()))
      decreases r, 0
    {
      RunStage(env, SourceAddress, r.sourceAddressItems);
      RunStage(env, SourcePort, r.sourcePortItems);
      RunStage(env, DestinationAddress, r.destinationAddressItems);
      if !ignoreDestinationIPCIDRMatch {
        RunStage(env, DestinationAddress, r.destinationIPCIDRItems);
      }
      RunStage(env, DestinationPort, r.destinationPortItems);
    }

    /** abstractDefaultRule.Match */
    method MatchBody(env: Oracle, r: Rule) returns (ok: bool)
      requires r.Default?
      modifies this
      ensures Outcome(ok, Value()) == EvalBody(env, r, old(Value()))
      decreases r, 1
    {
      if NoItems(r) { return true; }
      RunStages(env, r);
      ok := MatchAll(env, r.items);
      if !ok { return r.invert; }
      if |r.sourceAddressItems| > 0 && !sourceAddressMatch { return r.invert; }
      if |r.sourcePortItems| > 0 && !sourcePortMatch { return r.invert; }
      if ((!ignoreDestinationIPCIDRMatch && |r.destinationIPCIDRItems| > 0) || |r.destinationAddressItems| > 0)
        && !destinationAddressMatch { return r.invert; }
      if |r.destinationPortItems| > 0 && !destinationPortMatch { return r.invert; }
      if !didMatch { return true; }
      return !r.invert;
    }

    method Match(env: Oracle, limit: bool, r: Rule) returns (ok: bool)
      modifies this
      ensures Outcome(ok, Value()) == EvalRule(env, limit, r, old(Value()))
      decreases r, 2
    {
      match r
      case Default(kind, _, _, _, _, _, _, _) =>
        if kind.HeadlessRule? {
          if NoItems(r) { return true; }
          if dnsFallback {
            ok := MatchAny(env, r.destinationIPCIDRItems);
            return;
          }
          if fakeIPFilter {
            ok := MatchAny(env, r.destinationAddressItems);
            return;
          }
        }
        if kind.DNSRule? && !limit {
          ignoreDestinationIPCIDRMatch := true;
          ok := MatchBody(env, r);
          ignoreDestinationIPCIDRMatch := false;
        } else {
          ok := MatchBody(env, r);
        }
      case Logical(kind, mode, invert, rules) =>
        if kind.HeadlessRule? && dnsFallback { return false; }
        ok := MatchSubRules(env, limit, mode, rules);
        ok := ok != invert;
    }

    /** abstractLogicalRule.Match before inversion. */
    method MatchSubRules(env: Oracle, limit: bool, mode: Mode, rules: seq<Rule>) returns (ok: bool)
      modifies this
      ensures Outcome(ok, Value()) == EvalRules(env, limit, mode, rules, old(Value()))
      decreases rules, 0
    {
      for i := 0 to |rules|
        invariant EvalRules(env, limit, mode, rules[i..], Value())
               == EvalRules(env, limit, mode, rules, old(Value()))
      {
        assert rules[i..][1..] == rules[i + 1..];
        ResetRuleCache();
        ok := Match(env, limit, rules[i]);
        if ok != mode.And? { return; }
      }
      return mode.And?;
    }
  }
}

/** What the options of a rule set mean, and the theorem that the rules built from them match
    exactly so. */
module RuleSetMeaning {
  import opened Wrappers
  import opened RuleModel
  import opened RuleSemantics
  import opened RuleSetBuild

  // ---- the meaning of options ----

  ghost predicate Passes(t: Option<Test>, f: Facts) { t.Some? ==> t.value(f) }

  ghost predicate Fires(t: Option<Test>, f: Facts) { t.Some? && t.value(f) }

  ghost predicate FiresParsed(t: Parsed<Test>, f: Facts) { t.Valid? && t.value(f) }

  /** The address set of an option: the list if there is one, else the prepared set. */
  ghost function AddressSet(list: Parsed<set<Addr>>, raw: Option<set<Addr>>): Option<set<Addr>> {
    if list.Valid? then Some(list.value) else if list.Absent? then raw else None
  }

  /** Conditions that must all hold; the WIFI ones only with a router. */
  ghost predicate PlainOptionsHold(router: bool, o: DefaultOptions, f: Facts) {
    Passes(o.network, f) && Passes(o.processName, f) && Passes(o.processPath, f) && Passes(o.packageName, f) &&
    (router ==> Passes(o.wifiSSID, f) && Passes(o.wifiBSSID, f))
  }

  ghost predicate AsksPlain(router: bool, o: DefaultOptions) {
    o.network.Some? || o.processName.Some? || o.processPath.Some? || o.packageName.Some? ||
    (router && (o.wifiSSID.Some? || o.wifiBSSID.Some?))
  }

  ghost predicate AsksSourcePort(o: DefaultOptions) { o.sourcePort.Some? || o.sourcePortRange.Valid? }

  ghost predicate AsksPort(o: DefaultOptions) { o.port.Some? || o.portRange.Valid? }

  ghost predicate AsksDomain(o: DefaultOptions) {
    o.domain.Some? || o.domainKeyword.Some? || o.domainRegex.Valid? || o.adGuardDomain.Some?
  }

  ghost predicate AsksDestination(o: DefaultOptions) { AsksDomain(o) || AddressSet(o.ipCIDR, o.ipSet).Some? }

  ghost predicate DomainHolds(o: DefaultOptions, f: Facts) {
    Fires(o.domain, f) || Fires(o.domainKeyword, f) || FiresParsed(o.domainRegex, f) || Fires(o.adGuardDomain, f)
  }

  /** One of each kind that is asked for: source address, source port, destination by domain or
      address, destination port. */
  ghost predicate GroupsHold(o: DefaultOptions, f: Facts, addrs: seq<Addr>) {
    var source, destination := AddressSet(o.sourceIPCIDR, o.sourceIPSet), AddressSet(o.ipCIDR, o.ipSet);
    (source.Some? ==> f.source.Some? && f.source.value in source.value) &&
    (AsksSourcePort(o) ==> Fires(o.sourcePort, f) || FiresParsed(o.sourcePortRange, f)) &&
    (AsksDestination(o) ==> DomainHolds(o, f) || (destination.Some? && exists a <- Targets(f, addrs, false) :: a in destination.value)) &&
    (AsksPort(o) ==> Fires(o.port, f) || FiresParsed(o.portRange, f))
  }

  /** A rule that asks for nothing always matches, even inverted. */
  ghost predicate DefaultOptionsHold(router: bool, o: DefaultOptions, f: Facts, addrs: seq<Addr>) {
    var asks := AsksPlain(router, o) || AddressSet(o.sourceIPCIDR, o.sourceIPSet).Some? || AsksSourcePort(o) || AsksDestination(o) || AsksPort(o);
    !asks || (PlainOptionsHold(router, o, f) && GroupsHold(o, f, addrs)) != o.invert
  }

  ghost predicate OptionsHold(router: bool, o: Options, f: Facts, addrs: seq<Addr>)
    decreases o
  {
    if o.typ == "" || o.typ == "default" then DefaultOptionsHold(router, o.defaults, f, addrs)
    else if o.mode == "and" then (forall i | 0 <= i < |o.rules| :: OptionsHold(router, o.rules[i], f, addrs)) != o.invert
    else (exists i | 0 <= i < |o.rules| :: OptionsHold(router, o.rules[i], f, addrs)) != o.invert
  }

  // ---- the groups of a built rule ----

  lemma {:induction false} AnyOfPlain(env: Oracle, t: Option<Test>, f: Facts, addrs: seq<Addr>)
    ensures AnyHolds(env, PlainOf(t), f, addrs) == Fires(t, f) && AllHold(env, PlainOf(t), f, addrs) == Passes(t, f)
  {
    if t.Some? { assert PlainOf(t)[0] in PlainOf(t); }
  }

  lemma {:induction false} AnyOfParsed(env: Oracle, t: Parsed<Test>, f: Facts, addrs: seq<Addr>)
    ensures AnyHolds(env, PlainOfParsed(t), f, addrs) == FiresParsed(t, f)
  {
    if t.Valid? { assert PlainOfParsed(t)[0] in PlainOfParsed(t); }
  }

  lemma {:induction false} AnyOfAddresses(env: Oracle, isSource: bool, list: Parsed<set<Addr>>, raw: Option<set<Addr>>, f: Facts, addrs: seq<Addr>)
    requires !list.Invalid?
    ensures var ipSet := AddressSet(list, raw); var items := CIDROf(isSource, list, raw);
            (|items| > 0 <==> ipSet.Some?) &&
            AnyHolds(env, items, f, addrs) ==
            (ipSet.Some? && if isSource then f.source.Some? && f.source.value in ipSet.value
                            else exists a <- Targets(f, addrs, false) :: a in ipSet.value)
  {
    var items := CIDROf(isSource, list, raw);
    if |items| > 0 {
      assert items[0] in items;
      if f.source.Some? { assert Listed(f.source) == [f.source.value] && [f.source.value][0] in [f.source.value]; }
    }
  }

  lemma {:induction false} Both(env: Oracle, xs: seq<Item>, ys: seq<Item>, f: Facts, addrs: seq<Addr>)
    ensures AnyHolds(env, xs + ys, f, addrs) == (AnyHolds(env, xs, f, addrs) || AnyHolds(env, ys, f, addrs))
    ensures AllHold(env, xs + ys, f, addrs) == (AllHold(env, xs, f, addrs) && AllHold(env, ys, f, addrs))
  {
    hide ItemHolds;
    assert forall item :: item in xs + ys <==> item in xs || item in ys;
  }

  function PlainGroup(router: bool, o: DefaultOptions): seq<Item> {
    PlainOf(o.network) + PlainOf(o.processName) + PlainOf(o.processPath) + PlainOf(o.packageName) +
    if router then PlainOf(o.wifiSSID) + PlainOf(o.wifiBSSID) else []
  }

  lemma {:induction false} PlainGroupHolds(env: Oracle, router: bool, o: DefaultOptions, f: Facts, addrs: seq<Addr>)
    ensures AllHold(env, PlainGroup(router, o), f, addrs) == PlainOptionsHold(router, o, f)
    ensures |PlainGroup(router, o)| > 0 <==> AsksPlain(router, o)
  {
    var a, b, c, d := PlainOf(o.network), PlainOf(o.processName), PlainOf(o.processPath), PlainOf(o.packageName);
    var wifi := if router then PlainOf(o.wifiSSID) + PlainOf(o.wifiBSSID) else [];
    AnyOfPlain(env, o.network, f, addrs);
    AnyOfPlain(env, o.processName, f, addrs);
    AnyOfPlain(env, o.processPath, f, addrs);
    AnyOfPlain(env, o.packageName, f, addrs);
    AnyOfPlain(env, o.wifiSSID, f, addrs);
    AnyOfPlain(env, o.wifiBSSID, f, addrs);
    Both(env, PlainOf(o.wifiSSID), PlainOf(o.wifiBSSID), f, addrs);
    Both(env, a, b, f, addrs);
    Both(env, a + b, c, f, addrs);
    Both(env, a + b + c, d, f, addrs);
    Both(env, a + b + c + d, wifi, f, addrs);
    hide AnyHolds;
  }

  function DomainGroup(o: DefaultOptions): seq<Item> {
    PlainOf(o.domain) + PlainOf(o.domainKeyword) + PlainOfParsed(o.domainRegex) + PlainOf(o.adGuardDomain)
  }

  lemma {:induction false} DomainGroupHolds(env: Oracle, o: DefaultOptions, f: Facts, addrs: seq<Addr>)
    ensures AnyHolds(env, DomainGroup(o), f, addrs) == DomainHolds(o, f) && (|DomainGroup(o)| > 0 <==> AsksDomain(o))
  {
    var a, b, c, d := PlainOf(o.domain), PlainOf(o.domainKeyword), PlainOfParsed(o.domainRegex), PlainOf(o.adGuardDomain);
    AnyOfPlain(env, o.domain, f, addrs);
    AnyOfPlain(env, o.domainKeyword, f, addrs);
    AnyOfParsed(env, o.domainRegex, f, addrs);
    AnyOfPlain(env, o.adGuardDomain, f, addrs);
    Both(env, a, b, f, addrs);
    Both(env, a + b, c, f, addrs);
    Both(env, a + b + c, d, f, addrs);
    hide AnyHolds, AllHold;
  }

  lemma {:induction false} PortGroupHolds(env: Oracle, port: Option<Test>, range: Parsed<Test>, f: Facts, addrs: seq<Addr>)
    ensures var items := PlainOf(port) + PlainOfParsed(range);
            AnyHolds(env, items, f, addrs) == (Fires(port, f) || FiresParsed(range, f)) && (|items| > 0 <==> port.Some? || range.Valid?)
  {
    AnyOfPlain(env, port, f, addrs);
    AnyOfParsed(env, range, f, addrs);
    Both(env, PlainOf(port), PlainOfParsed(range), f, addrs);
    hide AnyHolds, AllHold;
  }

  lemma {:induction false} BuiltDefaultMeans(env: Oracle, router: bool, o: DefaultOptions, f: Facts, addrs: seq<Addr>)
    requires BuildDefault(router, o).Ok?
    ensures Holds(env, false, BuildDefault(router, o).value, f, addrs) == DefaultOptionsHold(router, o, f, addrs)
  {
    var r := BuildDefault(router, o).value;
    PlainGroupHolds(env, router, o, f, addrs);
    DomainGroupHolds(env, o, f, addrs);
    AnyOfAddresses(env, true, o.sourceIPCIDR, o.sourceIPSet, f, addrs);
    AnyOfAddresses(env, false, o.ipCIDR, o.ipSet, f, addrs);
    PortGroupHolds(env, o.sourcePort, o.sourcePortRange, f, addrs);
    PortGroupHolds(env, o.port, o.portRange, f, addrs);
    assert r.items == PlainGroup(router, o) && r.destinationAddressItems == DomainGroup(o);
    hide AnyHolds, AllHold, PlainOf, PlainOfParsed, CIDROf, PlainGroup, DomainGroup, AddressSet, Fires, FiresParsed, PlainOptionsHold, AsksPlain, AsksDomain, DomainHolds;
  }

  // ---- whole trees ----

  lemma {:induction false} BuiltAllAt(router: bool, os: seq<Options>)
    requires BuildAll(router, os).Ok?
    ensures var rules := BuildAll(router, os).value;
            |rules| == |os| && forall i | 0 <= i < |os| :: Build(router, os[i]) == Ok(rules[i])
    decreases os
  {
    hide Build;
    if os != [] { BuiltAllAt(router, os[1..]); }
  }

  lemma {:induction false} BuiltMeans(env: Oracle, router: bool, o: Options, f: Facts, addrs: seq<Addr>)
    requires Build(router, o).Ok?
    ensures Holds(env, false, Build(router, o).value, f, addrs) == OptionsHold(router, o, f, addrs)
    decreases o
  {
    var r := Build(router, o).value;
    if o.typ == "" || o.typ == "default" {
      BuiltDefaultMeans(env, router, o.defaults, f, addrs);
      hide BuildDefault, DefaultOptionsHold;
    } else {
      BuiltAllAt(router, o.rules);
      forall i | 0 <= i < |o.rules|
        ensures Holds(env, false, r.rules[i], f, addrs) == OptionsHold(router, o.rules[i], f, addrs)
      {
        BuiltMeans(env, router, o.rules[i], f, addrs);
      }
      hide DefaultHolds;
      assert forall sub :: sub in r.rules <==> exists i | 0 <= i < |r.rules| :: r.rules[i] == sub;
    }
  }

  /** No GeoIP and no rule sets. */
  ghost predicate SimpleItems(items: seq<Item>) { forall item <- items :: item.Plain? || item.IPCIDR? }

  lemma {:induction false} DefaultIsPermitted(router: bool, o: DefaultOptions)
    requires BuildDefault(router, o).Ok?
    ensures Permitted(GeoUse(false, false), BuildDefault(router, o).value)
  {
    BuiltDefaultIsGrouped(router, o);
    var r := BuildDefault(router, o).value;
    hide BuildDefault;
    assert SimpleItems(r.items) && SimpleItems(r.sourceAddressItems) && SimpleItems(r.sourcePortItems);
    assert SimpleItems(r.destinationAddressItems) && SimpleItems(r.destinationIPCIDRItems) && SimpleItems(r.destinationPortItems);
  }

  lemma {:induction false} BuiltIsPermitted(router: bool, o: Options)
    requires Build(router, o).Ok?
    ensures Permitted(GeoUse(false, false), Build(router, o).value)
    decreases o
  {
    var r := Build(router, o).value;
    if o.typ == "" || o.typ == "default" {
      DefaultIsPermitted(router, o.defaults);
      hide BuildDefault;
    } else {
      BuiltAllAt(router, o.rules);
      forall i | 0 <= i < |o.rules| ensures Permitted(GeoUse(false, false), r.rules[i]) { BuiltIsPermitted(router, o.rules[i]); }
    }
  }

  /** A built rule, evaluated from a reset cache, matches exactly as its options say. */
  lemma {:induction false} BuiltRuleMatchesOptions(env: Oracle, router: bool, o: Options, c: Context)
    requires Build(router, o).Ok? && c.cache == EMPTY_CACHE
    requires !c.ignoreDestinationIPCIDRMatch && !c.dnsFallback && !c.fakeIPFilter
    ensures EvalRule(env, false, Build(router, o).value, c).ok == OptionsHold(router, o, c.facts, c.addresses)
  {
    hide Build, EvalRule, Holds, OptionsHold, Permitted;
    BuiltIsPermitted(router, o);
    BuiltMeans(env, router, o, c.facts, c.addresses);
    CachedEvaluatorIsBoolean(env, GeoUse(false, false), false, Build(router, o).value, c);
  }

  // ---- which options build ----

  ghost predicate AsksAnything(o: DefaultOptions) {
    o.queryType || o.network.Some? || o.processName.Some? || o.processPath.Some? || o.packageName.Some? ||
    o.wifiSSID.Some? || o.wifiBSSID.Some? || o.domain.Some? || o.domainKeyword.Some? || o.adGuardDomain.Some? ||
    o.sourceIPSet.Some? || o.ipSet.Some? || o.sourcePort.Some? || o.port.Some? ||
    !(o.domainRegex.Absent? && o.sourceIPCIDR.Absent? && o.ipCIDR.Absent? && o.sourcePortRange.Absent? && o.portRange.Absent?)
  }

  /** Known types and modes, something asked for everywhere, and no list that fails to parse. */
  ghost predicate Buildable(o: Options)
    decreases o
  {
    if o.typ == "" || o.typ == "default" then
      AsksAnything(o.defaults) && !o.defaults.domainRegex.Invalid? && !o.defaults.sourceIPCIDR.Invalid? &&
      !o.defaults.ipCIDR.Invalid? && !o.defaults.sourcePortRange.Invalid? && !o.defaults.portRange.Invalid?
    else o.typ == "logical" && (o.mode == "and" || o.mode == "or") && o.rules != [] && forall i | 0 <= i < |o.rules| :: Buildable(o.rules[i])
  }

  lemma {:induction false} BuildsIff(router: bool, o: Options)
    ensures Build(router, o).Ok? <==> Buildable(o)
    decreases o, 1
  {
    if o.typ == "logical" {
      BuildsAllIff(router, o.rules);
      if Buildable(o) {
        forall i | 0 <= i < |o.rules| ensures IsValid(o.rules[i]) { BuildableIsValid(o.rules[i]); }
      }
    }
  }

  lemma {:induction false} BuildsAllIff(router: bool, os: seq<Options>)
    ensures BuildAll(router, os).Ok? <==> forall i | 0 <= i < |os| :: Buildable(os[i])
    decreases os, 0
  {
    if os != [] {
      BuildsIff(router, os[0]);
      BuildsAllIff(router, os[1..]);
      hide Build, Buildable;
      assert forall i | 0 < i < |os| :: os[i] == os[1..][i - 1];
      assert forall i | 0 <= i < |os[1..]| :: os[1..][i] == os[i + 1];
    }
  }

  lemma {:induction false} BuildableIsValid(o: Options)
    requires Buildable(o)
    ensures IsValid(o)
    decreases o
  {
    if o.typ == "logical" {
      forall i | 0 <= i < |o.rules| ensures IsValid(o.rules[i]) { BuildableIsValid(o.rules[i]); }
    }
  }
}

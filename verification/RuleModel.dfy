/** The rule engine as values: connection context, rule items, rule trees, and the
    evaluator written as a function that threads the mutable match cache. */
module RuleModel {
  import opened Wrappers

  type Addr = nat

  datatype Destination = IPDestination(addr: Addr) | FqdnDestination(name: string) | NoDestination

  /** What rule evaluation reads and never writes. */
  datatype Facts = Facts(
    inbound: string,
    ipVersion: nat,
    network: string,
    source: Option<Addr>,
    sourcePort: nat,
    destination: Destination,
    destinationPort: nat,
    user: string,
    outbound: string,
    protocol: string,
    sniffHost: string,
    client: string,
    dnsMode: string,
    domain: string,
    process: string,
    queryType: nat)

  /** The fields cleared by ResetRuleCache. */
  datatype Cache = Cache(
    ipcidrMatchSource: bool,
    ipcidrAcceptEmpty: bool,
    sourceAddressMatch: bool,
    sourcePortMatch: bool,
    destinationAddressMatch: bool,
    destinationPortMatch: bool,
    didMatch: bool)

  const EMPTY_CACHE := Cache(false, false, false, false, false, false, false)

  /** The value of an InboundContext. */
  datatype Context = Context(
    facts: Facts,
    addresses: seq<Addr>,
    sourceGeoIPCode: string,
    geoIPCode: string,
    cache: Cache,
    ignoreDestinationIPCIDRMatch: bool,
    dnsFallback: bool,
    fakeIPFilter: bool)

  function Reset(c: Context): Context { c.(cache := EMPTY_CACHE) }

  /** The address classifier and the GeoIP database (no reader: every lookup is ""). */
  datatype Oracle = Oracle(isPublic: Addr -> bool, lookup: Addr -> string)

  function CodeOf(env: Oracle, a: Addr): string {
    if !env.isPublic(a) then "private" else env.lookup(a)
  }

  /** Plain stands for every item whose verdict is a function of the facts. */
  datatype Item =
    | Plain(test: Facts -> bool)
    | IPCIDR(isSource: bool, ipSet: set<Addr>)
    | IPIsPrivate(isSource: bool)
    | GeoIP(isSource: bool, codes: set<string>)
    | RuleSetItem(matchSource: bool, acceptEmpty: bool, sets: seq<RuleSet>)

  ghost predicate PlainItems(items: seq<Item>) { forall item <- items :: item.Plain? }

  datatype RuleSet = RuleSet(rules: seq<Rule>, containsIPCIDRRule: bool)

  function Flatten(sets: seq<RuleSet>): seq<Rule> {
    if sets == [] then [] else sets[0].rules + Flatten(sets[1..])
  }

  datatype Kind = RouteRule | DNSRule | HeadlessRule

  datatype Mode = And | Or

  datatype Rule =
    | Default(
        kind: Kind,
        invert: bool,
        items: seq<Item>,
        sourceAddressItems: seq<Item>,
        sourcePortItems: seq<Item>,
        destinationAddressItems: seq<Item>,
        destinationIPCIDRItems: seq<Item>,
        destinationPortItems: seq<Item>)
    | Logical(kind: Kind, mode: Mode, invert: bool, rules: seq<Rule>)

  predicate NoItems(r: Rule)
    requires r.Default?
  {
    |r.items| == 0 && |r.sourceAddressItems| == 0 && |r.sourcePortItems| == 0 &&
    |r.destinationAddressItems| == 0 && |r.destinationIPCIDRItems| == 0 && |r.destinationPortItems| == 0
  }

  /** The four cached verdicts, one per item group. */
  datatype Slot = SourceAddress | SourcePort | DestinationAddress | DestinationPort

  predicate Hit(cache: Cache, slot: Slot) {
    match slot
    case SourceAddress => cache.sourceAddressMatch
    case SourcePort => cache.sourcePortMatch
    case DestinationAddress => cache.destinationAddressMatch
    case DestinationPort => cache.destinationPortMatch
  }

  function Mark(cache: Cache, slot: Slot): Cache {
    match slot
    case SourceAddress => cache.(sourceAddressMatch := true)
    case SourcePort => cache.(sourcePortMatch := true)
    case DestinationAddress => cache.(destinationAddressMatch := true)
    case DestinationPort => cache.(destinationPortMatch := true)
  }

  function SetDidMatch(c: Context): Context { c.(cache := c.cache.(didMatch := true)) }

  function SetHit(c: Context, slot: Slot): Context { c.(cache := Mark(c.cache, slot)) }

  datatype Outcome = Outcome(ok: bool, ctx: Context)

  // ---- items ----

  /** The address an item inspects when it is valid. */
  function Endpoint(f: Facts, isSource: bool): Option<Addr> {
    if isSource then f.source
    else match f.destination
      case IPDestination(a) => Some(a)
      case _ => None
  }

  predicate Contains(ipSet: set<Addr>, a: Option<Addr>) { a.Some? && a.value in ipSet }

  predicate AnyIn(ipSet: set<Addr>, addrs: seq<Addr>) { exists a <- addrs :: a in ipSet }

  predicate MatchIPCIDR(isSource: bool, ipSet: set<Addr>, c: Context) {
    if isSource || c.cache.ipcidrMatchSource then Contains(ipSet, c.facts.source)
    else if c.facts.destination.IPDestination? then c.facts.destination.addr in ipSet
    else if |c.addresses| > 0 then AnyIn(ipSet, c.addresses)
    else c.cache.ipcidrAcceptEmpty
  }

  predicate MatchIPIsPrivate(env: Oracle, isSource: bool, c: Context) {
    match Endpoint(c.facts, isSource)
    case Some(a) => !env.isPublic(a)
    case None => !isSource && exists a <- c.addresses :: !env.isPublic(a)
  }

  function CachedCode(c: Context, isSource: bool): string {
    if isSource then c.sourceGeoIPCode else c.geoIPCode
  }

  function StoreCode(c: Context, isSource: bool, code: string): Context {
    if isSource then c.(sourceGeoIPCode := code) else c.(geoIPCode := code)
  }

  function GeoIPOne(env: Oracle, isSource: bool, codes: set<string>, a: Addr, c: Context): Outcome {
    var code := CodeOf(env, a);
    if code == "" then Outcome(false, c)
    else Outcome(code in codes, StoreCode(c, isSource, code))
  }

  function GeoIPAny(env: Oracle, isSource: bool, codes: set<string>, addrs: seq<Addr>, c: Context): Outcome {
    if addrs == [] then Outcome(false, c)
    else
      var o := GeoIPOne(env, isSource, codes, addrs[0], c);
      if o.ok then o else GeoIPAny(env, isSource, codes, addrs[1..], o.ctx)
  }

  function EvalGeoIP(env: Oracle, isSource: bool, codes: set<string>, c: Context): Outcome {
    if CachedCode(c, isSource) != "" then Outcome(CachedCode(c, isSource) in codes, c)
    else match Endpoint(c.facts, isSource)
      case Some(a) => GeoIPOne(env, isSource, codes, a, c)
      case None => GeoIPAny(env, isSource, codes, c.addresses, c)
  }

  function EvalItem(env: Oracle, item: Item, c: Context): Outcome
    decreases item, 1
  {
    match item
    case Plain(test) => Outcome(test(c.facts), c)
    case IPCIDR(isSource, ipSet) => Outcome(MatchIPCIDR(isSource, ipSet, c), c)
    case IPIsPrivate(isSource) => Outcome(MatchIPIsPrivate(env, isSource, c), c)
    case GeoIP(isSource, codes) => EvalGeoIP(env, isSource, codes, c)
    case RuleSetItem(matchSource, acceptEmpty, sets) =>
      EvalSets(env, sets, SetSourceFlags(c, matchSource, acceptEmpty))
  }

  function SetSourceFlags(c: Context, matchSource: bool, acceptEmpty: bool): Context {
    c.(cache := c.cache.(ipcidrMatchSource := matchSource, ipcidrAcceptEmpty := acceptEmpty))
  }

  /** Some rule set of the list matches. */
  function EvalSets(env: Oracle, sets: seq<RuleSet>, c: Context): Outcome
    decreases sets, 0
  {
    if sets == [] then Outcome(false, c)
    else
      var o := EvalSet(env, sets[0].rules, c);
      if o.ok then o else EvalSets(env, sets[1..], o.ctx)
  }

  /** Rules of one set are tried in order on the same cache. */
  function EvalSet(env: Oracle, rules: seq<Rule>, c: Context): Outcome
    decreases rules, 0
  {
    if rules == [] then Outcome(false, c)
    else
      var o := EvalRule(env, false, rules[0], c);
      if o.ok then o else EvalSet(env, rules[1..], o.ctx)
  }

  // ---- item groups ----

  function EvalAny(env: Oracle, items: seq<Item>, c: Context): Outcome
    decreases items, 0
  {
    if items == [] then Outcome(false, c)
    else
      var o := EvalItem(env, items[0], c);
      if o.ok then o else EvalAny(env, items[1..], o.ctx)
  }

  function EvalAll(env: Oracle, items: seq<Item>, c: Context): Outcome
    decreases items, 0
  {
    if items == [] then Outcome(true, c)
    else
      var o := EvalItem(env, items[0], if items[0].RuleSetItem? then c else SetDidMatch(c));
      if o.ok then EvalAll(env, items[1..], o.ctx) else o
  }

  /** One group: skipped when empty or already hit. */
  function Stage(env: Oracle, slot: Slot, items: seq<Item>, c: Context): Context
    decreases items, 1
  {
    if |items| == 0 || Hit(c.cache, slot) then c
    else
      var o := EvalAny(env, items, SetDidMatch(c));
      if o.ok then SetHit(o.ctx, slot) else o.ctx
  }

  // ---- rules ----

  /** All five stages of a default rule. */
  function Stages(env: Oracle, r: Rule, c: Context): Context
    requires r.Default?
    decreases r, 0
  {
    var c1 := Stage(env, SourceAddress, r.sourceAddressItems, c);
    var c2 := Stage(env, SourcePort, r.sourcePortItems, c1);
    var c3 := Stage(env, DestinationAddress, r.destinationAddressItems, c2);
    var c4 := if c3.ignoreDestinationIPCIDRMatch then c3
              else Stage(env, DestinationAddress, r.destinationIPCIDRItems, c3);
    Stage(env, DestinationPort, r.destinationPortItems, c4)
  }

  predicate SlotsSatisfied(r: Rule, c: Context)
    requires r.Default?
  {
    (|r.sourceAddressItems| > 0 ==> c.cache.sourceAddressMatch) &&
    (|r.sourcePortItems| > 0 ==> c.cache.sourcePortMatch) &&
    ((!c.ignoreDestinationIPCIDRMatch && |r.destinationIPCIDRItems| > 0) || |r.destinationAddressItems| > 0
     ==> c.cache.destinationAddressMatch) &&
    (|r.destinationPortItems| > 0 ==> c.cache.destinationPortMatch)
  }

  /** abstractDefaultRule.Match */
  function EvalBody(env: Oracle, r: Rule, c: Context): Outcome
    requires r.Default?
    decreases r, 1
  {
    if NoItems(r) then Outcome(true, c)
    else
      var o := EvalAll(env, r.items, Stages(env, r, c));
      if !o.ok || !SlotsSatisfied(r, o.ctx) then Outcome(r.invert, o.ctx)
      else if !o.ctx.cache.didMatch then Outcome(true, o.ctx)
      else Outcome(!r.invert, o.ctx)
  }

  /** Match of every rule type; limit selects MatchAddressLimit for DNS rules. */
  function EvalRule(env: Oracle, limit: bool, r: Rule, c: Context): Outcome
    decreases r, 2
  {
    match r
    case Default(kind, _, _, _, _, _, _, _) =>
      if kind.HeadlessRule? && NoItems(r) then Outcome(true, c)
      else if kind.HeadlessRule? && c.dnsFallback then EvalAny(env, r.destinationIPCIDRItems, c)
      else if kind.HeadlessRule? && c.fakeIPFilter then EvalAny(env, r.destinationAddressItems, c)
      else if kind.DNSRule? && !limit then
        var o := EvalBody(env, r, c.(ignoreDestinationIPCIDRMatch := true));
        Outcome(o.ok, o.ctx.(ignoreDestinationIPCIDRMatch := false))
      else EvalBody(env, r, c)
    case Logical(kind, mode, invert, rules) =>
      if kind.HeadlessRule? && c.dnsFallback then Outcome(false, c)
      else
        var o := EvalRules(env, limit, mode, rules, c);
        Outcome(o.ok != invert, o.ctx)
  }

  /** Conjunction or disjunction of sub-rules, each from a reset cache, stopping at the
      first verdict that decides. */
  function EvalRules(env: Oracle, limit: bool, mode: Mode, rules: seq<Rule>, c: Context): Outcome
    decreases rules, 0
  {
    if rules == [] then Outcome(mode.And?, c)
    else
      var o := EvalRule(env, limit, rules[0], Reset(c));
      if o.ok == mode.And? then EvalRules(env, limit, mode, rules[1..], o.ctx) else o
  }
}

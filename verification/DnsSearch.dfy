/** The resumable search through the DNS rules: matchDNS, matchFallbackRules, and the two
    loops exchangeFunc and lookupFunc. */
module DnsSearch {
  import opened Wrappers
  import opened RuleModel
  import opened RuleEngine
  import Blindness
  import Frames
  import LazyResolution
  import DnsRules

  /** excluded: the fake-IP store's exclude rule matches the queried domain. */
  datatype Transport = Transport(name: string, isFakeIP: bool, isRcode: bool, excluded: bool)

  datatype Fallback = Fallback(
    acceptResult: bool, matchAll: bool, invert: bool,
    items: seq<Item>, destinationAddressItems: seq<Item>, server: string)

  datatype Entry = Entry(rule: Rule, server: string, allowFallthrough: bool, fallbacks: seq<Fallback>)

  datatype Config = Config(
    env: Oracle, rules: seq<Entry>, transports: map<string, Transport>, defaultTransport: Transport)

  /** What the DNS client reports for one upstream query: a response with its addresses
      (None when they cannot be extracted) and whether the client put it to the check; a
      cached rejection; or another error. */
  datatype Reply =
    | Response(success: bool, addresses: Option<seq<Addr>>, checked: bool)
    | Empty
    | RejectedFromCache
    | Failed

  datatype Origin = ByRule(index: nat) | ByFallback(rule: nat) | ByDefault

  datatype Query = Query(origin: Origin, transport: Transport)

  /** One upstream query per number. */
  type Client = nat -> Reply

  predicate WithAddressLimit(e: Entry) { LazyResolution.ContainsIPCIDR(e.rule) }

  /** The transport may be used for this request. */
  predicate Allowed(t: Transport, allowFakeIP: bool) { !t.isFakeIP || (allowFakeIP && !t.excluded) }

  // ---- which rules a search consults ----

  /** Everything about rule j except whether it matches. */
  predicate Eligible(g: Config, allowFakeIP: bool, addressQuery: bool, j: nat)
    requires j < |g.rules|
  {
    (WithAddressLimit(g.rules[j]) ==> addressQuery) &&
    g.rules[j].server in g.transports && Allowed(g.transports[g.rules[j].server], allowFakeIP)
  }

  /** Rule j matches a connection that has no answer yet. */
  predicate StaticMatch(g: Config, start: Context, j: nat)
    requires j < |g.rules|
  {
    EvalRule(g.env, false, g.rules[j].rule, Reset(start)).ok
  }

  predicate Usable(g: Config, start: Context, allowFakeIP: bool, addressQuery: bool, j: nat)
    requires j < |g.rules|
  {
    Eligible(g, allowFakeIP, addressQuery, j) && StaticMatch(g, start, j)
  }

  /** The usable rules from i on, in increasing order. */
  function UsableFrom(g: Config, start: Context, allowFakeIP: bool, addressQuery: bool, i: nat): (us: seq<nat>)
    requires i <= |g.rules|
    ensures forall k | 0 <= k < |us| :: i <= us[k] < |g.rules| && Usable(g, start, allowFakeIP, addressQuery, us[k])
    decreases |g.rules| - i
  {
    if i == |g.rules| then []
    else
      var rest := UsableFrom(g, start, allowFakeIP, addressQuery, i + 1);
      if Usable(g, start, allowFakeIP, addressQuery, i) then [i] + rest else rest
  }

  lemma {:induction false} UsableFromIsSorted(g: Config, start: Context, allowFakeIP: bool, addressQuery: bool, i: nat)
    requires i <= |g.rules|
    ensures var us := UsableFrom(g, start, allowFakeIP, addressQuery, i);
            (forall k, l | 0 <= k < l < |us| :: us[k] < us[l]) &&
            (forall j | i <= j < |g.rules| && Usable(g, start, allowFakeIP, addressQuery, j) :: j in us) &&
            |us| <= |g.rules| - i
    decreases |g.rules| - i
  {
    hide Usable;
    if i < |g.rules| {
      UsableFromIsSorted(g, start, allowFakeIP, addressQuery, i + 1);
      var us, rest := UsableFrom(g, start, allowFakeIP, addressQuery, i), UsableFrom(g, start, allowFakeIP, addressQuery, i + 1);
      if Usable(g, start, allowFakeIP, addressQuery, i) {
        assert us == [i] + rest && i in us;
        forall j | i < j < |g.rules| && Usable(g, start, allowFakeIP, addressQuery, j) ensures j in us { assert j in rest; }
      } else {
        assert us == rest;
      }
    }
  }

  // ---- the shared context during a search ----

  ghost predicate Shaped(g: Config, known: bool) {
    forall j | 0 <= j < |g.rules| :: DnsRules.DNSShape(known, g.rules[j].rule)
  }

  /** The context a search started in and the context now differ only in the cache, in the
      addresses of answers seen, and in the code caches. */
  ghost predicate Drifted(env: Oracle, start: Context, c: Context) {
    c == start.(cache := c.cache, addresses := c.addresses, geoIPCode := c.geoIPCode, sourceGeoIPCode := c.sourceGeoIPCode) &&
    (c.sourceGeoIPCode == start.sourceGeoIPCode ||
     (start.sourceGeoIPCode == "" && Blindness.SourceCodeIn(env, start.facts, c.sourceGeoIPCode)))
  }

  ghost predicate Searchable(start: Context) {
    !start.ignoreDestinationIPCIDRMatch && !start.dnsFallback && !start.fakeIPFilter
  }

  lemma {:induction false} DriftedIsAlike(env: Oracle, start: Context, c: Context)
    requires Drifted(env, start, c)
    ensures Blindness.Alike(env, Blindness.Shared(false, false), Reset(start), Reset(c))
  {
  }

  lemma DriftStarts(env: Oracle, start: Context)
    ensures Drifted(env, start, start)
  {
  }

  lemma {:induction false} DriftContinues(env: Oracle, start: Context, c: Context, c': Context, addresses: seq<Addr>)
    requires Drifted(env, start, c)
    requires Frames.Changes(env, start.facts.source.Some?, Reset(c), c') || Frames.Changes(env, start.facts.source.Some?, c, c')
    ensures Drifted(env, start, c') && Drifted(env, start, c'.(addresses := addresses))
  {
  }

  /** Answers seen earlier in the search never change which later rules match, and the first
      check leaves the destination code alone. */
  lemma {:induction false} EarlierAnswersDoNotMatter(g: Config, start: Context, c: Context, j: nat)
    requires j < |g.rules| && Shaped(g, start.facts.source.Some?) && Searchable(start) && Drifted(g.env, start, c)
    ensures EvalRule(g.env, false, g.rules[j].rule, Reset(c)).ok == StaticMatch(g, start, j)
    ensures Drifted(g.env, start, EvalRule(g.env, false, g.rules[j].rule, Reset(c)).ctx)
    ensures EvalRule(g.env, false, g.rules[j].rule, Reset(c)).ctx.geoIPCode == c.geoIPCode
  {
    var v := DnsRules.SearchView(start);
    DnsRules.FirstCheckIsBlind(v, g.rules[j].rule);
    DriftedIsAlike(g.env, start, c);
    Blindness.RuleIsBlind(g.env, v, false, g.rules[j].rule, Reset(start), Reset(c));
    DnsRules.ShapeIsSafe(start.facts.source.Some?, g.rules[j].rule);
    Frames.RuleChanges(g.env, start.facts.source.Some?, false, g.rules[j].rule, Reset(c));
    DriftContinues(g.env, start, c, EvalRule(g.env, false, g.rules[j].rule, Reset(c)).ctx, c.addresses);
  }

  // ---- matchDNS ----

  /** Finds the next usable rule after index (-1: from the start); None means the default
      transport. before is the context in which the found rule was matched. */
  method MatchDNS(g: Config, m: InboundContext, allowFakeIP: bool, index: int, addressQuery: bool, ghost start: Context)
      returns (found: Option<nat>, transport: Transport, ghost before: Context)
    requires -1 <= index < |g.rules|
    requires Shaped(g, start.facts.source.Some?) && Searchable(start) && Drifted(g.env, start, m.Value())
    modifies m
    ensures Drifted(g.env, start, m.Value())
    ensures var us := UsableFrom(g, start, allowFakeIP, addressQuery, index + 1);
            if us == [] then found == None && transport == g.defaultTransport
            else found == Some(us[0]) && transport == g.transports[g.rules[us[0]].server]
    ensures m.Value().geoIPCode == before.geoIPCode == old(m.Value()).geoIPCode
    ensures found.Some? ==> index < found.value < |g.rules| && Drifted(g.env, start, before) &&
                            m.Value() == EvalRule(g.env, false, g.rules[found.value].rule, Reset(before)).ctx
  {
    hide EvalRule, Drifted, Shaped, Searchable;
    var i := index + 1;
    before := m.Value();
    while i < |g.rules|
      invariant index + 1 <= i <= |g.rules|
      invariant Drifted(g.env, start, m.Value())
      invariant m.Value().geoIPCode == before.geoIPCode == old(m.Value()).geoIPCode
      invariant UsableFrom(g, start, allowFakeIP, addressQuery, i)
             == UsableFrom(g, start, allowFakeIP, addressQuery, index + 1)
    {
      var e := g.rules[i];
      if !(WithAddressLimit(e) && !addressQuery) {
        before := m.Value();
        EarlierAnswersDoNotMatter(g, start, before, i);
        m.ResetRuleCache();
        var ok := m.Match(g.env, false, e.rule);
        if ok && e.server in g.transports {
          var t := g.transports[e.server];
          if !(t.isFakeIP && (!allowFakeIP || t.excluded)) {
            return Some(i), t, before;
          }
        }
      }
      i := i + 1;
    }
    return None, g.defaultTransport, before;
  }

  // ---- fallback rules ----

  const NO_FACTS := Facts("", 0, "", None, 0, NoDestination, 0, "", "", "", "", "", "", "", "", 0)

  function FallbackContext(addrs: seq<Addr>): Context {
    Context(NO_FACTS, addrs, "", "", EMPTY_CACHE, false, true, false)
  }

  function EvalEach(env: Oracle, items: seq<Item>, c: Context): Outcome {
    if items == [] then Outcome(true, c)
    else
      var o := EvalItem(env, items[0], c);
      if o.ok then EvalEach(env, items[1..], o.ctx) else o
  }

  /** FallbackRule.Match */
  function EvalFallback(env: Oracle, fb: Fallback, c: Context): Outcome {
    if fb.matchAll then Outcome(true, c)
    else
      var o := EvalEach(env, fb.items, c);
      if !o.ok then Outcome(fb.invert, o.ctx)
      else
        var q := EvalAny(env, fb.destinationAddressItems, o.ctx);
        Outcome(q.ok != fb.invert, q.ctx)
  }

  /** Keep the answer; go on with the next DNS rule; or ask another server. */
  datatype Choice = Keep | GoOn | Ask(transport: Transport)

  function ChooseFallback(g: Config, fbs: seq<Fallback>, allowFakeIP: bool, c: Context): Choice {
    if fbs == [] then Keep
    else
      var o := EvalFallback(g.env, fbs[0], Reset(c));
      if o.ok && fbs[0].acceptResult then Keep
      else if o.ok && fbs[0].server == "" then GoOn
      else if o.ok && fbs[0].server in g.transports && Allowed(g.transports[fbs[0].server], allowFakeIP)
      then Ask(g.transports[fbs[0].server])
      else ChooseFallback(g, fbs[1..], allowFakeIP, o.ctx)
  }

  method MatchFallback(env: Oracle, m: InboundContext, fb: Fallback) returns (ok: bool)
    modifies m
    ensures Outcome(ok, m.Value()) == EvalFallback(env, fb, old(m.Value()))
  {
    if fb.matchAll { return true; }
    for i := 0 to |fb.items|
      invariant EvalEach(env, fb.items[i..], m.Value()) == EvalEach(env, fb.items, old(m.Value()))
    {
      assert fb.items[i..][1..] == fb.items[i + 1..];
      ok := m.MatchItem(env, fb.items[i]);
      if !ok { return fb.invert; }
    }
    ok := m.MatchAny(env, fb.destinationAddressItems);
    return if ok then !fb.invert else fb.invert;
  }

  method MatchFallbackRules(g: Config, fbs: seq<Fallback>, addrs: seq<Addr>, allowFakeIP: bool) returns (choice: Choice)
    ensures choice == ChooseFallback(g, fbs, allowFakeIP, FallbackContext(addrs))
  {
    var m := new InboundContext(NO_FACTS, true, false);
    m.destinationAddresses := addrs;
    for i := 0 to |fbs|
      invariant ChooseFallback(g, fbs[i..], allowFakeIP, m.Value())
             == ChooseFallback(g, fbs, allowFakeIP, FallbackContext(addrs))
    {
      assert fbs[i..][1..] == fbs[i + 1..];
      m.ResetRuleCache();
      var ok := MatchFallback(g.env, m, fbs[i]);
      if ok {
        if fbs[i].acceptResult { return Keep; }
        if fbs[i].server == "" { return GoOn; }
        if fbs[i].server in g.transports {
          var t := g.transports[fbs[i].server];
          if !(t.isFakeIP && (!allowFakeIP || t.excluded)) { return Ask(t); }
        }
      }
    }
    return Keep;
  }

  // ---- the search as a fold over the usable rules ----

  datatype Judgement = Good | Rejected | Error

  /** The client's report, given the verdict of the address check if there was one. */
  function Judge(limit: bool, reply: Reply, accepted: bool): Judgement {
    match reply
    case Response(_, _, checked) => if limit && checked && !accepted then Rejected else Good
    case Empty => Good
    case RejectedFromCache => if limit then Rejected else Error
    case Failed => Error
  }

  function AddressesOf(reply: Reply): seq<Addr> {
    if reply.Response? && reply.addresses.Some? then reply.addresses.value else []
  }

  /** The verdict logged for query n. */
  predicate At(verdicts: seq<bool>, n: nat) { n < |verdicts| && verdicts[n] }

  /** The queries made, whether the search ends without error, the reply it ends with, and
      whether it reports a fake-IP answer. */
  datatype Run = Run(queries: seq<Query>, ok: bool, reply: Reply, fake: bool)

  function Before(queries: seq<Query>, run: Run): Run { run.(queries := queries + run.queries) }

  /** What exchangeFunc does after asking rule e over t. */
  datatype Step = Stop | Continue | Retry(transport: Transport)

  function ExchangeStep(g: Config, addressQuery: bool, e: Entry, t: Transport, reply: Reply, accepted: bool): Step {
    var limit := WithAddressLimit(e);
    if !addressQuery || t.isFakeIP || t.isRcode then Stop
    else if Judge(limit, reply, accepted).Rejected? then Continue
    else if Judge(limit, reply, accepted).Error? || reply.Empty? then Stop
    else if !reply.success || |AddressesOf(reply)| == 0 then (if e.allowFallthrough then Continue else Stop)
    else AfterAnswer(g, e, AddressesOf(reply), true)
  }

  /** What lookupFunc does after asking rule e over t. */
  function LookupStep(g: Config, e: Entry, t: Transport, reply: Reply, accepted: bool): Step {
    var limit := WithAddressLimit(e);
    if t.isRcode then Stop
    else if Judge(limit, reply, accepted).Rejected? then Continue
    else if Judge(limit, reply, accepted).Error? then Stop
    else if |AddressesOf(reply)| == 0 then (if e.allowFallthrough then Continue else Stop)
    else AfterAnswer(g, e, AddressesOf(reply), false)
  }

  function AfterAnswer(g: Config, e: Entry, addrs: seq<Addr>, allowFakeIP: bool): Step {
    if |e.fallbacks| == 0 then Stop
    else match ChooseFallback(g, e.fallbacks, allowFakeIP, FallbackContext(addrs))
      case Keep => Stop
      case GoOn => Continue
      case Ask(t) => Retry(t)
  }

  /** An exchange succeeds without error; a lookup also needs an address. */
  predicate Succeeds(lookup: bool, judgement: Judgement, reply: Reply) {
    judgement.Good? && (lookup ==> |AddressesOf(reply)| > 0)
  }

  function StepOf(g: Config, lookup: bool, addressQuery: bool, e: Entry, t: Transport, reply: Reply, accepted: bool): Step {
    if lookup then LookupStep(g, e, t, reply, accepted) else ExchangeStep(g, addressQuery, e, t, reply, accepted)
  }

  /** The end of a search: an error never carries the fake-IP flag. */
  function Ended(queries: seq<Query>, ok: bool, reply: Reply, fake: bool): Run { Run(queries, ok, reply, ok && fake) }

  /** The search over the usable rules us, starting with query number n. */
  function Fold(g: Config, lookup: bool, addressQuery: bool, client: Client, verdicts: seq<bool>, us: seq<nat>, n: nat): Run
    requires forall k | 0 <= k < |us| :: us[k] < |g.rules| && g.rules[us[k]].server in g.transports
  {
    var reply := client(n);
    if us == [] then
      Run([Query(ByDefault, g.defaultTransport)], Succeeds(lookup, Judge(false, reply, false), reply), reply, false)
    else
      var e := g.rules[us[0]];
      var t := g.transports[e.server];
      var accepted := At(verdicts, n);
      var q := Query(ByRule(us[0]), t);
      match StepOf(g, lookup, addressQuery, e, t, reply, accepted)
      case Stop => Ended([q], Succeeds(lookup, Judge(WithAddressLimit(e), reply, accepted), reply), reply, t.isFakeIP)
      case Continue => Before([q], Fold(g, lookup, addressQuery, client, verdicts, us[1..], n + 1))
      case Retry(t') =>
        var again := client(n + 1);
        Ended([q, Query(ByFallback(us[0]), t')], Succeeds(lookup, Judge(false, again, false), again), again, t'.isFakeIP)
  }

  // ---- the two loops ----

  /** The search from the rules after index, as the fold sees it. */
  ghost function Remaining(g: Config, start: Context, lookup: bool, addressQuery: bool, client: Client, verdicts: seq<bool>, index: int, n: nat): Run
    requires -1 <= index < |g.rules|
  {
    Fold(g, lookup, addressQuery, client, verdicts,
         UsableFrom(g, start, !lookup, addressQuery, index + 1), n)
  }

  lemma BeforeBefore(xs: seq<Query>, ys: seq<Query>, run: Run)
    ensures Before(xs, Before(ys, run)) == Before(xs + ys, run)
  {
    assert xs + (ys + run.queries) == (xs + ys) + run.queries;
  }

  lemma {:induction false} UsableTail(g: Config, start: Context, allowFakeIP: bool, addressQuery: bool, i: nat)
    requires i <= |g.rules|
    ensures var us := UsableFrom(g, start, allowFakeIP, addressQuery, i);
            us != [] ==> us[1..] == UsableFrom(g, start, allowFakeIP, addressQuery, us[0] + 1)
    decreases |g.rules| - i
  {
    hide Usable;
    if i < |g.rules| { UsableTail(g, start, allowFakeIP, addressQuery, i + 1); }
  }

  /** The second check of rule j on an answer, with the given destination code left over from
      answers seen before. */
  function SecondOutcome(g: Config, start: Context, code: string, j: nat, addrs: seq<Addr>): Outcome
    requires j < |g.rules|
  {
    var first := EvalRule(g.env, false, g.rules[j].rule, Reset(start.(geoIPCode := code)));
    EvalRule(g.env, true, g.rules[j].rule, first.ctx.(addresses := addrs))
  }

  /** The same as if no other answer had been seen. */
  predicate StaticVerdict(g: Config, start: Context, j: nat, addrs: seq<Addr>)
    requires j < |g.rules|
  {
    SecondOutcome(g, start, start.geoIPCode, j, addrs).ok
  }

  ghost predicate NoDestinationGeoIP(r: Rule)
    decreases r
  {
    match r
    case Default(_, _, _, _, _, _, dc, _) => forall item <- dc :: !item.GeoIP?
    case Logical(_, _, _, rules) => forall sub <- rules :: NoDestinationGeoIP(sub)
  }

  lemma {:induction false} SettledHeadlessIsBlind(v: Blindness.View, r: Rule)
    requires v.same.addresses && LazyResolution.HeadlessGrouped(r)
    ensures Blindness.HeadlessShape(r) && Blindness.BlindRule(v, false, r)
    decreases r
  {
    if r.Logical? {
      forall sub | sub in r.rules
        ensures Blindness.HeadlessShape(sub) && Blindness.BlindRule(v.(matchSource := false), false, sub)
      {
        SettledHeadlessIsBlind(v.(matchSource := false), sub);
      }
    }
  }

  lemma {:induction false} SettledRulesAreBlind(v: Blindness.View, rules: seq<Rule>)
    requires v.same.addresses && forall r <- rules :: LazyResolution.HeadlessGrouped(r)
    ensures Blindness.BlindRules(v, rules) && Blindness.AfterRules(v, rules).same.addresses
    decreases rules
  {
    if rules != [] {
      SettledHeadlessIsBlind(v, rules[0]);
      SettledRulesAreBlind(if rules[0].Default? then v else v.(matchSource := false), rules[1..]);
    }
  }

  lemma {:induction false} SettledSetsAreBlind(v: Blindness.View, sets: seq<RuleSet>)
    requires v.same.addresses && forall s <- sets :: forall r <- s.rules :: LazyResolution.HeadlessGrouped(r)
    ensures Blindness.BlindSets(v, sets)
    decreases sets
  {
    if sets != [] {
      assert sets[0] in sets;
      SettledRulesAreBlind(v, sets[0].rules);
      SettledSetsAreBlind(Blindness.AfterRules(v, sets[0].rules), sets[1..]);
    }
  }

  /** With the answer settled, and the destination code too if the rule reads it, the second
      check depends on nothing but the facts. */
  lemma {:induction false} SecondCheckIsBlind(v: Blindness.View, r: Rule)
    requires v.same.addresses && !v.matchSource && DnsRules.DNSShape(v.sourceKnown, r) && (v.same.code || NoDestinationGeoIP(r))
    ensures Blindness.BlindRule(v, true, r)
    decreases r
  {
    match r
    case Default(_, _, items, sa, sp, da, dc, dp) =>
      forall item | item in items ensures Blindness.BlindItem(v, item) {
        if item.RuleSetItem? { SettledSetsAreBlind(v.(matchSource := item.matchSource), item.sets); }
      }
      assert Blindness.BlindItems(v, sa) && Blindness.BlindItems(v, dc);
    case Logical(_, _, _, rules) =>
      forall sub | sub in rules ensures Blindness.BlindRule(v, true, sub) { SecondCheckIsBlind(v, sub); }
  }

  /** Whatever the search has left behind, the second check of a rule depends only on the
      facts, the answer and the left-over destination code. */
  lemma {:induction false} VerdictFollowsCode(g: Config, start: Context, before: Context, j: nat, addrs: seq<Addr>)
    requires j < |g.rules| && Shaped(g, start.facts.source.Some?) && Searchable(start) && Drifted(g.env, start, before)
    ensures var c := EvalRule(g.env, false, g.rules[j].rule, Reset(before)).ctx.(addresses := addrs);
            var o := SecondOutcome(g, start, before.geoIPCode, j, addrs);
            EvalRule(g.env, true, g.rules[j].rule, c).ok == o.ok && EvalRule(g.env, true, g.rules[j].rule, c).ctx.geoIPCode == o.ctx.geoIPCode
  {
    var r, v, here := g.rules[j].rule, DnsRules.SearchView(start), start.(geoIPCode := before.geoIPCode);
    DnsRules.FirstCheckIsBlind(v, r);
    DriftedIsAlike(g.env, here, before);
    Blindness.RuleIsBlind(g.env, v, false, r, Reset(here), Reset(before));
    var p, q := EvalRule(g.env, false, r, Reset(here)).ctx, EvalRule(g.env, false, r, Reset(before)).ctx;
    var w := v.(same := Blindness.Shared(true, true));
    SecondCheckIsBlind(w, r);
    assert Blindness.Alike(g.env, w.same, p.(addresses := addrs), q.(addresses := addrs));
    Blindness.RuleIsBlind(g.env, w, true, r, p.(addresses := addrs), q.(addresses := addrs));
  }

  /** A rule without destination GeoIP items judges an answer as if no other had been seen,
      and leaves the code alone. */
  lemma {:induction false} VerdictIsStatic(g: Config, start: Context, code: string, j: nat, addrs: seq<Addr>)
    requires j < |g.rules| && Shaped(g, start.facts.source.Some?) && Searchable(start) && NoDestinationGeoIP(g.rules[j].rule)
    ensures SecondOutcome(g, start, code, j, addrs).ok == StaticVerdict(g, start, j, addrs)
    ensures SecondOutcome(g, start, code, j, addrs).ctx.geoIPCode == code
  {
    var r, v, here := g.rules[j].rule, DnsRules.SearchView(start), start.(geoIPCode := code);
    DnsRules.FirstCheckIsBlind(v, r);
    DriftedIsAlike(g.env, start, here);
    Blindness.RuleIsBlind(g.env, v, false, r, Reset(start), Reset(here));
    var p, q := EvalRule(g.env, false, r, Reset(start)).ctx, EvalRule(g.env, false, r, Reset(here)).ctx;
    var w := v.(same := Blindness.Shared(true, false));
    SecondCheckIsBlind(w, r);
    assert Blindness.Alike(g.env, w.same, p.(addresses := addrs), q.(addresses := addrs));
    Blindness.RuleIsBlind(g.env, w, true, r, p.(addresses := addrs), q.(addresses := addrs));
  }

  /** The client puts the answer to the check of rule j. */
  predicate Checked(g: Config, lookup: bool, j: nat, reply: Reply)
    requires j < |g.rules|
  {
    WithAddressLimit(g.rules[j]) && reply.Response? && reply.checked && (lookup || reply.addresses.Some?)
  }

  /** The verdict of rule j on a reply, with the given code left over. */
  predicate VerdictAt(g: Config, start: Context, code: string, lookup: bool, j: nat, reply: Reply)
    requires j < |g.rules|
  {
    Checked(g, lookup, j, reply) && SecondOutcome(g, start, code, j, AddressesOf(reply)).ok
  }

  /** The code left over after rule j was asked. */
  function CodeAfter(g: Config, start: Context, code: string, lookup: bool, j: nat, reply: Reply): string
    requires j < |g.rules|
  {
    if Checked(g, lookup, j, reply) then SecondOutcome(g, start, code, j, AddressesOf(reply)).ctx.geoIPCode else code
  }

  /** The code left over after a list of queries. */
  function CodeAfterAll(g: Config, start: Context, lookup: bool, client: Client, queries: seq<Query>): string {
    if queries == [] then start.geoIPCode
    else
      var n := |queries| - 1;
      var code, origin := CodeAfterAll(g, start, lookup, client, queries[..n]), queries[n].origin;
      if origin.ByRule? && origin.index < |g.rules| then CodeAfter(g, start, code, lookup, origin.index, client(n)) else code
  }

  lemma {:induction false} CodeGrows(g: Config, start: Context, lookup: bool, client: Client, queries: seq<Query>, q: Query)
    ensures var code := CodeAfterAll(g, start, lookup, client, queries);
            CodeAfterAll(g, start, lookup, client, queries + [q]) ==
            if q.origin.ByRule? && q.origin.index < |g.rules| then CodeAfter(g, start, code, lookup, q.origin.index, client(|queries|)) else code
  {
    hide CodeAfter;
    assert (queries + [q])[..|queries|] == queries;
  }

  /** The log entry of a query made for rule j is its verdict on the answer, with the code
      left over by the queries before. */
  ghost predicate LoggedVerdict(g: Config, start: Context, lookup: bool, client: Client, queries: seq<Query>, verdicts: seq<bool>, k: nat)
    requires k < |queries| && k < |verdicts|
  {
    var origin := queries[k].origin;
    origin.ByRule? && origin.index < |g.rules|
    ==> verdicts[k] == VerdictAt(g, start, CodeAfterAll(g, start, lookup, client, queries[..k]), lookup, origin.index, client(k))
  }

  /** Asks the client over the transport of rule j, with the address check when the rule
      limits addresses. */
  method AskRule(g: Config, m: InboundContext, client: Client, lookup: bool, n: nat, j: nat, ghost start: Context, ghost before: Context)
      returns (reply: Reply, accepted: bool)
    requires j < |g.rules| && Shaped(g, start.facts.source.Some?) && Searchable(start)
    requires Drifted(g.env, start, before) && Drifted(g.env, start, m.Value()) && m.Value().geoIPCode == before.geoIPCode
    requires m.Value() == EvalRule(g.env, false, g.rules[j].rule, Reset(before)).ctx
    modifies m
    ensures Drifted(g.env, start, m.Value()) && reply == client(n)
    ensures accepted == VerdictAt(g, start, before.geoIPCode, lookup, j, reply)
    ensures m.Value().geoIPCode == CodeAfter(g, start, before.geoIPCode, lookup, j, reply)
  {
    hide EvalRule, SecondOutcome, Shaped, Searchable;
    reply, accepted := client(n), false;
    var e := g.rules[j];
    if WithAddressLimit(e) && reply.Response? && reply.checked {
      if lookup || reply.addresses.Some? {
        var addrs := AddressesOf(reply);
        VerdictFollowsCode(g, start, before, j, addrs);
        m.destinationAddresses := addrs;
        SecondCheckDrifts(g, start, m.Value(), j);
        accepted := m.Match(g.env, true, e.rule);
      }
    }
  }

  lemma {:induction false} SecondCheckDrifts(g: Config, start: Context, c: Context, j: nat)
    requires j < |g.rules| && Shaped(g, start.facts.source.Some?) && Searchable(start) && Drifted(g.env, start, c)
    ensures Drifted(g.env, start, EvalRule(g.env, true, g.rules[j].rule, c).ctx)
  {
    DnsRules.ShapeIsSafe(start.facts.source.Some?, g.rules[j].rule);
    Frames.RuleChanges(g.env, start.facts.source.Some?, true, g.rules[j].rule, c);
    var c' := EvalRule(g.env, true, g.rules[j].rule, c).ctx;
    DriftContinues(g.env, start, c, c', c'.addresses);
  }

  /** Until a rule with destination GeoIP items is asked, the code is that of the start. */
  lemma {:induction false} CodeIsKept(g: Config, start: Context, lookup: bool, client: Client, queries: seq<Query>)
    requires Shaped(g, start.facts.source.Some?) && Searchable(start) && NoGeoIPAsked(g, queries)
    ensures CodeAfterAll(g, start, lookup, client, queries) == start.geoIPCode
  {
    hide SecondOutcome;
    if queries != [] {
      var n := |queries| - 1;
      CodeIsKept(g, start, lookup, client, queries[..n]);
      var origin := queries[n].origin;
      if origin.ByRule? && origin.index < |g.rules| {
        VerdictIsStatic(g, start, start.geoIPCode, origin.index, AddressesOf(client(n)));
      }
    }
  }

  ghost predicate NoGeoIPAsked(g: Config, queries: seq<Query>) {
    forall k | 0 <= k < |queries| && queries[k].origin.ByRule? && queries[k].origin.index < |g.rules| ::
      NoDestinationGeoIP(g.rules[queries[k].origin.index].rule)
  }

  /** A logged verdict is the static one if the rule has no destination GeoIP items, or none
      of the rules asked before it has. */
  lemma {:induction false} LoggedIsStatic(g: Config, start: Context, lookup: bool, client: Client, queries: seq<Query>, verdicts: seq<bool>, k: nat)
    requires Shaped(g, start.facts.source.Some?) && Searchable(start) && Logged(g, start, lookup, client, queries, verdicts)
    requires k < |queries| && queries[k].origin.ByRule? && queries[k].origin.index < |g.rules|
    requires NoDestinationGeoIP(g.rules[queries[k].origin.index].rule) || NoGeoIPAsked(g, queries[..k])
    ensures var j := queries[k].origin.index;
            verdicts[k] == (Checked(g, lookup, j, client(k)) && StaticVerdict(g, start, j, AddressesOf(client(k))))
  {
    hide SecondOutcome, NoDestinationGeoIP;
    var j, code := queries[k].origin.index, CodeAfterAll(g, start, lookup, client, queries[..k]);
    assert LoggedVerdict(g, start, lookup, client, queries, verdicts, k);
    if NoDestinationGeoIP(g.rules[j].rule) {
      VerdictIsStatic(g, start, code, j, AddressesOf(client(k)));
    } else {
      CodeIsKept(g, start, lookup, client, queries[..k]);
    }
  }

  // ---- bookkeeping of a search in progress ----

  /** Whatever is logged from here on, the whole search is the queries made so far followed
      by the search from the rules after index. */
  ghost predicate Tracks(g: Config, start: Context, lookup: bool, addressQuery: bool, client: Client,
                         verdicts: seq<bool>, index: int, queries: seq<Query>)
    requires -1 <= index < |g.rules|
  {
    |verdicts| == |queries| &&
    forall vs: seq<bool> | verdicts <= vs ::
      Remaining(g, start, lookup, addressQuery, client, vs, -1, 0)
        == Before(queries, Remaining(g, start, lookup, addressQuery, client, vs, index, |queries|))
  }

  lemma TracksInitially(g: Config, start: Context, lookup: bool, addressQuery: bool, client: Client)
    ensures Tracks(g, start, lookup, addressQuery, client, [], -1, [])
  {
    forall vs: seq<bool>
      ensures var run := Remaining(g, start, lookup, addressQuery, client, vs, -1, 0); run == Before([], run)
    {
      var run := Remaining(g, start, lookup, addressQuery, client, vs, -1, 0);
      assert [] + run.queries == run.queries;
    }
  }

  /** The next usable rule after index is j. */
  ghost predicate NextIs(g: Config, start: Context, lookup: bool, addressQuery: bool, index: int, j: nat)
    requires -1 <= index < |g.rules|
  {
    var us := UsableFrom(g, start, !lookup, addressQuery, index + 1);
    us != [] && us[0] == j
  }

  lemma {:induction false} OneMoreRule(g: Config, start: Context, lookup: bool, addressQuery: bool, client: Client,
                                        vs: seq<bool>, index: int, n: nat, j: nat, accepted: bool)
    requires -1 <= index < |g.rules| && NextIs(g, start, lookup, addressQuery, index, j) && At(vs, n) == accepted
    requires StepOf(g, lookup, addressQuery, g.rules[j], g.transports[g.rules[j].server], client(n), accepted).Continue?
    ensures Remaining(g, start, lookup, addressQuery, client, vs, index, n)
         == Before([Query(ByRule(j), g.transports[g.rules[j].server])],
                   Remaining(g, start, lookup, addressQuery, client, vs, j, n + 1))
  {
    hide LookupStep, ExchangeStep, Judge, UsableFrom, Succeeds;
    UsableTail(g, start, !lookup, addressQuery, index + 1);
  }

  lemma {:induction false} TrackContinues(g: Config, start: Context, lookup: bool, addressQuery: bool, client: Client,
                                           verdicts: seq<bool>, index: int, queries: seq<Query>, j: nat, accepted: bool)
    requires -1 <= index < |g.rules| && NextIs(g, start, lookup, addressQuery, index, j)
    requires Tracks(g, start, lookup, addressQuery, client, verdicts, index, queries)
    requires var e := g.rules[j]; var t := g.transports[e.server];
             StepOf(g, lookup, addressQuery, e, t, client(|queries|), accepted).Continue?
    ensures var t := g.transports[g.rules[j].server];
            Tracks(g, start, lookup, addressQuery, client, verdicts + [accepted], j, queries + [Query(ByRule(j), t)])
  {
    hide Remaining, Before, StepOf;
    var q := Query(ByRule(j), g.transports[g.rules[j].server]);
    forall vs: seq<bool> | verdicts + [accepted] <= vs
      ensures Remaining(g, start, lookup, addressQuery, client, vs, -1, 0)
           == Before(queries + [q], Remaining(g, start, lookup, addressQuery, client, vs, j, |queries + [q]|))
    {
      assert verdicts <= vs && vs[|verdicts|] == accepted;
      OneMoreRule(g, start, lookup, addressQuery, client, vs, index, |queries|, j, accepted);
      BeforeBefore(queries, [q], Remaining(g, start, lookup, addressQuery, client, vs, j, |queries| + 1));
    }
  }

  lemma {:induction false} TrackStops(g: Config, start: Context, lookup: bool, addressQuery: bool, client: Client,
                                       verdicts: seq<bool>, index: int, queries: seq<Query>, j: nat, accepted: bool)
    requires -1 <= index < |g.rules| && NextIs(g, start, lookup, addressQuery, index, j)
    requires Tracks(g, start, lookup, addressQuery, client, verdicts, index, queries)
    requires var e := g.rules[j]; var t := g.transports[e.server];
             StepOf(g, lookup, addressQuery, e, t, client(|queries|), accepted).Stop?
    ensures var e := g.rules[j]; var t := g.transports[e.server]; var reply := client(|queries|);
            Remaining(g, start, lookup, addressQuery, client, verdicts + [accepted], -1, 0)
              == Ended(queries + [Query(ByRule(j), t)],
                     Succeeds(lookup, Judge(WithAddressLimit(e), reply, accepted), reply), reply, t.isFakeIP)
  {
    var vs := verdicts + [accepted];
    assert verdicts <= vs && vs[|verdicts|] == accepted;
  }

  lemma {:induction false} TrackRetries(g: Config, start: Context, lookup: bool, addressQuery: bool, client: Client,
                                         verdicts: seq<bool>, index: int, queries: seq<Query>, j: nat, accepted: bool, t': Transport)
    requires -1 <= index < |g.rules| && NextIs(g, start, lookup, addressQuery, index, j)
    requires Tracks(g, start, lookup, addressQuery, client, verdicts, index, queries)
    requires var e := g.rules[j]; var t := g.transports[e.server];
             StepOf(g, lookup, addressQuery, e, t, client(|queries|), accepted) == Retry(t')
    ensures var t := g.transports[g.rules[j].server]; var again := client(|queries| + 1);
            Remaining(g, start, lookup, addressQuery, client, verdicts + [accepted] + [false], -1, 0)
              == Ended(queries + [Query(ByRule(j), t)] + [Query(ByFallback(j), t')],
                     Succeeds(lookup, Judge(false, again, false), again), again, t'.isFakeIP)
  {
    var vs := verdicts + [accepted] + [false];
    assert verdicts <= vs && vs[|verdicts|] == accepted;
    var t := g.transports[g.rules[j].server];
    assert queries + [Query(ByRule(j), t), Query(ByFallback(j), t')] == queries + [Query(ByRule(j), t)] + [Query(ByFallback(j), t')];
  }

  lemma {:induction false} TrackDefaults(g: Config, start: Context, lookup: bool, addressQuery: bool, client: Client,
                                          verdicts: seq<bool>, index: int, queries: seq<Query>)
    requires -1 <= index < |g.rules| && UsableFrom(g, start, !lookup, addressQuery, index + 1) == []
    requires Tracks(g, start, lookup, addressQuery, client, verdicts, index, queries)
    ensures var reply := client(|queries|);
            Remaining(g, start, lookup, addressQuery, client, verdicts + [false], -1, 0)
              == Run(queries + [Query(ByDefault, g.defaultTransport)], Succeeds(lookup, Judge(false, reply, false), reply), reply, false)
  {
    assert verdicts <= verdicts + [false];
  }

  ghost predicate Logged(g: Config, start: Context, lookup: bool, client: Client, queries: seq<Query>, verdicts: seq<bool>) {
    |verdicts| == |queries| &&
    forall k | 0 <= k < |queries| :: LoggedVerdict(g, start, lookup, client, queries, verdicts, k)
  }

  lemma {:induction false} LogGrows(g: Config, start: Context, lookup: bool, client: Client, queries: seq<Query>, verdicts: seq<bool>, q: Query, accepted: bool)
    requires Logged(g, start, lookup, client, queries, verdicts)
    requires q.origin.ByRule? && q.origin.index < |g.rules| ==>
               accepted == VerdictAt(g, start, CodeAfterAll(g, start, lookup, client, queries), lookup, q.origin.index, client(|queries|))
    ensures Logged(g, start, lookup, client, queries + [q], verdicts + [accepted])
  {
    hide VerdictAt, CodeAfterAll;
    forall k | 0 <= k < |queries + [q]| ensures LoggedVerdict(g, start, lookup, client, queries + [q], verdicts + [accepted], k) {
      assert (queries + [q])[..k] == queries[..k];
      if k < |queries| { assert LoggedVerdict(g, start, lookup, client, queries, verdicts, k); } else { assert queries[..k] == queries; }
    }
  }

  // ---- exchangeFunc ----

  /** The decisions of exchangeFunc after a query. */
  method DecideExchange(g: Config, addressQuery: bool, e: Entry, t: Transport, reply: Reply, accepted: bool) returns (step: Step)
    ensures step == ExchangeStep(g, addressQuery, e, t, reply, accepted)
  {
    var judgement := Judge(WithAddressLimit(e), reply, accepted);
    if !addressQuery || t.isFakeIP { return Stop; }
    if t.isRcode { return Stop; }
    if judgement.Rejected? { return Continue; }
    if judgement.Error? || reply.Empty? { return Stop; }
    var addrs := AddressesOf(reply);
    if !reply.success || |addrs| == 0 {
      if e.allowFallthrough { return Continue; }
      return Stop;
    }
    if |e.fallbacks| == 0 { return Stop; }
    var choice := MatchFallbackRules(g, e.fallbacks, addrs, true);
    match choice
    case Keep => return Stop;
    case GoOn => return Continue;
    case Ask(t') => return Retry(t');
  }

  method ExchangeFunc(g: Config, m: InboundContext, client: Client, addressQuery: bool)
      returns (run: Run, verdicts: seq<bool>)
    requires Shaped(g, m.facts.source.Some?) && Searchable(m.Value())
    modifies m
    ensures run == Fold(g, false, addressQuery, client, verdicts, UsableFrom(g, old(m.Value()), true, addressQuery, 0), 0)
    ensures Logged(g, old(m.Value()), false, client, run.queries, verdicts)
  {
    hide Tracks, Logged, Drifted, Shaped, Fold, ExchangeStep, VerdictAt, CodeAfterAll, CodeAfter;
    ghost var start := m.Value();
    var queries: seq<Query> := [];
    verdicts := [];
    var index := -1;
    TracksInitially(g, start, false, addressQuery, client);
    NothingLogged(g, start, false, client);
    NothingAsked(g, start, false, client);
    DriftStarts(g.env, start);
    while true
      invariant -1 <= index < |g.rules|
      invariant Drifted(g.env, start, m.Value())
      invariant |verdicts| == |queries| && Tracks(g, start, false, addressQuery, client, verdicts, index, queries)
      invariant Logged(g, start, false, client, queries, verdicts)
      invariant m.Value().geoIPCode == CodeAfterAll(g, start, false, client, queries)
      decreases |g.rules| - index
    {
      var found, transport, before := MatchDNS(g, m, true, index, addressQuery, start);
      if found.None? {
        var reply := client(|queries|);
        TrackDefaults(g, start, false, addressQuery, client, verdicts, index, queries);
        LogGrows(g, start, false, client, queries, verdicts, Query(ByDefault, transport), false);
        run := Run(queries + [Query(ByDefault, transport)], Succeeds(false, Judge(false, reply, false), reply), reply, false);
        verdicts := verdicts + [false];
        return;
      }
      var j := found.value;
      var e := g.rules[j];
      var reply, accepted := AskRule(g, m, client, false, |queries|, j, start, before);
      LogGrows(g, start, false, client, queries, verdicts, Query(ByRule(j), transport), accepted);
      CodeGrows(g, start, false, client, queries, Query(ByRule(j), transport));
      var step := DecideExchange(g, addressQuery, e, transport, reply, accepted);
      match step {
        case Stop =>
          TrackStops(g, start, false, addressQuery, client, verdicts, index, queries, j, accepted);
          queries, verdicts := queries + [Query(ByRule(j), transport)], verdicts + [accepted];
          run := Ended(queries, Succeeds(false, Judge(WithAddressLimit(e), reply, accepted), reply), reply, transport.isFakeIP);
          return;
        case Retry(t) =>
          TrackRetries(g, start, false, addressQuery, client, verdicts, index, queries, j, accepted, t);
          var again := client(|queries| + 1);
          queries, verdicts := queries + [Query(ByRule(j), transport)], verdicts + [accepted];
          LogGrows(g, start, false, client, queries, verdicts, Query(ByFallback(j), t), false);
          queries, verdicts := queries + [Query(ByFallback(j), t)], verdicts + [false];
          run := Ended(queries, Succeeds(false, Judge(false, again, false), again), again, t.isFakeIP);
          return;
        case Continue =>
          TrackContinues(g, start, false, addressQuery, client, verdicts, index, queries, j, accepted);
          queries, verdicts := queries + [Query(ByRule(j), transport)], verdicts + [accepted];
          index := j;
      }
    }
  }

  lemma NothingAsked(g: Config, start: Context, lookup: bool, client: Client)
    ensures CodeAfterAll(g, start, lookup, client, []) == start.geoIPCode
  {
  }

  lemma NothingLogged(g: Config, start: Context, lookup: bool, client: Client)
    ensures Logged(g, start, lookup, client, [], [])
  {
  }

  // ---- lookupFunc ----

  /** The decisions of lookupFunc after a query. */
  method DecideLookup(g: Config, e: Entry, t: Transport, reply: Reply, accepted: bool) returns (step: Step)
    ensures step == LookupStep(g, e, t, reply, accepted)
  {
    var judgement := Judge(WithAddressLimit(e), reply, accepted);
    if t.isRcode { return Stop; }
    if judgement.Rejected? { return Continue; }
    var addrs := AddressesOf(reply);
    if judgement.Good? && |addrs| == 0 && e.allowFallthrough { return Continue; }
    if judgement.Error? || |addrs| == 0 { return Stop; }
    if |e.fallbacks| == 0 { return Stop; }
    var choice := MatchFallbackRules(g, e.fallbacks, addrs, false);
    match choice
    case Keep => return Stop;
    case GoOn => return Continue;
    case Ask(t') => return Retry(t');
  }

  method LookupFunc(g: Config, m: InboundContext, client: Client)
      returns (run: Run, verdicts: seq<bool>)
    requires Shaped(g, m.facts.source.Some?) && Searchable(m.Value())
    modifies m
    ensures run == Fold(g, true, true, client, verdicts, UsableFrom(g, old(m.Value()), false, true, 0), 0)
    ensures Logged(g, old(m.Value()), true, client, run.queries, verdicts)
  {
    hide Tracks, Logged, Drifted, Shaped, Fold, LookupStep, VerdictAt, CodeAfterAll, CodeAfter;
    ghost var start := m.Value();
    var queries: seq<Query> := [];
    verdicts := [];
    var index := -1;
    TracksInitially(g, start, true, true, client);
    NothingLogged(g, start, true, client);
    NothingAsked(g, start, true, client);
    DriftStarts(g.env, start);
    while true
      invariant -1 <= index < |g.rules|
      invariant Drifted(g.env, start, m.Value())
      invariant |verdicts| == |queries| && Tracks(g, start, true, true, client, verdicts, index, queries)
      invariant Logged(g, start, true, client, queries, verdicts)
      invariant m.Value().geoIPCode == CodeAfterAll(g, start, true, client, queries)
      decreases |g.rules| - index
    {
      var found, transport, before := MatchDNS(g, m, false, index, true, start);
      if found.None? {
        var reply := client(|queries|);
        TrackDefaults(g, start, true, true, client, verdicts, index, queries);
        LogGrows(g, start, true, client, queries, verdicts, Query(ByDefault, transport), false);
        run := Run(queries + [Query(ByDefault, transport)], Succeeds(true, Judge(false, reply, false), reply), reply, false);
        verdicts := verdicts + [false];
        return;
      }
      var j := found.value;
      var e := g.rules[j];
      var reply, accepted := AskRule(g, m, client, true, |queries|, j, start, before);
      LogGrows(g, start, true, client, queries, verdicts, Query(ByRule(j), transport), accepted);
      CodeGrows(g, start, true, client, queries, Query(ByRule(j), transport));
      var step := DecideLookup(g, e, transport, reply, accepted);
      match step {
        case Stop =>
          TrackStops(g, start, true, true, client, verdicts, index, queries, j, accepted);
          queries, verdicts := queries + [Query(ByRule(j), transport)], verdicts + [accepted];
          run := Ended(queries, Succeeds(true, Judge(WithAddressLimit(e), reply, accepted), reply), reply, transport.isFakeIP);
          return;
        case Retry(t) =>
          TrackRetries(g, start, true, true, client, verdicts, index, queries, j, accepted, t);
          var again := client(|queries| + 1);
          queries, verdicts := queries + [Query(ByRule(j), transport)], verdicts + [accepted];
          LogGrows(g, start, true, client, queries, verdicts, Query(ByFallback(j), t), false);
          queries, verdicts := queries + [Query(ByFallback(j), t)], verdicts + [false];
          run := Ended(queries, Succeeds(true, Judge(false, again, false), again), again, t.isFakeIP);
          return;
        case Continue =>
          TrackContinues(g, start, true, true, client, verdicts, index, queries, j, accepted);
          queries, verdicts := queries + [Query(ByRule(j), transport)], verdicts + [accepted];
          index := j;
      }
    }
  }

  // ---- what every search satisfies ----

  ghost predicate Ascending(us: seq<nat>) { forall k, l | 0 <= k < l < |us| :: us[k] < us[l] }

  ghost predicate Servable(g: Config, us: seq<nat>) {
    forall k | 0 <= k < |us| :: us[k] < |g.rules| && g.rules[us[k]].server in g.transports
  }

  /** The first asked queries go to the first asked rules of us over their own servers; at
      most one more follows. */
  ghost predicate AskedInOrder(g: Config, us: seq<nat>, queries: seq<Query>, asked: nat)
    requires Servable(g, us)
  {
    asked <= |us| && asked <= |queries| <= asked + 1 &&
    (forall k | 0 <= k < asked :: queries[k] == Query(ByRule(us[k]), g.transports[g.rules[us[k]].server])) &&
    (|queries| == asked ==> asked > 0) &&
    (|queries| == asked + 1 ==>
       (queries[asked] == Query(ByDefault, g.defaultTransport) && asked == |us|) ||
       (asked > 0 && queries[asked].origin == ByFallback(us[asked - 1])))
  }

  lemma {:induction false} OneMoreInOrder(g: Config, us: seq<nat>, queries: seq<Query>, asked: nat)
    requires Servable(g, us) && us != [] && Servable(g, us[1..]) && AskedInOrder(g, us[1..], queries, asked)
    ensures AskedInOrder(g, us, [Query(ByRule(us[0]), g.transports[g.rules[us[0]].server])] + queries, asked + 1)
  {
  }

  /** The rules asked are a prefix of the usable rules, in order, each asked once over its
      own server; after them at most one more query, to the default server when all usable
      rules are exhausted, or to the server of a fallback rule. */
  lemma {:induction false} SearchAsksInOrder(g: Config, lookup: bool, addressQuery: bool, client: Client, verdicts: seq<bool>, us: seq<nat>, n: nat)
      returns (asked: nat)
    requires Servable(g, us)
    ensures AskedInOrder(g, us, Fold(g, lookup, addressQuery, client, verdicts, us, n).queries, asked)
    decreases us
  {
    hide LookupStep, ExchangeStep, Succeeds, Judge;
    asked := 0;
    if us != [] {
      var e := g.rules[us[0]];
      var t := g.transports[e.server];
      var step := StepOf(g, lookup, addressQuery, e, t, client(n), At(verdicts, n));
      if step.Continue? {
        var rest := SearchAsksInOrder(g, lookup, addressQuery, client, verdicts, us[1..], n + 1);
        asked := rest + 1;
        OneMoreInOrder(g, us, Fold(g, lookup, addressQuery, client, verdicts, us[1..], n + 1).queries, rest);
      } else {
        asked := 1;
      }
    }
  }

  /** At most one query per rule and one more. */
  lemma {:induction false} SearchIsBounded(g: Config, start: Context, lookup: bool, addressQuery: bool, client: Client, verdicts: seq<bool>)
    ensures var us := UsableFrom(g, start, !lookup, addressQuery, 0);
            var run := Fold(g, lookup, addressQuery, client, verdicts, us, 0);
            1 <= |run.queries| <= |us| + 1 <= |g.rules| + 1 && Ascending(us)
  {
    var us := UsableFrom(g, start, !lookup, addressQuery, 0);
    UsableFromIsSorted(g, start, !lookup, addressQuery, 0);
    var asked := SearchAsksInOrder(g, lookup, addressQuery, client, verdicts, us, 0);
  }

  lemma {:induction false} ChosenFallbackIsAllowed(g: Config, fbs: seq<Fallback>, allowFakeIP: bool, c: Context)
    ensures var choice := ChooseFallback(g, fbs, allowFakeIP, c); choice.Ask? ==> Allowed(choice.transport, allowFakeIP)
  {
    if fbs != [] {
      ChosenFallbackIsAllowed(g, fbs[1..], allowFakeIP, EvalFallback(g.env, fbs[0], Reset(c)).ctx);
    }
  }

  lemma {:induction false} RetryIsAllowed(g: Config, lookup: bool, addressQuery: bool, e: Entry, t: Transport, reply: Reply, accepted: bool)
    ensures var step := StepOf(g, lookup, addressQuery, e, t, reply, accepted);
            step.Retry? ==> Allowed(step.transport, !lookup)
  {
    ChosenFallbackIsAllowed(g, e.fallbacks, !lookup, FallbackContext(AddressesOf(reply)));
  }

  ghost predicate AllAllowed(g: Config, us: seq<nat>, allowFakeIP: bool) {
    Servable(g, us) && forall k | 0 <= k < |us| :: Allowed(g.transports[g.rules[us[k]].server], allowFakeIP)
  }

  lemma AllowedTail(g: Config, us: seq<nat>, allowFakeIP: bool)
    requires us != [] && AllAllowed(g, us, allowFakeIP)
    ensures us[0] < |g.rules| && g.rules[us[0]].server in g.transports
    ensures Allowed(g.transports[g.rules[us[0]].server], allowFakeIP) && AllAllowed(g, us[1..], allowFakeIP)
  {
  }

  /** Every transport asked is allowed for the request; the reply is that of the last one
      asked, and so is the fake-IP flag unless the search failed. */
  ghost predicate Clean(run: Run, client: Client, n: nat, allowFakeIP: bool) {
    |run.queries| > 0 && (forall k | 0 <= k < |run.queries| :: Allowed(run.queries[k].transport, allowFakeIP)) &&
    run.fake == (run.ok && run.queries[|run.queries| - 1].transport.isFakeIP) &&
    run.reply == client(n + |run.queries| - 1)
  }

  lemma CleanBefore(run: Run, client: Client, n: nat, allowFakeIP: bool, q: Query)
    requires Clean(run, client, n + 1, allowFakeIP) && Allowed(q.transport, allowFakeIP)
    ensures Clean(Before([q], run), client, n, allowFakeIP)
  {
  }

  lemma {:induction false} SearchStaysAllowed(g: Config, lookup: bool, addressQuery: bool, client: Client, verdicts: seq<bool>, us: seq<nat>, n: nat)
    requires AllAllowed(g, us, !lookup) && !g.defaultTransport.isFakeIP
    ensures Clean(Fold(g, lookup, addressQuery, client, verdicts, us, n), client, n, !lookup)
    decreases us
  {
    if us != [] {
      AllowedTail(g, us, !lookup);
      var e := g.rules[us[0]];
      var t := g.transports[e.server];
      var step := StepOf(g, lookup, addressQuery, e, t, client(n), At(verdicts, n));
      RetryIsAllowed(g, lookup, addressQuery, e, t, client(n), At(verdicts, n));
      hide LookupStep, ExchangeStep, Judge, Succeeds, AllAllowed;
      if step.Continue? {
        hide Clean;
        SearchStaysAllowed(g, lookup, addressQuery, client, verdicts, us[1..], n + 1);
        CleanBefore(Fold(g, lookup, addressQuery, client, verdicts, us[1..], n + 1), client, n, !lookup, Query(ByRule(us[0]), t));
      }
    }
  }

  /** A lookup never asks a fake-IP transport, the default one and fallbacks included. */
  lemma {:induction false} LookupNeverAsksFakeIP(g: Config, start: Context, client: Client, verdicts: seq<bool>)
    requires !g.defaultTransport.isFakeIP
    ensures var run := Fold(g, true, true, client, verdicts, UsableFrom(g, start, false, true, 0), 0);
            forall k | 0 <= k < |run.queries| :: !run.queries[k].transport.isFakeIP
  {
    hide Fold, StaticMatch;
    var us := UsableFrom(g, start, false, true, 0);
    assert AllAllowed(g, us, false);
    SearchStaysAllowed(g, true, true, client, verdicts, us, 0);
  }

  /** The flag of a successful exchange is true exactly when its response came from a fake-IP
      transport, the response is the one that transport gave, and a failed exchange never
      carries the flag. */
  lemma {:induction false} ExchangeFlagIsExact(g: Config, start: Context, addressQuery: bool, client: Client, verdicts: seq<bool>)
    requires !g.defaultTransport.isFakeIP
    ensures var run := Fold(g, false, addressQuery, client, verdicts, UsableFrom(g, start, true, addressQuery, 0), 0);
            |run.queries| > 0 && run.reply == client(|run.queries| - 1) &&
            (run.ok ==> (run.fake <==> run.queries[|run.queries| - 1].transport.isFakeIP)) && (!run.ok ==> !run.fake)
  {
    hide Fold, StaticMatch;
    var us := UsableFrom(g, start, true, addressQuery, 0);
    assert AllAllowed(g, us, true);
    SearchStaysAllowed(g, false, addressQuery, client, verdicts, us, 0);
  }
}

/** Where answers seen earlier in a DNS search do matter: the destination code they leave
    behind, and source GeoIP items on a connection without a valid source. */
module DnsStaleCode {
  import opened Wrappers
  import opened RuleModel
  import opened RuleEngine
  import opened RuleSemantics
  import opened DnsSearch
  import DnsRules

  /** A code left by an earlier answer gives the right verdict on a new one for every GeoIP
      condition exactly when all addresses of the new answer that have a code have this one,
      and one of them has it. */
  lemma {:induction false} StaleCodeRightIff(env: Oracle, code: string, answer: seq<Addr>)
    requires code != ""
    ensures (forall codes: set<string> :: (code in codes) == GeoIPHolds(env, codes, answer)) <==> CoherentCode(env, answer, code)
  {
    if forall codes: set<string> :: (code in codes) == GeoIPHolds(env, codes, answer) {
      assert GeoIPHolds(env, {code}, answer);
      forall a | a in answer && CodeOf(env, a) != "" ensures CodeOf(env, a) == code {
        assert GeoIPHolds(env, {CodeOf(env, a)}, answer);
        assert code in {CodeOf(env, a)};
      }
    }
    if CoherentCode(env, answer, code) {
      var b :| b in answer && CodeOf(env, b) == code;
      forall codes: set<string> ensures (code in codes) == GeoIPHolds(env, codes, answer) {
        if GeoIPHolds(env, codes, answer) {
          var a :| a in answer && CodeOf(env, a) != "" && CodeOf(env, a) in codes;
          assert CodeOf(env, a) == code;
        }
      }
    }
  }

  /** A DNS rule with one destination GeoIP condition. */
  function GeoRule(codes: set<string>): Rule { Default(DNSRule, false, [], [], [], [], [GeoIP(false, codes)], []) }

  lemma {:induction false} GeoRuleFirst(env: Oracle, codes: set<string>, c: Context)
    requires c.cache == EMPTY_CACHE && !c.ignoreDestinationIPCIDRMatch
    ensures EvalRule(env, false, GeoRule(codes), c) == Outcome(true, c)
  {
    var r, d := GeoRule(codes), c.(ignoreDestinationIPCIDRMatch := true);
    assert Stages(env, r, d) == d;
    assert EvalAll(env, r.items, d) == Outcome(true, d);
  }

  lemma {:induction false} GeoRuleSecond(env: Oracle, codes: set<string>, c: Context)
    requires c.cache == EMPTY_CACHE && !c.ignoreDestinationIPCIDRMatch
    ensures var o, g := EvalRule(env, true, GeoRule(codes), c), EvalGeoIP(env, false, codes, SetDidMatch(c));
            o.ok == g.ok && o.ctx.geoIPCode == g.ctx.geoIPCode
  {
    var r, d := GeoRule(codes), SetDidMatch(c);
    var g := EvalGeoIP(env, false, codes, d);
    GeoIPAnyKeepsCache(env, codes, d.addresses, d);
    assert EvalItem(env, r.destinationIPCIDRItems[0], d) == g;
    assert EvalAny(env, r.destinationIPCIDRItems[1..], g.ctx) == Outcome(false, g.ctx);
    assert EvalAny(env, r.destinationIPCIDRItems, d) == g;
    var staged := Stage(env, DestinationAddress, r.destinationIPCIDRItems, c);
    assert Stages(env, r, c) == staged;
    assert EvalAll(env, r.items, staged) == Outcome(true, staged);
  }

  lemma {:induction false} GeoIPAnyKeepsCache(env: Oracle, codes: set<string>, addrs: seq<Addr>, c: Context)
    ensures var o := GeoIPAny(env, false, codes, addrs, c); o.ctx == c.(geoIPCode := o.ctx.geoIPCode)
  {
    if addrs != [] { GeoIPAnyKeepsCache(env, codes, addrs[1..], GeoIPOne(env, false, codes, addrs[0], c).ctx); }
  }

  // ---- a search that accepts a wrong answer ----

  /** Address 0 has the code x, every other address y. */
  function TwoCountries(x: string, y: string): Oracle { Oracle(_ => true, a => if a == 0 then x else y) }

  const SERVER := Transport("s", false, false, false)

  /** The first rule accepts y, the second x. */
  function TwoRules(x: string, y: string): Config {
    Config(TwoCountries(x, y),
           [Entry(GeoRule({y}), "s", false, []), Entry(GeoRule({x}), "s", false, [])],
           map["s" := SERVER], SERVER)
  }

  /** Query n is answered with address n. */
  function Answers(n: nat): Reply { Response(true, Some([n]), true) }

  ghost predicate Untouched(c: Context) {
    Searchable(c) && c.geoIPCode == "" && Endpoint(c.facts, false).None?
  }

  lemma {:induction false} TwoRulesAreUsable(x: string, y: string, start: Context)
    requires Untouched(start)
    ensures var g := TwoRules(x, y);
            Shaped(g, start.facts.source.Some?) && UsableFrom(g, start, true, true, 0) == [0, 1] &&
            WithAddressLimit(g.rules[0]) && WithAddressLimit(g.rules[1])
  {
    var g := TwoRules(x, y);
    GeoRuleFirst(g.env, {y}, Reset(start));
    GeoRuleFirst(g.env, {x}, Reset(start));
    assert UsableFrom(g, start, true, true, 2) == [];
    assert UsableFrom(g, start, true, true, 1) == [1];
  }

  /** One of the two rules asked with a code left over. */
  lemma {:induction false} GeoVerdict(x: string, y: string, start: Context, code: string, j: nat, n: nat)
    requires Untouched(start) && j < 2 && x != "" && y != ""
    ensures var g, wanted, actual := TwoRules(x, y), if j == 0 then y else x, if n == 0 then x else y;
            var o := SecondOutcome(g, start, code, j, [n]);
            o.ok == ((if code != "" then code else actual) == wanted) && o.ctx.geoIPCode == (if code != "" then code else actual)
  {
    var g, wanted := TwoRules(x, y), if j == 0 then y else x;
    var c := Reset(start.(geoIPCode := code));
    assert g.rules[j].rule == GeoRule({wanted});
    GeoRuleFirst(g.env, {wanted}, c);
    GeoRuleSecond(g.env, {wanted}, c.(addresses := [n]));
    var d := SetDidMatch(c.(addresses := [n]));
    hide EvalRule;
    assert [n][1..] == [];
    var one := GeoIPOne(g.env, false, {wanted}, n, d);
    assert GeoIPAny(g.env, false, {wanted}, [], one.ctx) == Outcome(false, one.ctx);
  }

  /** The first answer, of country x, is rejected by the first rule; its code then makes the
      second rule accept the second answer, which is of country y. */
  method StaleCodeAccepts(m: InboundContext, x: string, y: string) returns (run: Run, verdicts: seq<bool>)
    requires Untouched(m.Value()) && x != "" && y != "" && x != y
    modifies m
    ensures run.ok && run.queries == [Query(ByRule(0), SERVER), Query(ByRule(1), SERVER)] && verdicts == [false, true]
    ensures run.reply == Answers(1) && !StaticVerdict(TwoRules(x, y), old(m.Value()), 1, [1])
    ensures !GeoIPHolds(TwoCountries(x, y), {x}, [1])
  {
    ghost var start, g := m.Value(), TwoRules(x, y);
    TwoRulesAreUsable(x, y, start);
    GeoVerdict(x, y, start, "", 0, 0);
    GeoVerdict(x, y, start, x, 1, 1);
    GeoVerdict(x, y, start, "", 1, 1);
    run, verdicts := ExchangeFunc(TwoRules(x, y), m, Answers, true);
    TwoQueries(x, y, start, run, verdicts);
  }

  /** Two rejections or acceptances in a row, read off the log. */
  lemma {:induction false} TwoQueries(x: string, y: string, start: Context, run: Run, verdicts: seq<bool>)
    requires Untouched(start) && x != "" && y != "" && x != y
    requires var g := TwoRules(x, y);
             WithAddressLimit(g.rules[0]) && WithAddressLimit(g.rules[1]) &&
             run == Fold(g, false, true, Answers, verdicts, [0, 1], 0) && Logged(g, start, false, Answers, run.queries, verdicts)
    ensures run.ok && run.queries == [Query(ByRule(0), SERVER), Query(ByRule(1), SERVER)] && verdicts == [false, true] && run.reply == Answers(1)
  {
    var g := TwoRules(x, y);
    GeoVerdict(x, y, start, "", 0, 0);
    GeoVerdict(x, y, start, x, 1, 1);
    hide SecondOutcome, WithAddressLimit;
    assert [0, 1][1..] == [1] && [1][1..] == [];
    var q0 := Query(ByRule(0), SERVER);
    assert run.queries[0] == q0;
    assert run.queries[..0] == [];
    assert LoggedVerdict(g, start, false, Answers, run.queries, verdicts, 0);
    assert verdicts[0] == false;
    assert run.queries[1] == Query(ByRule(1), SERVER);
    assert run.queries[..1] == [q0] && [q0][..0] == [];
    assert CodeAfterAll(g, start, false, Answers, []) == "";
    assert CodeAfterAll(g, start, false, Answers, [q0]) == x;
    assert LoggedVerdict(g, start, false, Answers, run.queries, verdicts, 1);
    assert verdicts[1] == true;
  }

  // ---- a connection without a valid source ----

  /** A DNS rule with one source GeoIP condition. */
  function SourceRule(codes: set<string>): Rule { Default(DNSRule, false, [], [GeoIP(true, codes)], [], [], [], []) }

  lemma {:induction false} SourceRuleFirst(env: Oracle, codes: set<string>, c: Context)
    requires c.cache == EMPTY_CACHE && !c.ignoreDestinationIPCIDRMatch
    ensures EvalRule(env, false, SourceRule(codes), c).ok == EvalGeoIP(env, true, codes, SetDidMatch(c.(ignoreDestinationIPCIDRMatch := true))).ok
  {
    var r, c0 := SourceRule(codes), c.(ignoreDestinationIPCIDRMatch := true);
    var d := SetDidMatch(c0);
    var g := EvalGeoIP(env, true, codes, d);
    SourceAnyKeepsCache(env, codes, d.addresses, d);
    assert EvalItem(env, r.sourceAddressItems[0], d) == g;
    assert EvalAny(env, r.sourceAddressItems[1..], g.ctx) == Outcome(false, g.ctx);
    assert EvalAny(env, r.sourceAddressItems, d) == g;
    var staged := Stage(env, SourceAddress, r.sourceAddressItems, c0);
    assert Stages(env, r, c0) == staged;
    assert EvalAll(env, r.items, staged) == Outcome(true, staged);
  }

  lemma {:induction false} SourceAnyKeepsCache(env: Oracle, codes: set<string>, addrs: seq<Addr>, c: Context)
    ensures var o := GeoIPAny(env, true, codes, addrs, c); o.ctx == c.(sourceGeoIPCode := o.ctx.sourceGeoIPCode)
  {
    if addrs != [] { SourceAnyKeepsCache(env, codes, addrs[1..], GeoIPOne(env, true, codes, addrs[0], c).ctx); }
  }

  ghost predicate MatchesAfter(env: Oracle, codes: set<string>, start: Context, answer: seq<Addr>) {
    EvalRule(env, false, SourceRule(codes), Reset(start.(addresses := answer))).ok
  }

  /** Earlier answers leave the match of a source GeoIP rule alone exactly when the source is
      valid or its code is already cached; otherwise the rule reads the answer. a is any
      address of a wanted country. */
  lemma {:induction false} SourceRuleIgnoresAnswersIff(env: Oracle, codes: set<string>, start: Context, a: Addr)
    requires Searchable(start) && start.addresses == [] && CodeOf(env, a) != "" && CodeOf(env, a) in codes
    ensures (forall answer :: MatchesAfter(env, codes, start, answer) == MatchesAfter(env, codes, start, [])) <==>
            start.facts.source.Some? || start.sourceGeoIPCode != ""
    ensures DnsRules.DNSShape(start.facts.source.Some?, SourceRule(codes)) <==> start.facts.source.Some?
  {
    forall answer: seq<Addr>
      ensures MatchesAfter(env, codes, start, answer) ==
              EvalGeoIP(env, true, codes, SetDidMatch(Reset(start.(addresses := answer)).(ignoreDestinationIPCIDRMatch := true))).ok
    {
      SourceRuleFirst(env, codes, Reset(start.(addresses := answer)));
    }
    hide EvalRule;
    if start.facts.source.None? && start.sourceGeoIPCode == "" {
      assert MatchesAfter(env, codes, start, [a]) && !MatchesAfter(env, codes, start, []);
    }
    var item := SourceRule(codes).sourceAddressItems[0];
    assert item in SourceRule(codes).sourceAddressItems && item.GeoIP?;
  }
}

/** Building rule sets from options: which group each condition lands in, and the
    metadata that resolution later relies on. */
module RuleSetBuild {
  import opened Wrappers
  import opened RuleModel
  import opened LazyResolution

  type Test = Facts -> bool

  /** A list option that has to be parsed. */
  datatype Parsed<T> = Absent | Invalid | Valid(value: T)

  datatype DefaultOptions = DefaultOptions(
    queryType: bool,
    network: Option<Test>,
    domain: Option<Test>,
    domainKeyword: Option<Test>,
    domainRegex: Parsed<Test>,
    sourceIPCIDR: Parsed<set<Addr>>,
    sourceIPSet: Option<set<Addr>>,
    ipCIDR: Parsed<set<Addr>>,
    ipSet: Option<set<Addr>>,
    sourcePort: Option<Test>,
    sourcePortRange: Parsed<Test>,
    port: Option<Test>,
    portRange: Parsed<Test>,
    processName: Option<Test>,
    processPath: Option<Test>,
    packageName: Option<Test>,
    wifiSSID: Option<Test>,
    wifiBSSID: Option<Test>,
    adGuardDomain: Option<Test>,
    invert: bool)

  /** type is "", "default" or "logical"; anything else is refused. */
  datatype Options = Options(typ: string, defaults: DefaultOptions, mode: string, invert: bool, rules: seq<Options>)

  datatype Result<+T> = Ok(value: T) | Err(message: string)

  function PlainOf(t: Option<Test>): seq<Item> { if t.Some? then [Plain(t.value)] else [] }

  function PlainOfParsed(t: Parsed<Test>): seq<Item> { if t.Valid? then [Plain(t.value)] else [] }

  function CIDROf(isSource: bool, list: Parsed<set<Addr>>, raw: Option<set<Addr>>): seq<Item> {
    if list.Valid? then [IPCIDR(isSource, list.value)]
    else if list.Absent? && raw.Some? then [IPCIDR(isSource, raw.value)]
    else []
  }

  predicate IsValidDefault(o: DefaultOptions) {
    o.queryType || o.network.Some? || o.domain.Some? || o.domainKeyword.Some? || !o.domainRegex.Absent? ||
    !o.sourceIPCIDR.Absent? || o.sourceIPSet.Some? || !o.ipCIDR.Absent? || o.ipSet.Some? ||
    o.sourcePort.Some? || !o.sourcePortRange.Absent? || o.port.Some? || !o.portRange.Absent? ||
    o.processName.Some? || o.processPath.Some? || o.packageName.Some? || o.wifiSSID.Some? || o.wifiBSSID.Some? ||
    o.adGuardDomain.Some?
  }

  predicate IsValid(o: Options)
    decreases o
  {
    if o.typ == "" || o.typ == "default" then IsValidDefault(o.defaults)
    else |o.rules| > 0 && forall i | 0 <= i < |o.rules| :: IsValid(o.rules[i])
  }

  /** NewDefaultHeadlessRule; without a router the WIFI conditions are dropped. */
  function BuildDefault(router: bool, o: DefaultOptions): Result<Rule> {
    if o.domainRegex.Invalid? then Err("domain_regex")
    else if o.sourceIPCIDR.Invalid? then Err("source_ip_cidr")
    else if o.ipCIDR.Invalid? then Err("ipcidr")
    else if o.sourcePortRange.Invalid? then Err("source_port_range")
    else if o.portRange.Invalid? then Err("port_range")
    else
      var wifi := if router then PlainOf(o.wifiSSID) + PlainOf(o.wifiBSSID) else [];
      Ok(Default(HeadlessRule, o.invert,
        PlainOf(o.network) + PlainOf(o.processName) + PlainOf(o.processPath) + PlainOf(o.packageName) + wifi,
        CIDROf(true, o.sourceIPCIDR, o.sourceIPSet),
        PlainOf(o.sourcePort) + PlainOfParsed(o.sourcePortRange),
        PlainOf(o.domain) + PlainOf(o.domainKeyword) + PlainOfParsed(o.domainRegex) + PlainOf(o.adGuardDomain),
        CIDROf(false, o.ipCIDR, o.ipSet),
        PlainOf(o.port) + PlainOfParsed(o.portRange)))
  }

  /** NewHeadlessRule */
  function Build(router: bool, o: Options): Result<Rule>
    decreases o, 1
  {
    if o.typ == "" || o.typ == "default" then
      if !IsValidDefault(o.defaults) then Err("missing conditions") else BuildDefault(router, o.defaults)
    else if o.typ == "logical" then
      if !IsValid(o) then Err("missing conditions")
      else if o.mode != "and" && o.mode != "or" then Err("unknown logical mode")
      else match BuildAll(router, o.rules)
        case Err(e) => Err(e)
        case Ok(rules) => Ok(Logical(HeadlessRule, if o.mode == "and" then And else Or, o.invert, rules))
    else Err("unknown rule type")
  }

  function BuildAll(router: bool, os: seq<Options>): Result<seq<Rule>>
    decreases os, 0
  {
    if os == [] then Ok([])
    else match Build(router, os[0])
      case Err(e) => Err(e)
      case Ok(rule) =>
        match BuildAll(router, os[1..])
        case Err(e) => Err(e)
        case Ok(rest) => Ok([rule] + rest)
  }

  // ---- metadata ----

  predicate HasCIDROption(o: DefaultOptions) { !o.ipCIDR.Absent? || o.ipSet.Some? }

  /** hasHeadlessRule with isIPCIDRHeadlessRule: an entry of any other type is passed over. */
  predicate HasIPCIDRRule(os: seq<Options>)
    decreases os
  {
    if os == [] then false
    else if os[0].typ == "default" && HasCIDROption(os[0].defaults) then true
    else if os[0].typ == "logical" && HasIPCIDRRule(os[0].rules) then true
    else HasIPCIDRRule(os[1..])
  }

  /** Some rule of the options, at any depth, has destination addresses. */
  ghost predicate DeclaresCIDR(o: Options)
    decreases o
  {
    if o.typ == "" || o.typ == "default" then HasCIDROption(o.defaults)
    else exists sub <- o.rules :: DeclaresCIDR(sub)
  }

  /** As the option decoder leaves them: the empty type is written out. */
  ghost predicate Normalized(o: Options)
    decreases o
  {
    o.typ != "" && (o.typ == "logical" ==> forall sub <- o.rules :: Normalized(sub))
  }

  lemma PlainAppend(xs: seq<Item>, ys: seq<Item>)
    requires PlainItems(xs) && PlainItems(ys)
    ensures PlainItems(xs + ys)
  {
  }

  lemma {:induction false} BuiltDefaultIsGrouped(router: bool, o: DefaultOptions)
    requires BuildDefault(router, o).Ok?
    ensures HeadlessGrouped(BuildDefault(router, o).value)
    ensures ContainsIPCIDR(BuildDefault(router, o).value) == HasCIDROption(o)
  {
    var r := BuildDefault(router, o).value;
    var wifi := if router then PlainOf(o.wifiSSID) + PlainOf(o.wifiBSSID) else [];
    PlainAppend(PlainOf(o.wifiSSID), PlainOf(o.wifiBSSID));
    PlainAppend(PlainOf(o.network), PlainOf(o.processName));
    PlainAppend(PlainOf(o.network) + PlainOf(o.processName), PlainOf(o.processPath));
    PlainAppend(PlainOf(o.network) + PlainOf(o.processName) + PlainOf(o.processPath), PlainOf(o.packageName));
    PlainAppend(PlainOf(o.network) + PlainOf(o.processName) + PlainOf(o.processPath) + PlainOf(o.packageName), wifi);
    PlainAppend(PlainOf(o.sourcePort), PlainOfParsed(o.sourcePortRange));
    PlainAppend(PlainOf(o.domain), PlainOf(o.domainKeyword));
    PlainAppend(PlainOf(o.domain) + PlainOf(o.domainKeyword), PlainOfParsed(o.domainRegex));
    PlainAppend(PlainOf(o.domain) + PlainOf(o.domainKeyword) + PlainOfParsed(o.domainRegex), PlainOf(o.adGuardDomain));
    PlainAppend(PlainOf(o.port), PlainOfParsed(o.portRange));
    hide PlainItems;
    assert forall i | 0 <= i < |r.items| :: !r.items[i].RuleSetItem? by { assert forall i | 0 <= i < |r.items| :: r.items[i].Plain?; }
  }

  /** The built rule has its items in the right groups, and address items exactly when the
      options declare some. */
  lemma {:induction false} BuiltRuleIsGrouped(router: bool, o: Options)
    requires Build(router, o).Ok?
    ensures HeadlessGrouped(Build(router, o).value)
    ensures ContainsIPCIDR(Build(router, o).value) == DeclaresCIDR(o)
    decreases o, 1
  {
    if o.typ != "logical" {
      BuiltDefaultIsGrouped(router, o.defaults);
    } else {
      BuiltRulesAreGrouped(router, o.rules);
      var rules := BuildAll(router, o.rules).value;
      if exists i | 0 <= i < |rules| :: ContainsIPCIDR(rules[i]) {
        var i :| 0 <= i < |rules| && ContainsIPCIDR(rules[i]);
        assert DeclaresCIDR(o.rules[i]);
      }
    }
  }

  lemma {:induction false} BuiltRulesAreGrouped(router: bool, os: seq<Options>)
    requires BuildAll(router, os).Ok?
    ensures var rules := BuildAll(router, os).value;
            |rules| == |os| &&
            forall i | 0 <= i < |os| ::
              HeadlessGrouped(rules[i]) && Build(router, os[i]) == Ok(rules[i]) &&
              ContainsIPCIDR(rules[i]) == DeclaresCIDR(os[i])
    decreases os, 0
  {
    if os != [] {
      BuiltRuleIsGrouped(router, os[0]);
      BuiltRulesAreGrouped(router, os[1..]);
      assert os == [os[0]] + os[1..];
    }
  }

  ghost predicate AnyDeclares(os: seq<Options>) { exists i | 0 <= i < |os| :: DeclaresCIDR(os[i]) }

  lemma {:induction false} MetadataOnNormalized(os: seq<Options>)
    requires forall i | 0 <= i < |os| :: Normalized(os[i]) && WellTyped(os[i])
    ensures HasIPCIDRRule(os) == AnyDeclares(os)
    decreases os
  {
    if os != [] {
      var first, rest := os[0], os[1..];
      if first.typ == "logical" {
        MetadataOnNormalized(first.rules);
        assert DeclaresCIDR(first) == AnyDeclares(first.rules);
      }
      MetadataOnNormalized(rest);
      assert HasIPCIDRRule(os) == (DeclaresCIDR(first) || HasIPCIDRRule(rest));
      assert forall i | 0 <= i < |rest| :: rest[i] == os[i + 1];
      if AnyDeclares(rest) {
        var i :| 0 <= i < |rest| && DeclaresCIDR(rest[i]);
        assert DeclaresCIDR(os[i + 1]);
      }
    }
  }

  /** Every entry has a known type. */
  ghost predicate WellTyped(o: Options)
    decreases o
  {
    o.typ == "" || o.typ == "default" || (o.typ == "logical" && forall sub <- o.rules :: WellTyped(sub))
  }

  lemma {:induction false} BuiltIsWellTyped(router: bool, o: Options)
    requires Build(router, o).Ok?
    ensures WellTyped(o)
    decreases o, 1
  {
    if o.typ == "logical" {
      BuiltRulesAreGrouped(router, o.rules);
      forall sub | sub in o.rules ensures WellTyped(sub) {
        var i :| 0 <= i < |o.rules| && o.rules[i] == sub;
        BuiltIsWellTyped(router, sub);
      }
    }
  }

  function Loaded(router: bool, os: seq<Options>): Result<RuleSet> {
    match BuildAll(router, os)
    case Err(e) => Err(e)
    case Ok(rules) => Ok(RuleSet(rules, HasIPCIDRRule(os)))
  }

  lemma {:induction false} BuiltContainsIffDeclared(router: bool, os: seq<Options>)
    requires BuildAll(router, os).Ok?
    ensures var rules := BuildAll(router, os).value;
            (forall r <- rules :: HeadlessGrouped(r)) && (AnyDeclares(os) <==> exists r <- rules :: ContainsIPCIDR(r))
  {
    BuiltRulesAreGrouped(router, os);
    var rules := BuildAll(router, os).value;
    if AnyDeclares(os) {
      var i :| 0 <= i < |os| && DeclaresCIDR(os[i]);
      assert rules[i] in rules && ContainsIPCIDR(rules[i]);
    }
    if exists r <- rules :: ContainsIPCIDR(r) {
      var r :| r in rules && ContainsIPCIDR(r);
      var i :| 0 <= i < |rules| && rules[i] == r;
      assert DeclaresCIDR(os[i]);
    }
  }

  /** A loaded set hides no address rule from the resolver exactly when the metadata scan
      finds one or none is declared. */
  lemma {:induction false} LoadedMetadataCovers(router: bool, os: seq<Options>)
    requires Loaded(router, os).Ok?
    ensures MetadataCovers(Loaded(router, os).value) <==> (AnyDeclares(os) ==> HasIPCIDRRule(os))
  {
    BuiltContainsIffDeclared(router, os);
  }

  /** On normalized options the metadata of a loaded set is exact. */
  lemma {:induction false} NormalizedMetadataIsExact(router: bool, os: seq<Options>)
    requires Loaded(router, os).Ok? && forall i | 0 <= i < |os| :: Normalized(os[i])
    ensures var s := Loaded(router, os).value;
            MetadataCovers(s) && (s.containsIPCIDRRule <==> exists r <- s.rules :: ContainsIPCIDR(r))
  {
    BuiltRulesAreGrouped(router, os);
    forall i | 0 <= i < |os| ensures WellTyped(os[i]) { BuiltIsWellTyped(router, os[i]); }
    MetadataOnNormalized(os);
    BuiltContainsIffDeclared(router, os);
    LoadedMetadataCovers(router, os);
  }

  /** An entry whose type is left empty builds an address rule the metadata scan misses. No
      decoder of the program leaves it empty, so this is a limit of the scan, not of the sets
      it is used on. */
  lemma {:induction false} EmptyTypeIsMissed(router: bool, defaults: DefaultOptions)
    requires HasCIDROption(defaults) && BuildDefault(router, defaults).Ok?
    ensures var os := [Options("", defaults, "", false, [])];
            Loaded(router, os).Ok? && !MetadataCovers(Loaded(router, os).value)
  {
    var os := [Options("", defaults, "", false, [])];
    assert os[1..] == [];
    assert BuildAll(router, os).Ok?;
    assert DeclaresCIDR(os[0]);
    assert !HasIPCIDRRule(os[1..]) && !HasIPCIDRRule(os);
    LoadedMetadataCovers(router, os);
  }

  /** query_type passes validation but yields no item, so a rule with nothing else matches
      every connection, inverted or not. */
  lemma {:induction false} QueryTypeAloneMatchesAll(router: bool, o: Options, env: Oracle, c: Context)
    requires o.typ == "default" && o.defaults.queryType && !IsValidDefault(o.defaults.(queryType := false))
    ensures Build(router, o).Ok? && EvalRule(env, false, Build(router, o).value, c) == Outcome(true, c)
  {
  }

  // ---- the mutable rule set ----

  /** The rules built so far, followed by the rest. */
  function Behind(built: seq<Rule>, rest: Result<seq<Rule>>): Result<seq<Rule>> {
    match rest case Err(e) => Err(e) case Ok(rules) => Ok(built + rules)
  }

  lemma {:induction false} BehindNothing(rest: Result<seq<Rule>>)
    ensures Behind([], rest) == rest
  {
    if rest.Ok? { assert [] + rest.value == rest.value; }
  }

  lemma {:induction false} BehindOneMore(built: seq<Rule>, rule: Rule, rest: Result<seq<Rule>>)
    ensures Behind(built, Behind([rule], rest)) == Behind(built + [rule], rest)
  {
    if rest.Ok? { assert built + ([rule] + rest.value) == built + [rule] + rest.value; }
  }

  datatype RefOp = Inc | Dec

  /** References taken minus references given up. */
  function Balance(ops: seq<RefOp>): int {
    if ops == [] then 0 else Balance(ops[..|ops| - 1]) + if ops[|ops| - 1].Inc? then 1 else -1
  }

  class AbstractRuleSet {
    var rules: seq<Rule>
    var containsIPCIDRRule: bool
    var refs: int

    constructor ()
      ensures rules == [] && !containsIPCIDRRule && refs == 0
    {
      rules, containsIPCIDRRule, refs := [], false, 0;
    }

    ghost function Value(): RuleSet
      reads this
    {
      RuleSet(rules, containsIPCIDRRule)
    }

    /** A failed reload changes nothing; a successful one replaces rules and metadata together. */
    method ReloadRules(router: bool, os: seq<Options>) returns (r: Result<()>)
      modifies this
      ensures refs == old(refs)
      ensures match Loaded(router, os)
              case Err(e) => r == Err(e) && Value() == old(Value())
              case Ok(s) => r == Ok(()) && Value() == s
    {
      hide Build, HasIPCIDRRule;
      var built: seq<Rule> := [];
      assert os[0..] == os;
      BehindNothing(BuildAll(router, os));
      for i := 0 to |os|
        invariant BuildAll(router, os) == Behind(built, BuildAll(router, os[i..]))
        invariant refs == old(refs) && Value() == old(Value())
      {
        assert os[i..][1..] == os[i + 1..];
        var rule := Build(router, os[i]);
        if rule.Err? { return Err(rule.message); }
        BehindOneMore(built, rule.value, BuildAll(router, os[i + 1..]));
        built := built + [rule.value];
      }
      assert built + [] == built;
      rules := built;
      containsIPCIDRRule := HasIPCIDRRule(os);
      return Ok(());
    }

    method IncRef()
      modifies `refs
      ensures refs == old(refs) + 1
    {
      refs := refs + 1;
    }

    /** The source panics on a negative count. */
    method DecRef() returns (panicked: bool)
      modifies `refs
      ensures refs == old(refs) - 1 && panicked == (refs < 0)
    {
      refs := refs - 1;
      panicked := refs < 0;
    }

    /** Any sequence of the two, up to the first panic: it panics exactly when some prefix has
        more releases than there are references. */
    method CountRefs(ops: seq<RefOp>) returns (panicked: bool)
      requires refs >= 0
      modifies `refs
      ensures panicked <==> exists k: nat :: k <= |ops| && Balance(ops[..k]) + old(refs) < 0
      ensures !panicked ==> refs == old(refs) + Balance(ops) >= 0
    {
      panicked := false;
      assert ops[..0] == [];
      for i := 0 to |ops|
        invariant refs == old(refs) + Balance(ops[..i]) >= 0
        invariant forall k: nat | k <= i :: Balance(ops[..k]) + old(refs) >= 0
      {
        assert ops[..i + 1][..i] == ops[..i];
        if ops[i].Inc? { IncRef(); } else { panicked := DecRef(); }
        if panicked { return; }
      }
      assert ops[..|ops|] == ops;
    }

    /** Rules are dropped only when nobody holds a reference; the metadata stays. */
    method Cleanup()
      modifies `rules
      ensures rules == if refs == 0 then [] else old(rules)
      ensures MetadataCovers(old(Value())) ==> MetadataCovers(Value())
    {
      if refs == 0 { rules := []; }
    }
  }
}

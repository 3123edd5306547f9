/** Outbound groups: selectors and URL tests that refer to other outbounds, including other
    groups, and the recursion through what they have selected. */
module Groups {
  import opened Wrappers
  import StartOrder

  /** An outbound object: one of the configured list, or one a provider created. */
  datatype Node =
    | Configured(index: nat)
    | Provided(tag: string, otype: string, serial: nat)

  /** A configured outbound. For a group, dependencies are the member tags, uses the
      providers it draws from and filter the admission test for their outbounds. */
  datatype Config = Config(
    tag: string,
    otype: string,
    dependencies: seq<string>,
    uses: seq<string>,
    filter: Node -> bool,
    defaultTag: string,
    fallbackByDelayTest: bool)

  /** The mutable fields of a started group. A selector uses selected, a URL test tcp and
      udp. */
  datatype Group = Group(
    outbounds: seq<Node>,
    outboundByTag: map<string, Node>,
    selected: Option<Node>,
    tcp: Option<Node>,
    udp: Option<Node>)

  /** started lists the configured outbounds in the order they were started. */
  datatype State = State(providers: map<string, seq<Node>>, groups: map<nat, Group>, started: seq<nat>)

  const INIT := State(map[], map[], [])

  const OUTBOUNDLESS := Configured(0)

  /** The first outbound is the built-in direct outbound; tags are distinct and not empty. */
  ghost predicate WellFormed(cfg: seq<Config>) {
    |cfg| > 0 && cfg[0].tag == "OUTBOUNDLESS" && cfg[0].otype == "direct" && (forall i | 0 <= i < |cfg| :: cfg[i].tag != "") &&
    forall i, j | 0 <= i < j < |cfg| :: cfg[i].tag != cfg[j].tag
  }

  predicate Known(cfg: seq<Config>, n: Node) { n.Configured? ==> n.index < |cfg| }

  function TypeOf(cfg: seq<Config>, n: Node): string
    requires Known(cfg, n)
  {
    if n.Configured? then cfg[n.index].otype else n.otype
  }

  function TagOf(cfg: seq<Config>, n: Node): string
    requires Known(cfg, n)
  {
    if n.Configured? then cfg[n.index].tag else n.tag
  }

  predicate IsSelector(cfg: seq<Config>, n: Node) { Known(cfg, n) && TypeOf(cfg, n) == "selector" }

  predicate IsGroup(cfg: seq<Config>, n: Node) { Known(cfg, n) && TypeOf(cfg, n) in {"selector", "urltest"} }

  /** The router's outbound of a tag: its map is filled in order, so the last one wins. */
  function Find(cfg: seq<Config>, tag: string): (r: Option<Node>)
    ensures r.Some? ==> Known(cfg, r.value) && r.value.Configured? && TagOf(cfg, r.value) == tag
    ensures r.None? <==> forall i | 0 <= i < |cfg| :: cfg[i].tag != tag
  {
    if cfg == [] then None
    else if cfg[|cfg| - 1].tag == tag then Some(Configured(|cfg| - 1))
    else Find(cfg[..|cfg| - 1], tag)
  }

  // ---- provider outbounds ----

  datatype OutboundOption = OutboundOption(tag: string, otype: string, creatable: bool)

  /** createOutbounds: built-in and group types are skipped, and what fails to build is left
      out. */
  function CreateOutbounds(options: seq<OutboundOption>, serial: nat): seq<Node> {
    if options == [] then []
    else
      var rest := CreateOutbounds(options[1..], serial + 1);
      if options[0].otype in {"direct", "block", "dns", "selector", "urltest"} || !options[0].creatable then rest
      else [Provided(options[0].tag, options[0].otype, serial)] + rest
  }

  predicate Leaf(n: Node) { n.Provided? && n.otype !in {"selector", "urltest"} }

  predicate Leaves(nodes: seq<Node>) { forall k | 0 <= k < |nodes| :: Leaf(nodes[k]) }

  lemma {:induction false} CreatedAreLeaves(options: seq<OutboundOption>, serial: nat)
    ensures Leaves(CreateOutbounds(options, serial))
  {
    if options != [] { CreatedAreLeaves(options[1..], serial + 1); }
  }

  /** The outbounds created are exactly those of other types that could be built, in order. */
  lemma {:induction false} CreatedTold(options: seq<OutboundOption>, serial: nat, n: Node)
    ensures n in CreateOutbounds(options, serial) <==>
            n.Provided? && serial <= n.serial < serial + |options| &&
            var o := options[n.serial - serial];
            o.creatable && n.tag == o.tag && n.otype == o.otype &&
            o.otype != "direct" && o.otype != "block" && o.otype != "dns" && o.otype != "selector" && o.otype != "urltest"
    ensures forall k, l | 0 <= k < l < |CreateOutbounds(options, serial)| ::
              CreateOutbounds(options, serial)[k].Provided? && CreateOutbounds(options, serial)[l].Provided? &&
              CreateOutbounds(options, serial)[k].serial < CreateOutbounds(options, serial)[l].serial
  {
    if options != [] {
      var rest := CreateOutbounds(options[1..], serial + 1);
      CreatedTold(options[1..], serial + 1, n);
      forall k | 0 <= k < |rest| ensures rest[k].Provided? && serial < rest[k].serial { CreatedTold(options[1..], serial + 1, rest[k]); }
    }
  }

  // ---- choosing the outbounds of a group ----

  function Named(cfg: seq<Config>, tags: seq<string>): Option<seq<Node>> {
    if tags == [] then Some([])
    else
      var first, rest := Find(cfg, tags[0]), Named(cfg, tags[1..]);
      if first.None? || rest.None? then None else Some([first.value] + rest.value)
  }

  function Admitted(filter: Node -> bool, nodes: seq<Node>): seq<Node> {
    if nodes == [] then []
    else (if filter(nodes[0]) then [nodes[0]] else []) + Admitted(filter, nodes[1..])
  }

  function FromProviders(providers: map<string, seq<Node>>, filter: Node -> bool, uses: seq<string>): Option<seq<Node>> {
    if uses == [] then Some([])
    else if uses[0] !in providers then None
    else
      var rest := FromProviders(providers, filter, uses[1..]);
      if rest.None? then None else Some(Admitted(filter, providers[uses[0]]) + rest.value)
  }

  /** The outbounds that group i names or draws, or None when a name is unknown. */
  function Picked(cfg: seq<Config>, providers: map<string, seq<Node>>, i: nat): Option<seq<Node>>
    requires i < |cfg|
  {
    var named, provided := Named(cfg, cfg[i].dependencies), FromProviders(providers, cfg[i].filter, cfg[i].uses);
    if named.None? || provided.None? then None else Some(named.value + provided.value)
  }

  /** A group that picks nothing has the built-in direct outbound as its only member. */
  function OrOutboundless(picked: seq<Node>): seq<Node> { if picked == [] then [OUTBOUNDLESS] else picked }

  function Members(cfg: seq<Config>, providers: map<string, seq<Node>>, i: nat): Option<seq<Node>>
    requires i < |cfg|
  {
    var picked := Picked(cfg, providers, i);
    if picked.None? then None else Some(OrOutboundless(picked.value))
  }

  predicate AllKnown(cfg: seq<Config>, nodes: seq<Node>) { forall k | 0 <= k < |nodes| :: Known(cfg, nodes[k]) }

  /** The map a selector keeps: a later member replaces an earlier one of the same tag. */
  function Index(cfg: seq<Config>, nodes: seq<Node>): map<string, Node>
    requires AllKnown(cfg, nodes)
  {
    if nodes == [] then map[]
    else
      var last := nodes[|nodes| - 1];
      Index(cfg, nodes[..|nodes| - 1])[TagOf(cfg, last) := last]
  }

  /** What a selector selects among the outbounds it picked: the built-in direct outbound when
      there are none, else the remembered tag, else the default, which must exist, else the
      first. */
  function Preferred(cfg: seq<Config>, i: nat, nodes: seq<Node>, remembered: string): Option<Node>
    requires i < |cfg| && AllKnown(cfg, nodes)
  {
    var byTag := Index(cfg, nodes);
    if nodes == [] then Some(OUTBOUNDLESS)
    else if remembered != "" && remembered in byTag then Some(byTag[remembered])
    else if cfg[i].defaultTag != "" then
      if cfg[i].defaultTag in byTag then Some(byTag[cfg[i].defaultTag]) else None
    else Some(nodes[0])
  }

  // ---- what is picked and selected, by position ----

  ghost predicate Tagged(cfg: seq<Config>, nodes: seq<Node>, tag: string)
    requires AllKnown(cfg, nodes)
  {
    exists k | 0 <= k < |nodes| :: TagOf(cfg, nodes[k]) == tag
  }

  /** n is the last of the list with this tag. */
  ghost predicate LastTagged(cfg: seq<Config>, nodes: seq<Node>, tag: string, n: Node)
    requires AllKnown(cfg, nodes)
  {
    exists k | 0 <= k < |nodes| :: nodes[k] == n && TagOf(cfg, nodes[k]) == tag && forall l | k < l < |nodes| :: TagOf(cfg, nodes[l]) != tag
  }

  /** What a selector with this default and this remembered tag selects among what it picked;
      None if that is an error. */
  ghost predicate Selects(cfg: seq<Config>, picked: seq<Node>, remembered: string, defaultTag: string, selected: Option<Node>)
    requires AllKnown(cfg, picked)
  {
    if picked == [] then selected == Some(Configured(0))
    else if remembered != "" && Tagged(cfg, picked, remembered) then
      selected.Some? && LastTagged(cfg, picked, remembered, selected.value)
    else if defaultTag == "" then selected == Some(picked[0])
    else if Tagged(cfg, picked, defaultTag) then selected.Some? && LastTagged(cfg, picked, defaultTag, selected.value)
    else selected == None
  }

  /** The map names exactly the tags of the list, each by its last outbound. */
  ghost predicate Indexes(cfg: seq<Config>, nodes: seq<Node>, byTag: map<string, Node>)
    requires AllKnown(cfg, nodes)
  {
    forall tag :: (tag in byTag <==> Tagged(cfg, nodes, tag)) && (tag in byTag ==> LastTagged(cfg, nodes, tag, byTag[tag]))
  }

  lemma {:induction false} IndexTold(cfg: seq<Config>, nodes: seq<Node>)
    requires AllKnown(cfg, nodes)
    ensures Indexes(cfg, nodes, Index(cfg, nodes))
  {
    if nodes != [] {
      var front, last, byTag := nodes[..|nodes| - 1], nodes[|nodes| - 1], Index(cfg, nodes);
      IndexTold(cfg, front);
      forall tag ensures (tag in byTag <==> Tagged(cfg, nodes, tag)) && (tag in byTag ==> LastTagged(cfg, nodes, tag, byTag[tag])) {
        if tag == TagOf(cfg, last) {
          assert nodes[|nodes| - 1] == last;
        } else {
          OthersTagged(cfg, nodes, tag);
        }
      }
    }
  }

  /** An outbound of another tag at the end changes nothing. */
  lemma {:induction false} OthersTagged(cfg: seq<Config>, nodes: seq<Node>, tag: string)
    requires AllKnown(cfg, nodes) && nodes != [] && TagOf(cfg, nodes[|nodes| - 1]) != tag
    ensures var front := nodes[..|nodes| - 1];
            (Tagged(cfg, nodes, tag) <==> Tagged(cfg, front, tag)) && (forall n | LastTagged(cfg, front, tag, n) :: LastTagged(cfg, nodes, tag, n))
  {
    var front := nodes[..|nodes| - 1];
    assert forall k | 0 <= k < |front| :: front[k] == nodes[k];
    forall n | LastTagged(cfg, front, tag, n) ensures LastTagged(cfg, nodes, tag, n) {
      var k :| 0 <= k < |front| && front[k] == n && TagOf(cfg, front[k]) == tag && forall l | k < l < |front| :: TagOf(cfg, front[l]) != tag;
      assert nodes[k] == n;
    }
  }

  lemma {:induction false} PreferredTold(cfg: seq<Config>, i: nat, picked: seq<Node>, remembered: string)
    requires i < |cfg| && AllKnown(cfg, picked)
    ensures Selects(cfg, picked, remembered, cfg[i].defaultTag, Preferred(cfg, i, picked, remembered))
  {
    hide Index, LastTagged, Tagged;
    IndexTold(cfg, picked);
  }

  /** Group i with what it picked: its outbounds, and for a selector its map and selection. */
  ghost predicate GroupTold(cfg: seq<Config>, i: nat, picked: seq<Node>, remembered: string, g: Group)
    requires i < |cfg| && |cfg| > 0 && AllKnown(cfg, picked)
  {
    g.outbounds == (if picked == [] then [Configured(0)] else picked) &&
    (cfg[i].otype == "selector" ==>
       Indexes(cfg, g.outbounds, g.outboundByTag) && Selects(cfg, picked, remembered, cfg[i].defaultTag, g.selected))
  }

  /** Picking fails, or leaves a selector without its default. */
  ghost predicate CannotPick(cfg: seq<Config>, providers: map<string, seq<Node>>, i: nat, remembered: string)
    requires i < |cfg|
  {
    var picked := Picked(cfg, providers, i);
    picked.None? ||
    (AllKnown(cfg, picked.value) && cfg[i].otype == "selector" && Selects(cfg, picked.value, remembered, cfg[i].defaultTag, None))
  }

  lemma {:induction false} NamedAreKnown(cfg: seq<Config>, tags: seq<string>)
    ensures var r := Named(cfg, tags);
            r.Some? ==> |r.value| == |tags| &&
                        forall k | 0 <= k < |tags| :: Known(cfg, r.value[k]) && r.value[k].Configured? && TagOf(cfg, r.value[k]) == tags[k]
  {
    if tags != [] { NamedAreKnown(cfg, tags[1..]); }
  }

  ghost predicate Exists(cfg: seq<Config>, tag: string) { exists j | 0 <= j < |cfg| :: cfg[j].tag == tag }

  /** Picking succeeds exactly when every dependency and every provider is known; the
      dependencies come first, in order, and then what the providers give. */
  lemma {:induction false} PickedTold(cfg: seq<Config>, providers: map<string, seq<Node>>, i: nat)
    requires i < |cfg|
    ensures var picked, deps := Picked(cfg, providers, i), cfg[i].dependencies;
            (picked.Some? <==> (forall d <- deps :: Exists(cfg, d)) && forall u <- cfg[i].uses :: u in providers) &&
            (picked.Some? ==>
               |deps| <= |picked.value| && picked.value[|deps|..] == FromProviders(providers, cfg[i].filter, cfg[i].uses).value &&
               forall k | 0 <= k < |deps| :: Known(cfg, picked.value[k]) && picked.value[k].Configured? && TagOf(cfg, picked.value[k]) == deps[k])
  {
    NamedAreKnown(cfg, cfg[i].dependencies);
    NamedIff(cfg, cfg[i].dependencies);
    DrawnIff(providers, cfg[i].filter, cfg[i].uses);
    hide Named, FromProviders;
  }

  lemma {:induction false} NamedIff(cfg: seq<Config>, tags: seq<string>)
    ensures Named(cfg, tags).Some? <==> forall d <- tags :: Exists(cfg, d)
  {
    hide Find;
    if tags != [] {
      assert tags == [tags[0]] + tags[1..];
      NamedIff(cfg, tags[1..]);
      assert Find(cfg, tags[0]).Some? <==> Exists(cfg, tags[0]);
    }
  }

  lemma {:induction false} DrawnIff(providers: map<string, seq<Node>>, filter: Node -> bool, uses: seq<string>)
    ensures FromProviders(providers, filter, uses).Some? <==> forall u <- uses :: u in providers
  {
    if uses != [] {
      assert uses == [uses[0]] + uses[1..];
      DrawnIff(providers, filter, uses[1..]);
    }
  }

  lemma {:induction false} AdmittedSplits(filter: Node -> bool, xs: seq<Node>, ys: seq<Node>)
    ensures Admitted(filter, xs + ys) == Admitted(filter, xs) + Admitted(filter, ys)
  {
    if xs == [] {
      assert xs + ys == ys;
    } else {
      AdmittedSplits(filter, xs[1..], ys);
      assert (xs + ys)[1..] == xs[1..] + ys;
    }
  }

  lemma {:induction false} DrawnSplits(providers: map<string, seq<Node>>, filter: Node -> bool, us: seq<string>, vs: seq<string>)
    requires forall u <- us + vs :: u in providers
    ensures (forall u <- us :: u in providers) && (forall u <- vs :: u in providers)
    ensures var all, first, rest := FromProviders(providers, filter, us + vs), FromProviders(providers, filter, us), FromProviders(providers, filter, vs);
            all.Some? && first.Some? && rest.Some? && all.value == first.value + rest.value
  {
    assert (forall u <- us :: u in us + vs) && (forall u <- vs :: u in us + vs);
    DrawnIff(providers, filter, vs);
    if us == [] {
      assert us + vs == vs;
    } else {
      assert (us + vs)[1..] == us[1..] + vs;
      DrawnSplits(providers, filter, us[1..], vs);
    }
  }

  /** An outbound x of provider u is drawn at its place if the filter admits it, and else
      left out without a trace. */
  lemma {:induction false} DrawnTold(providers: map<string, seq<Node>>, filter: Node -> bool,
                                     us: seq<string>, u: string, vs: seq<string>, xs: seq<Node>, x: Node, ys: seq<Node>)
    requires (forall v <- us + ([u] + vs) :: v in providers) && u in providers && providers[u] == xs + ([x] + ys)
    ensures FromProviders(providers, filter, us).Some? && FromProviders(providers, filter, vs).Some?
    ensures var all := FromProviders(providers, filter, us + ([u] + vs));
            all.Some? && all.value == FromProviders(providers, filter, us).value + Admitted(filter, xs) + (if filter(x) then [x] else []) +
                                      Admitted(filter, ys) + FromProviders(providers, filter, vs).value
  {
    hide FromProviders, Admitted;
    DrawnSplits(providers, filter, us, [u] + vs);
    DrawnSplits(providers, filter, [u], vs);
    AdmittedSplits(filter, xs, [x] + ys);
    AdmittedSplits(filter, [x], ys);
    DrawnAlone(providers, filter, u, x);
  }

  lemma {:induction false} DrawnAlone(providers: map<string, seq<Node>>, filter: Node -> bool, u: string, x: Node)
    requires u in providers
    ensures FromProviders(providers, filter, [u]) == Some(Admitted(filter, providers[u]))
    ensures Admitted(filter, [x]) == if filter(x) then [x] else []
  {
    assert [u][1..] == [] && [x][1..] == [];
    assert FromProviders(providers, filter, []) == Some([]) && Admitted(filter, []) == [];
    assert Admitted(filter, providers[u]) + [] == Admitted(filter, providers[u]);
  }

  lemma {:induction false} AdmittedAreLeaves(filter: Node -> bool, nodes: seq<Node>)
    requires Leaves(nodes)
    ensures Leaves(Admitted(filter, nodes))
  {
    if nodes != [] { AdmittedAreLeaves(filter, nodes[1..]); }
  }

  ghost predicate LeafProviders(providers: map<string, seq<Node>>) { forall p | p in providers :: Leaves(providers[p]) }

  lemma {:induction false} ProvidedAreLeaves(providers: map<string, seq<Node>>, filter: Node -> bool, uses: seq<string>)
    requires LeafProviders(providers)
    ensures var r := FromProviders(providers, filter, uses); r.Some? ==> Leaves(r.value)
  {
    if uses != [] && uses[0] in providers {
      AdmittedAreLeaves(filter, providers[uses[0]]);
      ProvidedAreLeaves(providers, filter, uses[1..]);
    }
  }

  /** A member is a provider's leaf, the built-in direct outbound, or a dependency. */
  predicate MemberOf(cfg: seq<Config>, i: nat, n: Node)
    requires i < |cfg|
  {
    Leaf(n) || n == OUTBOUNDLESS || (n.Configured? && n.index < |cfg| && cfg[n.index].tag in cfg[i].dependencies)
  }

  predicate AllMembers(cfg: seq<Config>, i: nat, nodes: seq<Node>)
    requires i < |cfg|
  {
    forall k | 0 <= k < |nodes| :: MemberOf(cfg, i, nodes[k])
  }

  lemma {:induction false} MembersAreMembers(cfg: seq<Config>, providers: map<string, seq<Node>>, i: nat)
    requires WellFormed(cfg) && i < |cfg| && LeafProviders(providers)
    ensures var r := Members(cfg, providers, i);
            r.Some? ==> r.value != [] && AllMembers(cfg, i, r.value) && AllKnown(cfg, r.value) && AllKnown(cfg, Picked(cfg, providers, i).value)
  {
    NamedAreKnown(cfg, cfg[i].dependencies);
    ProvidedAreLeaves(providers, cfg[i].filter, cfg[i].uses);
  }

  lemma {:induction false} IndexHoldsMembers(cfg: seq<Config>, nodes: seq<Node>)
    requires AllKnown(cfg, nodes)
    ensures forall t | t in Index(cfg, nodes) :: Index(cfg, nodes)[t] in nodes && TagOf(cfg, Index(cfg, nodes)[t]) == t
  {
    if nodes != [] { IndexHoldsMembers(cfg, nodes[..|nodes| - 1]); }
  }

  // ---- actions ----

  /** History: the measured delay by tag. */
  type History = map<string, nat>

  /** What a URL test's check takes for a network, given its selection and its outbounds. */
  type Chooser = (string, Option<Node>, seq<Node>) -> Option<Node>

  /** It keeps the selection or takes an outbound. */
  ghost predicate Honest(choose: Chooser) {
    forall network, current, outbounds :: Choosable(current, outbounds, choose(network, current, outbounds))
  }

  /** One atomic step on one group or one provider. remembered is the cache file's entry for
      the group; tcp and udp are what a URL test chose. */
  datatype Action =
    | Start(i: nat, remembered: string, tcp: Option<Node>, udp: Option<Node>)
    | SetProvider(provider: string, nodes: seq<Node>)
    | UpdateOutbounds(i: nat, provider: string, remembered: string, choose: Chooser)
    | SelectOutbound(i: nat, tag: string)
    | UpdateSelected(i: nat, provider: string, history: History)
    | PerformUpdateCheck(i: nat, tcp: Option<Node>, udp: Option<Node>)

  predicate Running(cfg: seq<Config>, s: State, i: nat) { i < |cfg| && i in s.groups }

  /** A URL test keeps its choice or takes one of its outbounds. */
  predicate Choosable(current: Option<Node>, outbounds: seq<Node>, choice: Option<Node>) {
    choice == current || (choice.Some? && choice.value in outbounds)
  }

  predicate DependenciesStarted(cfg: seq<Config>, s: State, i: nat)
    requires i < |cfg|
  {
    forall d <- cfg[i].dependencies :: exists j <- s.started :: j < |cfg| && cfg[j].tag == d
  }

  /** A group's Start fails when a member or the default is unknown, which ends start-up. */
  predicate StartSucceeds(cfg: seq<Config>, s: State, a: Action)
    requires a.Start? && a.i < |cfg|
  {
    var picked := Picked(cfg, s.providers, a.i);
    picked.Some? && AllKnown(cfg, picked.value) && |cfg| > 0 &&
    (cfg[a.i].otype == "selector" ==> Preferred(cfg, a.i, picked.value, a.remembered).Some?) &&
    Choosable(None, OrOutboundless(picked.value), a.tcp) && Choosable(None, OrOutboundless(picked.value), a.udp)
  }

  ghost predicate Enabled(cfg: seq<Config>, s: State, a: Action) {
    match a
    case Start(i, _, _, _) =>
      i < |cfg| && i !in s.started && DependenciesStarted(cfg, s, i) &&
      (IsGroup(cfg, Configured(i)) ==> StartSucceeds(cfg, s, a))
    case SetProvider(_, nodes) => Leaves(nodes)
    case UpdateOutbounds(i, _, _, choose) => Running(cfg, s, i) && Honest(choose)
    case SelectOutbound(i, _) => Running(cfg, s, i) && cfg[i].otype == "selector"
    case UpdateSelected(i, _, _) => Running(cfg, s, i) && cfg[i].otype == "selector"
    case PerformUpdateCheck(i, tcp, udp) =>
      Running(cfg, s, i) && cfg[i].otype == "urltest" &&
      Choosable(s.groups[i].tcp, s.groups[i].outbounds, tcp) && Choosable(s.groups[i].udp, s.groups[i].outbounds, udp)
  }

  // ---- rank and the invariant ----

  /** The place of x in xs; the length of xs when absent. */
  function Place(xs: seq<nat>, x: nat): (k: nat)
    ensures k <= |xs| && (k < |xs| ==> xs[k] == x) && (x in xs <==> k < |xs|)
  {
    if xs == [] then 0 else if xs[0] == x then 0 else 1 + Place(xs[1..], x)
  }

  /** Zero for everything that is not a group, else one more than the place in the start
      order. */
  function Rank(cfg: seq<Config>, started: seq<nat>, n: Node): nat {
    if IsGroup(cfg, n) && n.Configured? then 1 + Place(started, n.index) else 0
  }

  /** n may be selected by group i: it is known, of lower rank, and started if a group. */
  predicate Below(cfg: seq<Config>, started: seq<nat>, i: nat, n: Node) {
    Known(cfg, n) && Rank(cfg, started, n) <= Place(started, i) && (n.Provided? ==> Leaf(n)) &&
    (IsGroup(cfg, n) ==> n.Configured? && n.index in started)
  }

  predicate AllBelow(cfg: seq<Config>, started: seq<nat>, i: nat, nodes: seq<Node>) {
    forall k | 0 <= k < |nodes| :: Below(cfg, started, i, nodes[k])
  }

  ghost predicate MapBelow(cfg: seq<Config>, started: seq<nat>, i: nat, m: map<string, Node>) {
    forall t | t in m :: Below(cfg, started, i, m[t])
  }

  predicate OptionBelow(cfg: seq<Config>, started: seq<nat>, i: nat, o: Option<Node>) {
    o.Some? ==> Below(cfg, started, i, o.value)
  }

  ghost predicate GroupInv(cfg: seq<Config>, started: seq<nat>, i: nat, g: Group) {
    i < |cfg| && i in started && IsGroup(cfg, Configured(i)) && g.outbounds != [] &&
    AllBelow(cfg, started, i, g.outbounds) && MapBelow(cfg, started, i, g.outboundByTag) &&
    (cfg[i].otype == "selector" ==> g.selected.Some?) &&
    OptionBelow(cfg, started, i, g.selected) && OptionBelow(cfg, started, i, g.tcp) && OptionBelow(cfg, started, i, g.udp)
  }

  /** Every dependency of i was started before place k. */
  ghost predicate StartedBefore(cfg: seq<Config>, started: seq<nat>, k: nat, i: nat) {
    i < |cfg| && k <= |started| && forall d <- cfg[i].dependencies :: exists j <- started[..k] :: j < |cfg| && cfg[j].tag == d
  }

  ghost predicate InOrder(cfg: seq<Config>, started: seq<nat>) {
    forall i | i in started :: StartedBefore(cfg, started, Place(started, i), i)
  }

  ghost predicate Inv(cfg: seq<Config>, s: State) {
    LeafProviders(s.providers) && InOrder(cfg, s.started) &&
    (forall i | i in s.groups :: GroupInv(cfg, s.started, i, s.groups[i])) &&
    (forall i | i in s.started && IsGroup(cfg, Configured(i)) :: i in s.groups)
  }

  // ---- reading a group ----

  /** Now of a group, the tag of any other outbound. */
  function CurrentTag(cfg: seq<Config>, s: State, n: Node): string
    requires Known(cfg, n)
  {
    if n.Configured? && IsGroup(cfg, n) && n.index in s.groups then
      var g := s.groups[n.index];
      if cfg[n.index].otype == "selector" then
        if g.selected.Some? && Known(cfg, g.selected.value) then TagOf(cfg, g.selected.value) else ""
      else if g.tcp.Some? && Known(cfg, g.tcp.value) then TagOf(cfg, g.tcp.value)
      else if g.udp.Some? && Known(cfg, g.udp.value) then TagOf(cfg, g.udp.value)
      else ""
    else TagOf(cfg, n)
  }

  /** SelectedOutbound of a started group: None where the source would dereference nil or
      index an empty list. */
  function Selected(cfg: seq<Config>, s: State, i: nat, network: string): Option<Node> {
    if !Running(cfg, s, i) then None
    else
      var g := s.groups[i];
      if cfg[i].otype == "selector" then g.selected
      else if network == "tcp" && g.tcp.Some? then g.tcp
      else if network == "udp" && g.udp.Some? then g.udp
      else if g.outbounds == [] then None
      else Some(g.outbounds[0])
  }

  /** Following the selections for at most the given number of groups. */
  function Walk(cfg: seq<Config>, s: State, n: Node, network: string, steps: nat): Option<Node>
    decreases steps
  {
    if !IsGroup(cfg, n) then Some(n)
    else if steps == 0 || !n.Configured? then None
    else
      var next := Selected(cfg, s, n.index, network);
      if next.None? then None else Walk(cfg, s, next.value, network, steps - 1)
  }

  lemma {:induction false} SelectedIsBelow(cfg: seq<Config>, s: State, i: nat, network: string)
    requires Inv(cfg, s) && i in s.groups
    ensures var n := Selected(cfg, s, i, network); n.Some? && Below(cfg, s.started, i, n.value)
  {
    assert GroupInv(cfg, s.started, i, s.groups[i]);
    assert Below(cfg, s.started, i, s.groups[i].outbounds[0]);
  }

  /** An outbound that exists for the router: if a group, it is started. */
  predicate Usable(cfg: seq<Config>, s: State, n: Node) {
    Known(cfg, n) && (IsGroup(cfg, n) ==> n.Configured? && n.index in s.started)
  }

  /** Following selections ends at a non-group within rank steps. */
  lemma {:induction false} WalkEnds(cfg: seq<Config>, s: State, n: Node, network: string, steps: nat)
    requires Inv(cfg, s) && Usable(cfg, s, n) && Rank(cfg, s.started, n) <= steps
    ensures var r := Walk(cfg, s, n, network, steps); r.Some? && Known(cfg, r.value) && !IsGroup(cfg, r.value)
    decreases steps
  {
    if IsGroup(cfg, n) {
      SelectedIsBelow(cfg, s, n.index, network);
      WalkEnds(cfg, s, Selected(cfg, s, n.index, network).value, network, steps - 1);
    }
  }

  /** RealOutboundTag: unbounded recursion, terminating because ranks fall. */
  function RealOutboundTag(cfg: seq<Config>, s: State, n: Node, network: string): (tag: string)
    requires Inv(cfg, s) && Usable(cfg, s, n)
    ensures var end := Walk(cfg, s, n, network, Rank(cfg, s.started, n)); end.Some? && Known(cfg, end.value) && tag == TagOf(cfg, end.value)
    decreases Rank(cfg, s.started, n)
  {
    if !IsGroup(cfg, n) then TagOf(cfg, n)
    else
      SelectedIsBelow(cfg, s, n.index, network);
      WalkEnds(cfg, s, n, network, Rank(cfg, s.started, n));
      MoreStepsDoNotMatter(cfg, s, Selected(cfg, s, n.index, network).value, network, Rank(cfg, s.started, n) - 1);
      RealOutboundTag(cfg, s, Selected(cfg, s, n.index, network).value, network)
  }

  lemma {:induction false} MoreStepsDoNotMatter(cfg: seq<Config>, s: State, n: Node, network: string, steps: nat)
    requires Inv(cfg, s) && Usable(cfg, s, n) && Rank(cfg, s.started, n) <= steps
    ensures Walk(cfg, s, n, network, steps) == Walk(cfg, s, n, network, Rank(cfg, s.started, n))
    decreases steps
  {
    if IsGroup(cfg, n) {
      SelectedIsBelow(cfg, s, n.index, network);
      var next := Selected(cfg, s, n.index, network).value;
      MoreStepsDoNotMatter(cfg, s, next, network, steps - 1);
      MoreStepsDoNotMatter(cfg, s, next, network, Rank(cfg, s.started, n) - 1);
    }
  }

  // ---- falling back by delay ----

  predicate Measured(cfg: seq<Config>, s: State, h: History, n: Node) { Known(cfg, n) && CurrentTag(cfg, s, n) in h }

  function DelayOf(cfg: seq<Config>, s: State, h: History, n: Node): nat
    requires Measured(cfg, s, h, n)
  {
    h[CurrentTag(cfg, s, n)]
  }

  /** getMinDelayDetour: the first measured outbound of least delay. */
  function MinDelay(cfg: seq<Config>, s: State, h: History, nodes: seq<Node>): (r: Option<Node>)
    ensures r.Some? ==> Measured(cfg, s, h, r.value)
  {
    if nodes == [] then None
    else
      var best, last := MinDelay(cfg, s, h, nodes[..|nodes| - 1]), nodes[|nodes| - 1];
      if Measured(cfg, s, h, last) && (best.None? || DelayOf(cfg, s, h, last) < DelayOf(cfg, s, h, best.value)) then Some(last) else best
  }

  /** Nothing of the list is measured, or the choice is its first measured outbound that no
      other undercuts. */
  lemma {:induction false} MinDelayIsLeast(cfg: seq<Config>, s: State, h: History, nodes: seq<Node>)
    ensures var r := MinDelay(cfg, s, h, nodes);
            (r.None? ==> forall k | 0 <= k < |nodes| :: !Measured(cfg, s, h, nodes[k])) &&
            (r.Some? ==> exists k | 0 <= k < |nodes| :: nodes[k] == r.value && Leading(cfg, s, h, nodes, k))
  {
    if nodes != [] {
      var front, last := nodes[..|nodes| - 1], nodes[|nodes| - 1];
      MinDelayIsLeast(cfg, s, h, front);
      assert forall k | 0 <= k < |front| :: front[k] == nodes[k];
      var r := MinDelay(cfg, s, h, nodes);
      if r == MinDelay(cfg, s, h, front) && r.Some? {
        var k :| 0 <= k < |front| && front[k] == r.value && Leading(cfg, s, h, front, k);
        assert nodes[k] == r.value && Leading(cfg, s, h, nodes, k);
      } else if r.Some? {
        assert nodes[|front|] == r.value;
        if j :| 0 <= j < |front| && Leading(cfg, s, h, front, j) && front[j] == MinDelay(cfg, s, h, front).value {
          assert Leading(cfg, s, h, nodes, |front|);
        }
      }
    }
  }

  /** Measured, strictly faster than every earlier and no slower than any later one. */
  ghost predicate Leading(cfg: seq<Config>, s: State, h: History, nodes: seq<Node>, k: nat) {
    k < |nodes| && Measured(cfg, s, h, nodes[k]) &&
    (forall j | 0 <= j < k && Measured(cfg, s, h, nodes[j]) :: DelayOf(cfg, s, h, nodes[k]) < DelayOf(cfg, s, h, nodes[j])) &&
    (forall j | k <= j < |nodes| && Measured(cfg, s, h, nodes[j]) :: DelayOf(cfg, s, h, nodes[k]) <= DelayOf(cfg, s, h, nodes[j]))
  }

  predicate BuiltIn(cfg: seq<Config>, n: Node) { Known(cfg, n) && TypeOf(cfg, n) in {"dns", "direct", "block"} }

  function Choose(s: State, i: nat, n: Node): State
    requires i in s.groups
  {
    s.(groups := s.groups[i := s.groups[i].(selected := Some(n))])
  }

  /** A selector that falls back by delay and, if a provider is named, draws from it. */
  predicate Concerned(cfg: seq<Config>, i: nat, provider: string)
    requires i < |cfg|
  {
    cfg[i].fallbackByDelayTest && (provider == "" || provider in cfg[i].uses)
  }

  /** UpdateSelected: the new state and the result. */
  function Falling(cfg: seq<Config>, s: State, i: nat, provider: string, h: History): (r: (State, bool))
    requires Inv(cfg, s) && i in s.groups && cfg[i].otype == "selector"
    ensures !r.1 ==> r.0 == s
    decreases Place(s.started, i)
  {
    if !Concerned(cfg, i, provider) then (s, false)
    else
      SelectedIsBelow(cfg, s, i, "");
      var last := s.groups[i].selected.value;
      if BuiltIn(cfg, last) || Measured(cfg, s, h, last) then (s, true)
      else
        var inner := if IsSelector(cfg, last) then Falling(cfg, s, last.index, "", h) else (s, false);
        var least := MinDelay(cfg, s, h, s.groups[i].outbounds);
        if inner.1 then inner else if least.Some? then (Choose(s, i, least.value), true) else (s, false)
  }

  /** The selector's choice needs no fallback: built in, measured, or a selector that is
      itself settled. */
  predicate Settled(cfg: seq<Config>, s: State, i: nat, h: History)
    requires Inv(cfg, s) && i in s.groups && cfg[i].otype == "selector"
    decreases Place(s.started, i)
  {
    SelectedIsBelow(cfg, s, i, "");
    var last := s.groups[i].selected.value;
    TypeOf(cfg, last) == "dns" || TypeOf(cfg, last) == "direct" || TypeOf(cfg, last) == "block" || CurrentTag(cfg, s, last) in h ||
    (IsSelector(cfg, last) && cfg[last.index].fallbackByDelayTest && Settled(cfg, s, last.index, h))
  }

  /** A selector that does not fall back, or does not draw from the provider named, is left
      alone, settled or not. */
  lemma {:induction false} FallingIgnores(cfg: seq<Config>, s: State, i: nat, provider: string, h: History)
    requires Inv(cfg, s) && i in s.groups && cfg[i].otype == "selector"
    requires !cfg[i].fallbackByDelayTest || (provider != "" && provider !in cfg[i].uses)
    ensures Falling(cfg, s, i, provider, h) == (s, false)
  {
  }

  // ---- steps ----

  function Restarted(cfg: seq<Config>, s: State, i: nat, remembered: string): Option<Group>
    requires i < |cfg|
  {
    var picked := Picked(cfg, s.providers, i);
    if picked.None? || !AllKnown(cfg, picked.value) then None
    else
      var before := if i in s.groups then s.groups[i] else Group([], map[], None, None, None);
      var members := OrOutboundless(picked.value);
      if cfg[i].otype != "selector" then Some(before.(outbounds := members))
      else
        var p := Preferred(cfg, i, picked.value, remembered);
        if p.None? then None
        else Some(before.(outbounds := members, outboundByTag := Index(cfg, members), selected := p))
  }

  /** UpdateOutbounds of a group: a URL test also checks its selections again. */
  function Renewed(cfg: seq<Config>, s: State, i: nat, remembered: string, choose: Chooser): Option<Group>
    requires i < |cfg|
  {
    var g := Restarted(cfg, s, i, remembered);
    if g.None? || cfg[i].otype == "selector" then g
    else Some(Checked(g.value, choose))
  }

  function Checked(g: Group, choose: Chooser): Group {
    g.(tcp := choose("tcp", g.tcp, g.outbounds), udp := choose("udp", g.udp, g.outbounds))
  }

  lemma {:induction false} RestartedTold(cfg: seq<Config>, s: State, i: nat, remembered: string)
    requires WellFormed(cfg) && LeafProviders(s.providers) && i < |cfg|
    ensures var g := Restarted(cfg, s, i, remembered);
            var picked := Picked(cfg, s.providers, i);
            (g.None? <==> CannotPick(cfg, s.providers, i, remembered)) &&
            (g.Some? ==> picked.Some? && AllKnown(cfg, picked.value) && GroupTold(cfg, i, picked.value, remembered, g.value))
  {
    MembersAreMembers(cfg, s.providers, i);
    hide WellFormed, LeafProviders, Index, Picked, LastTagged, Tagged, Preferred;
    var picked := Picked(cfg, s.providers, i);
    if picked.Some? {
      PreferredTold(cfg, i, picked.value, remembered);
      IndexTold(cfg, OrOutboundless(picked.value));
    }
  }

  lemma {:induction false} RenewedTold(cfg: seq<Config>, s: State, i: nat, remembered: string, choose: Chooser)
    requires WellFormed(cfg) && LeafProviders(s.providers) && Running(cfg, s, i)
    ensures var g := Renewed(cfg, s, i, remembered, choose);
            var picked := Picked(cfg, s.providers, i);
            (g.None? <==> CannotPick(cfg, s.providers, i, remembered)) &&
            (g.Some? ==> picked.Some? && AllKnown(cfg, picked.value) && GroupTold(cfg, i, picked.value, remembered, g.value)) &&
            (g.Some? && cfg[i].otype == "urltest" ==>
               g.value.tcp == choose("tcp", s.groups[i].tcp, g.value.outbounds) && g.value.udp == choose("udp", s.groups[i].udp, g.value.outbounds))
  {
    RestartedTold(cfg, s, i, remembered);
    hide WellFormed, LeafProviders, CannotPick, Picked, Selects, Indexes, Preferred, Index;
  }

  ghost function Apply(cfg: seq<Config>, s: State, a: Action): State
    requires Inv(cfg, s) && Enabled(cfg, s, a)
  {
    match a
    case Start(i, remembered, tcp, udp) =>
      var s' := s.(started := s.started + [i]);
      if !IsGroup(cfg, Configured(i)) then s'
      else
        var g := Restarted(cfg, s, i, remembered);
        if g.None? then s
        else if cfg[i].otype == "selector" then s'.(groups := s.groups[i := g.value])
        else s'.(groups := s.groups[i := g.value.(tcp := tcp, udp := udp)])
    case SetProvider(p, nodes) => s.(providers := s.providers[p := nodes])
    case UpdateOutbounds(i, p, remembered, choose) =>
      var g := Renewed(cfg, s, i, remembered, choose);
      if p !in cfg[i].uses || g.None? then s else s.(groups := s.groups[i := g.value])
    case SelectOutbound(i, tag) =>
      if tag in s.groups[i].outboundByTag then Choose(s, i, s.groups[i].outboundByTag[tag]) else s
    case UpdateSelected(i, p, h) => Falling(cfg, s, i, p, h).0
    case PerformUpdateCheck(i, tcp, udp) => s.(groups := s.groups[i := s.groups[i].(tcp := tcp, udp := udp)])
  }

  /** Starting a group: it fails exactly when it cannot pick, and else the group is as told
      from what it picked and nothing else changes. */
  lemma {:induction false} StartTold(cfg: seq<Config>, s: State, a: Action)
    requires WellFormed(cfg) && Inv(cfg, s) && a.Start? && a.i < |cfg| && IsGroup(cfg, Configured(a.i))
    requires a.i !in s.started && DependenciesStarted(cfg, s, a.i)
    ensures a.tcp == a.udp == None ==> (Enabled(cfg, s, a) <==> !CannotPick(cfg, s.providers, a.i, a.remembered))
    ensures Enabled(cfg, s, a) ==>
              var s', picked := Apply(cfg, s, a), Picked(cfg, s.providers, a.i);
              picked.Some? && AllKnown(cfg, picked.value) && a.i in s'.groups && GroupTold(cfg, a.i, picked.value, a.remembered, s'.groups[a.i]) &&
              s' == State(s.providers, s.groups[a.i := s'.groups[a.i]], s.started + [a.i]) &&
              (cfg[a.i].otype == "urltest" ==> s'.groups[a.i].tcp == a.tcp && s'.groups[a.i].udp == a.udp)
  {
    RestartedTold(cfg, s, a.i, a.remembered);
    MembersAreMembers(cfg, s.providers, a.i);
    hide WellFormed, Inv, CannotPick, Preferred, Picked, Selects, Indexes, Index, DependenciesStarted;
  }

  /** A check or a selection takes effect: connections of that network continue at what was
      chosen, and it is what the group reports as its current outbound, a URL test the one for
      TCP if there is one. */
  lemma {:induction false} ChoiceTakesEffect(cfg: seq<Config>, s: State, i: nat, tcp: Option<Node>, udp: Option<Node>, network: string, steps: nat)
    requires Inv(cfg, s) && Enabled(cfg, s, PerformUpdateCheck(i, tcp, udp))
    ensures var s' := Apply(cfg, s, PerformUpdateCheck(i, tcp, udp));
            Walk(cfg, s', Configured(i), network, steps + 1)
              == Walk(cfg, s', if network == "tcp" && tcp.Some? then tcp.value
                               else if network == "udp" && udp.Some? then udp.value
                               else s.groups[i].outbounds[0], network, steps) &&
            (tcp.Some? ==> Known(cfg, tcp.value) && CurrentTag(cfg, s', Configured(i)) == TagOf(cfg, tcp.value)) &&
            (tcp.None? && udp.Some? ==> Known(cfg, udp.value) && CurrentTag(cfg, s', Configured(i)) == TagOf(cfg, udp.value)) &&
            (tcp.None? && udp.None? ==> CurrentTag(cfg, s', Configured(i)) == "")
  {
    assert GroupInv(cfg, s.started, i, s.groups[i]);
  }

  lemma {:induction false} SelectionTakesEffect(cfg: seq<Config>, s: State, i: nat, tag: string, network: string, steps: nat)
    requires Inv(cfg, s) && Enabled(cfg, s, SelectOutbound(i, tag)) && tag in s.groups[i].outboundByTag
    ensures var s', n := Apply(cfg, s, SelectOutbound(i, tag)), s.groups[i].outboundByTag[tag];
            Walk(cfg, s', Configured(i), network, steps + 1) == Walk(cfg, s', n, network, steps) &&
            Known(cfg, n) && CurrentTag(cfg, s', Configured(i)) == TagOf(cfg, n)
  {
    assert GroupInv(cfg, s.started, i, s.groups[i]);
  }

  // ---- every step keeps the ranks ----

  /** Replacing one group by one whose references are all lower. */
  lemma {:induction false} ReplaceKeepsInv(cfg: seq<Config>, s: State, i: nat, g: Group)
    requires Inv(cfg, s) && GroupInv(cfg, s.started, i, g)
    ensures Inv(cfg, s.(groups := s.groups[i := g]))
  {
    hide GroupInv;
  }

  /** A member of a group is below it once its dependencies are started. */
  lemma {:induction false} MemberIsBelow(cfg: seq<Config>, started: seq<nat>, i: nat, n: Node)
    requires WellFormed(cfg) && i < |cfg| && MemberOf(cfg, i, n) && StartedBefore(cfg, started, Place(started, i), i)
    ensures Below(cfg, started, i, n)
  {
    if IsGroup(cfg, n) {
      assert n.Configured? && cfg[n.index].tag in cfg[i].dependencies;
      var j :| j in started[..Place(started, i)] && j < |cfg| && cfg[j].tag == cfg[n.index].tag;
      assert j == n.index;
      EarlierPlace(started, Place(started, i), j);
    }
  }

  lemma {:induction false} EarlierPlace(xs: seq<nat>, k: nat, x: nat)
    requires k <= |xs| && x in xs[..k]
    ensures Place(xs, x) < k
  {
    if xs[0] != x { EarlierPlace(xs[1..], k - 1, x); assert xs[1..][..k - 1] == xs[..k][1..]; }
  }

  /** What a group picks is below it. */
  lemma {:induction false} PickedIsBelow(cfg: seq<Config>, s: State, started: seq<nat>, i: nat, remembered: string)
    requires WellFormed(cfg) && LeafProviders(s.providers) && i < |cfg| && i in started && IsGroup(cfg, Configured(i))
    requires StartedBefore(cfg, started, Place(started, i), i)
    requires i in s.groups ==> GroupInv(cfg, started, i, s.groups[i])
    ensures var g := Restarted(cfg, s, i, remembered);
            g.Some? ==> GroupInv(cfg, started, i, g.value) && AllMembers(cfg, i, g.value.outbounds)
  {
    var m := Members(cfg, s.providers, i);
    MembersAreMembers(cfg, s.providers, i);
    if m.Some? {
      IndexHoldsMembers(cfg, Picked(cfg, s.providers, i).value);
      forall k | 0 <= k < |m.value| ensures Below(cfg, started, i, m.value[k]) { MemberIsBelow(cfg, started, i, m.value[k]); }
      IndexHoldsMembers(cfg, m.value);
      assert MapBelow(cfg, started, i, Index(cfg, m.value));
    }
  }

  lemma {:induction false} PlaceAppended(xs: seq<nat>, x: nat, y: nat)
    ensures x in xs ==> Place(xs + [y], x) == Place(xs, x)
    ensures y !in xs ==> Place(xs + [y], y) == |xs|
  {
    if xs != [] {
      PlaceAppended(xs[1..], x, y);
      assert (xs + [y])[1..] == xs[1..] + [y];
    }
  }

  /** Starting one more outbound leaves every earlier group as it was. */
  lemma {:induction false} AppendKeepsGroup(cfg: seq<Config>, started: seq<nat>, x: nat, i: nat, g: Group)
    requires GroupInv(cfg, started, i, g)
    ensures GroupInv(cfg, started + [x], i, g)
  {
    forall n | Below(cfg, started, i, n) ensures Below(cfg, started + [x], i, n) {
      PlaceAppended(started, i, x);
      if IsGroup(cfg, n) { PlaceAppended(started, n.index, x); }
    }
  }

  lemma {:induction false} AppendKeepsOrder(cfg: seq<Config>, s: State, x: nat)
    requires InOrder(cfg, s.started) && x < |cfg| && x !in s.started && DependenciesStarted(cfg, s, x)
    ensures InOrder(cfg, s.started + [x])
  {
    var longer := s.started + [x];
    forall i | i in longer ensures StartedBefore(cfg, longer, Place(longer, i), i) {
      PlaceAppended(s.started, i, x);
      if i in s.started {
        assert StartedBefore(cfg, s.started, Place(s.started, i), i);
        assert longer[..Place(longer, i)] == s.started[..Place(s.started, i)];
      } else {
        assert longer[..Place(longer, i)] == s.started;
      }
    }
  }

  lemma {:induction false} StartKeepsInv(cfg: seq<Config>, s: State, a: Action)
    requires WellFormed(cfg) && Inv(cfg, s) && a.Start? && Enabled(cfg, s, a)
    ensures Inv(cfg, Apply(cfg, s, a))
  {
    var i, longer := a.i, s.started + [a.i];
    AppendKeepsOrder(cfg, s, i);
    forall j | j in s.groups ensures GroupInv(cfg, longer, j, s.groups[j]) { AppendKeepsGroup(cfg, s.started, i, j, s.groups[j]); }
    if IsGroup(cfg, Configured(i)) {
      PlaceAppended(s.started, i, i);
      PickedIsBelow(cfg, s, longer, i, a.remembered);
    }
  }

  /** A URL test's choice is below it. */
  lemma {:induction false} ChosenIsBelow(cfg: seq<Config>, started: seq<nat>, i: nat, g: Group, tcp: Option<Node>, udp: Option<Node>)
    requires GroupInv(cfg, started, i, g) && Choosable(g.tcp, g.outbounds, tcp) && Choosable(g.udp, g.outbounds, udp)
    ensures GroupInv(cfg, started, i, g.(tcp := tcp, udp := udp))
  {
  }

  /** A fallback changes at most the selection of one selector, to one of its outbounds. */
  lemma {:induction false} FallingKeepsInv(cfg: seq<Config>, s: State, i: nat, provider: string, h: History)
    requires Inv(cfg, s) && i in s.groups && cfg[i].otype == "selector"
    ensures Inv(cfg, Falling(cfg, s, i, provider, h).0)
    decreases Place(s.started, i)
  {
    var (s', ok) := Falling(cfg, s, i, provider, h);
    if s' != s {
      SelectedIsBelow(cfg, s, i, "");
      var last, g := s.groups[i].selected.value, s.groups[i];
      if IsSelector(cfg, last) { FallingKeepsInv(cfg, s, last.index, "", h); }
      MinDelayIsLeast(cfg, s, h, g.outbounds);
      var least := MinDelay(cfg, s, h, g.outbounds);
      if least.Some? {
        assert Below(cfg, s.started, i, least.value);
        ReplaceKeepsInv(cfg, s, i, g.(selected := least));
      }
    }
  }

  lemma {:induction false} RenewedKeepsInv(cfg: seq<Config>, s: State, i: nat, remembered: string, choose: Chooser)
    requires WellFormed(cfg) && Inv(cfg, s) && Running(cfg, s, i) && Honest(choose)
    ensures var g := Renewed(cfg, s, i, remembered, choose); g.Some? ==> Inv(cfg, s.(groups := s.groups[i := g.value]))
  {
    PickedIsBelow(cfg, s, s.started, i, remembered);
    var g := Restarted(cfg, s, i, remembered);
    if g.Some? {
      ChosenIsBelow(cfg, s.started, i, g.value, choose("tcp", g.value.tcp, g.value.outbounds), choose("udp", g.value.udp, g.value.outbounds));
      hide Restarted;
      ReplaceKeepsInv(cfg, s, i, Renewed(cfg, s, i, remembered, choose).value);
    }
  }

  lemma {:induction false} ActionKeepsInv(cfg: seq<Config>, s: State, a: Action)
    requires WellFormed(cfg) && Inv(cfg, s) && Enabled(cfg, s, a)
    ensures Inv(cfg, Apply(cfg, s, a))
  {
    match a
    case Start(_, _, _, _) => StartKeepsInv(cfg, s, a);
    case SetProvider(_, _) =>
    case UpdateOutbounds(i, _, remembered, choose) => RenewedKeepsInv(cfg, s, i, remembered, choose);
    case SelectOutbound(i, tag) =>
      if tag in s.groups[i].outboundByTag {
        ReplaceKeepsInv(cfg, s, i, s.groups[i].(selected := Some(s.groups[i].outboundByTag[tag])));
      }
    case UpdateSelected(i, p, h) => FallingKeepsInv(cfg, s, i, p, h);
    case PerformUpdateCheck(i, tcp, udp) =>
      ChosenIsBelow(cfg, s.started, i, s.groups[i], tcp, udp);
      ReplaceKeepsInv(cfg, s, i, s.groups[i].(tcp := tcp, udp := udp));
  }

  // ---- whole runs ----

  ghost predicate ValidRun(cfg: seq<Config>, s: State, actions: seq<Action>)
    requires WellFormed(cfg) && Inv(cfg, s)
    decreases actions
  {
    actions == [] ||
    (Enabled(cfg, s, actions[0]) && (ActionKeepsInv(cfg, s, actions[0]); ValidRun(cfg, Apply(cfg, s, actions[0]), actions[1..])))
  }

  ghost function Final(cfg: seq<Config>, s: State, actions: seq<Action>): (r: State)
    requires WellFormed(cfg) && Inv(cfg, s) && ValidRun(cfg, s, actions)
    ensures Inv(cfg, r)
    decreases actions
  {
    if actions == [] then s
    else ActionKeepsInv(cfg, s, actions[0]); Final(cfg, Apply(cfg, s, actions[0]), actions[1..])
  }

  /** In every state reached by starting, refreshing, selecting and testing in any order,
      what a group has selected ranks below the group, and following selections from any
      usable outbound ends at a non-group within as many steps as outbounds were started. */
  lemma {:induction false} EveryRunResolves(cfg: seq<Config>, actions: seq<Action>, network: string)
    requires WellFormed(cfg) && ValidRun(cfg, INIT, actions)
    ensures var s := Final(cfg, INIT, actions);
            (forall i | i in s.groups ::
               var n := Selected(cfg, s, i, network);
               n.Some? && Rank(cfg, s.started, n.value) < Rank(cfg, s.started, Configured(i))) &&
            (forall n | Usable(cfg, s, n) ::
               var end := Walk(cfg, s, n, network, |s.started|); end.Some? && Known(cfg, end.value) && !IsGroup(cfg, end.value))
  {
    var s := Final(cfg, INIT, actions);
    forall i | i in s.groups
      ensures var n := Selected(cfg, s, i, network);
              n.Some? && Rank(cfg, s.started, n.value) < Rank(cfg, s.started, Configured(i))
    {
      SelectedIsBelow(cfg, s, i, network);
    }
    forall n | Usable(cfg, s, n)
      ensures var end := Walk(cfg, s, n, network, |s.started|); end.Some? && Known(cfg, end.value) && !IsGroup(cfg, end.value)
    {
      WalkEnds(cfg, s, n, network, |s.started|);
    }
  }

  // ---- the start order ----

  /** The dependency graph that start-up works on. */
  function Graph(cfg: seq<Config>): seq<StartOrder.Outbound> {
    seq(|cfg|, i requires 0 <= i < |cfg| => StartOrder.Outbound(cfg[i].tag, cfg[i].dependencies))
  }

  /** s has started the first k outbounds of the log, in that order. */
  ghost predicate FollowsLog(cfg: seq<Config>, s: State, log: seq<string>, k: nat) {
    k <= |log| && |s.started| == k && forall j | 0 <= j < k :: s.started[j] < |cfg| && cfg[s.started[j]].tag == log[j]
  }

  /** A log that the start-up loop writes can be followed step by step: the next outbound is
      new and its dependencies are started. */
  lemma {:induction false} LogCanBeFollowed(cfg: seq<Config>, s: State, log: seq<string>, k: nat, i: nat)
    requires WellFormed(cfg) && StartOrder.Ordered(Graph(cfg), log) && k < |log| && FollowsLog(cfg, s, log, k)
    requires i < |cfg| && cfg[i].tag == log[k]
    ensures i !in s.started && DependenciesStarted(cfg, s, i)
  {
    var graph := Graph(cfg);
    assert StartOrder.TagAt(graph, i) == log[k];
    forall d | d in cfg[i].dependencies ensures exists j <- s.started :: j < |cfg| && cfg[j].tag == d {
      assert d in graph[i].dependencies;
      assert StartOrder.DependsOn(graph, log[k], d);
      var m :| 0 <= m < k && log[m] == d;
      assert s.started[m] in s.started;
    }
  }

  /** The start actions of a log; starts gives the action of each outbound. */
  function StartActions(cfg: seq<Config>, log: seq<string>, starts: nat -> Action): seq<Action> {
    if log == [] then []
    else
      var n := Find(cfg, log[0]);
      (if n.Some? then [starts(n.value.index)] else []) + StartActions(cfg, log[1..], starts)
  }

  /** Every outbound has a start action, which succeeds with these providers if it is a group. */
  ghost predicate AllStart(cfg: seq<Config>, s: State, starts: nat -> Action) {
    forall i: nat | i < |cfg| :: starts(i).Start? && starts(i).i == i && (IsGroup(cfg, Configured(i)) ==> StartSucceeds(cfg, s, starts(i)))
  }

  /** A whole log in dependency order is a run, if the groups' own starts succeed, and it
      starts exactly the outbounds of the log. */
  lemma {:induction false} LogIsRun(cfg: seq<Config>, s: State, log: seq<string>, k: nat, starts: nat -> Action)
    requires WellFormed(cfg) && Inv(cfg, s) && StartOrder.Ordered(Graph(cfg), log) && FollowsLog(cfg, s, log, k) && AllStart(cfg, s, starts)
    ensures ValidRun(cfg, s, StartActions(cfg, log[k..], starts))
    ensures FollowsLog(cfg, Final(cfg, s, StartActions(cfg, log[k..], starts)), log, |log|)
    decreases |log| - k
  {
    if k < |log| {
      var actions := StartActions(cfg, log[k..], starts);
      assert log[k..][0] == log[k] && log[k..][1..] == log[k + 1..];
      LogNames(cfg, log, k);
      var i := Find(cfg, log[k]).value.index;
      var a := starts(i);
      assert actions == [a] + StartActions(cfg, log[k + 1..], starts) && actions[1..] == StartActions(cfg, log[k + 1..], starts);
      LogCanBeFollowed(cfg, s, log, k, i);
      ActionKeepsInv(cfg, s, a);
      var s' := Apply(cfg, s, a);
      StartFollows(cfg, s, log, k, i, a);
      LogIsRun(cfg, s', log, k + 1, starts);
    } else {
      assert log[k..] == [];
    }
  }

  lemma {:induction false} LogNames(cfg: seq<Config>, log: seq<string>, k: nat)
    requires WellFormed(cfg) && StartOrder.Ordered(Graph(cfg), log) && k < |log|
    ensures Find(cfg, log[k]).Some?
  {
    var graph := Graph(cfg);
    assert StartOrder.IsTag(graph, log[k]);
    var i :| 0 <= i < |graph| && StartOrder.TagAt(graph, i) == log[k];
    assert cfg[i].tag == log[k];
  }

  lemma {:induction false} StartFollows(cfg: seq<Config>, s: State, log: seq<string>, k: nat, i: nat, a: Action)
    requires Inv(cfg, s) && a.Start? && a.i == i && Enabled(cfg, s, a)
    requires k < |log| && FollowsLog(cfg, s, log, k) && cfg[i].tag == log[k]
    ensures FollowsLog(cfg, Apply(cfg, s, a), log, k + 1) && Apply(cfg, s, a).providers == s.providers
  {
  }

  /** After a complete log every outbound is started, so every chain of selections ends. */
  lemma {:induction false} CompleteLogResolves(cfg: seq<Config>, s: State, log: seq<string>, starts: nat -> Action, network: string)
    requires WellFormed(cfg) && Inv(cfg, s) && s.started == [] && AllStart(cfg, s, starts)
    requires StartOrder.Ordered(Graph(cfg), log) && StartOrder.Complete(Graph(cfg), log)
    ensures ValidRun(cfg, s, StartActions(cfg, log, starts))
    ensures var s' := Final(cfg, s, StartActions(cfg, log, starts));
            forall n | Known(cfg, n) && (n.Provided? ==> Leaf(n)) ::
              var end := Walk(cfg, s', n, network, |s'.started|); end.Some? && Known(cfg, end.value) && !IsGroup(cfg, end.value)
  {
    assert log[0..] == log;
    LogIsRun(cfg, s, log, 0, starts);
    var s' := Final(cfg, s, StartActions(cfg, log, starts));
    forall n | Known(cfg, n) && (n.Provided? ==> Leaf(n))
      ensures var end := Walk(cfg, s', n, network, |s'.started|); end.Some? && Known(cfg, end.value) && !IsGroup(cfg, end.value)
    {
      if n.Configured? { CompleteLogStarts(cfg, s', log, n.index); }
      WalkEnds(cfg, s', n, network, |s'.started|);
    }
  }

  lemma {:induction false} CompleteLogStarts(cfg: seq<Config>, s: State, log: seq<string>, i: nat)
    requires WellFormed(cfg) && StartOrder.Complete(Graph(cfg), log) && FollowsLog(cfg, s, log, |log|) && i < |cfg|
    ensures i in s.started
  {
    assert StartOrder.TagAt(Graph(cfg), i) == cfg[i].tag;
    var k :| 0 <= k < |log| && log[k] == cfg[i].tag;
    assert cfg[s.started[k]].tag == cfg[i].tag;
  }

  /** Start-up of the outbounds with their groups: when it succeeds, the log is a run of the
      groups from the state before it, and every chain of selections resolves. fails tells
      which starts report an error; a group's start succeeds when it reports none. */
  method StartUp(cfg: seq<Config>, fails: string -> bool, ghost s: State, ghost starts: nat -> Action, ghost network: string)
      returns (r: StartOrder.Result, log: seq<string>)
    requires WellFormed(cfg) && Inv(cfg, s) && s.started == []
    requires forall i: nat | i < |cfg| :: starts(i).Start? && starts(i).i == i
    requires forall i: nat | i < |cfg| && IsGroup(cfg, Configured(i)) && !fails(cfg[i].tag) :: StartSucceeds(cfg, s, starts(i))
    ensures r.Started? ==> ValidRun(cfg, s, StartActions(cfg, log, starts))
    ensures r.Started? ==>
              var s' := Final(cfg, s, StartActions(cfg, log, starts));
              forall n | Known(cfg, n) && (n.Provided? ==> Leaf(n)) ::
                var end := Walk(cfg, s', n, network, |s'.started|); end.Some? && Known(cfg, end.value) && !IsGroup(cfg, end.value)
  {
    r, log := StartOrder.StartOutbounds(Graph(cfg), true, fails);
    if r.Started? {
      var graph := Graph(cfg);
      forall i: nat | i < |cfg| ensures !fails(cfg[i].tag) {
        assert StartOrder.TagAt(graph, i) == cfg[i].tag;
        assert cfg[i].tag in log;
      }
      assert StartOrder.Distinct(graph);
      CompleteLogResolves(cfg, s, log, starts, network);
    }
  }

  // ---- what a fallback achieves ----

  /** s' is s with selector j, no later than place k, switched to its least delayed outbound. */
  ghost predicate Switched(cfg: seq<Config>, s: State, s': State, h: History, k: nat, j: nat) {
    j in s.groups && Place(s.started, j) <= k &&
    exists m | 0 <= m < |s.groups[j].outbounds| :: Leading(cfg, s, h, s.groups[j].outbounds, m) && s' == Choose(s, j, s.groups[j].outbounds[m])
  }

  ghost predicate SwitchedOne(cfg: seq<Config>, s: State, s': State, h: History, k: nat) {
    exists j :: Switched(cfg, s, s', h, k, j)
  }

  lemma {:induction false} SwitchSettles(cfg: seq<Config>, s: State, i: nat, h: History)
    requires Inv(cfg, s) && i in s.groups && cfg[i].otype == "selector" && MinDelay(cfg, s, h, s.groups[i].outbounds).Some?
    ensures var s' := Choose(s, i, MinDelay(cfg, s, h, s.groups[i].outbounds).value);
            Inv(cfg, s') && Settled(cfg, s', i, h) && SwitchedOne(cfg, s, s', h, Place(s.started, i))
  {
    var g := s.groups[i];
    var n := MinDelay(cfg, s, h, g.outbounds).value;
    MinDelayIsLeast(cfg, s, h, g.outbounds);
    assert GroupInv(cfg, s.started, i, g);
    var m :| 0 <= m < |g.outbounds| && g.outbounds[m] == n && Leading(cfg, s, h, g.outbounds, m);
    assert Below(cfg, s.started, i, n);
    var s' := Choose(s, i, n);
    ReplaceKeepsInv(cfg, s, i, g.(selected := Some(n)));
    assert Measured(cfg, s', h, n);
    assert Switched(cfg, s, s', h, Place(s.started, i), i);
  }

  /** A fallback leaves a settled selector alone. If it reports success the selector is
      settled afterwards, having switched at most one selector of the chain to its least
      delayed outbound; otherwise nothing changed, the selector is not settled and none of
      its outbounds is measured. */
  lemma {:induction false} FallingSettles(cfg: seq<Config>, s: State, i: nat, provider: string, h: History)
    requires Inv(cfg, s) && i in s.groups && cfg[i].otype == "selector"
    requires cfg[i].fallbackByDelayTest && (provider != "" ==> provider in cfg[i].uses)
    ensures var (s', ok) := Falling(cfg, s, i, provider, h);
            Inv(cfg, s') && i in s'.groups && (ok <==> Settled(cfg, s', i, h)) && (Settled(cfg, s, i, h) ==> s' == s) &&
            (s' != s ==> SwitchedOne(cfg, s, s', h, Place(s.started, i))) &&
            (!ok ==> s' == s && forall k | 0 <= k < |s.groups[i].outbounds| :: !Measured(cfg, s, h, s.groups[i].outbounds[k]))
    decreases Place(s.started, i)
  {
    hide GroupInv, CurrentTag, Switched, SwitchedOne, MinDelay, InOrder, LeafProviders, Place;
    FallingKeepsInv(cfg, s, i, provider, h);
    SelectedIsBelow(cfg, s, i, "");
    var (s', ok) := Falling(cfg, s, i, provider, h);
    var last := s.groups[i].selected.value;
    if !BuiltIn(cfg, last) && !Measured(cfg, s, h, last) {
      var inner := if IsSelector(cfg, last) then Falling(cfg, s, last.index, "", h) else (s, false);
      if IsSelector(cfg, last) && cfg[last.index].fallbackByDelayTest { FallingSettles(cfg, s, last.index, "", h); }
      if inner.1 {
        InnerSettles(cfg, s, s', i, last.index, h);
      } else {
        MinDelayIsLeast(cfg, s, h, s.groups[i].outbounds);
        if MinDelay(cfg, s, h, s.groups[i].outbounds).Some? { SwitchSettles(cfg, s, i, h); }
      }
    }
  }

  /** A switch inside the nested selector leaves the outer selection in place. */
  lemma {:induction false} InnerSettles(cfg: seq<Config>, s: State, s': State, i: nat, inner: nat, h: History)
    requires Inv(cfg, s) && Inv(cfg, s') && i in s.groups && cfg[i].otype == "selector" && s.groups[i].selected == Some(Configured(inner))
    requires inner in s'.groups && IsSelector(cfg, Configured(inner)) && cfg[inner].fallbackByDelayTest && Settled(cfg, s', inner, h)
    requires s' == s || SwitchedOne(cfg, s, s', h, Place(s.started, inner))
    ensures i in s'.groups && Settled(cfg, s', i, h) && (s' == s || SwitchedOne(cfg, s, s', h, Place(s.started, i)))
  {
    assert GroupInv(cfg, s.started, i, s.groups[i]);
    assert Below(cfg, s.started, i, Configured(inner));
    if s' != s {
      var j :| Switched(cfg, s, s', h, Place(s.started, inner), j);
      assert Switched(cfg, s, s', h, Place(s.started, i), j);
      assert j != i;
    }
    assert s'.groups[i].selected == Some(Configured(inner));
  }

  // ---- a refresh reaches the groups one by one ----

  predicate Draws(cfg: seq<Config>, s: State, provider: string, i: nat) { Running(cfg, s, i) && provider in cfg[i].uses }

  /** updateGroups from group i on: it stops at the first group that cannot follow. */
  function UpdateGroups(cfg: seq<Config>, s: State, provider: string, remembered: nat -> string, choose: Chooser, i: nat): (State, bool)
    requires i <= |cfg|
    decreases |cfg| - i
  {
    if i == |cfg| then (s, true)
    else if !Draws(cfg, s, provider, i) then UpdateGroups(cfg, s, provider, remembered, choose, i + 1)
    else
      var g := Renewed(cfg, s, i, remembered(i), choose);
      if g.None? then (s, false)
      else UpdateGroups(cfg, s.(groups := s.groups[i := g.value]), provider, remembered, choose, i + 1)
  }

  /** A refresh: publish the new outbounds, update the groups, and on an error restore the
      provider, and only the provider. */
  function Refreshed(cfg: seq<Config>, s: State, provider: string, nodes: seq<Node>, remembered: nat -> string, choose: Chooser): (State, bool) {
    var (s', ok) := UpdateGroups(cfg, s.(providers := s.providers[provider := nodes]), provider, remembered, choose, 0);
    if ok then (s', true) else (s'.(providers := s.providers), false)
  }

  /** The first group from i on that cannot follow; the number of outbounds when all can. */
  function FirstFailure(cfg: seq<Config>, s: State, provider: string, remembered: nat -> string, i: nat): (f: nat)
    requires i <= |cfg|
    ensures i <= f <= |cfg|
    decreases |cfg| - i
  {
    if i == |cfg| then i
    else if Draws(cfg, s, provider, i) && Restarted(cfg, s, i, remembered(i)).None? then i
    else FirstFailure(cfg, s, provider, remembered, i + 1)
  }

  /** Group j after groups i to f were updated. */
  function UpdatedGroup(cfg: seq<Config>, s: State, provider: string, remembered: nat -> string, choose: Chooser, i: nat, f: nat, j: nat): Option<Group> {
    if !Running(cfg, s, j) then None
    else if i <= j < f && Draws(cfg, s, provider, j) then Renewed(cfg, s, j, remembered(j), choose)
    else Some(s.groups[j])
  }

  /** The update is told group by group: those before the first failure are renewed, from the
      state before the refresh, and the others are as they were. */
  lemma {:induction false} UpdateGroupsPointwise(cfg: seq<Config>, s: State, provider: string, remembered: nat -> string, choose: Chooser, i: nat)
    requires i <= |cfg|
    ensures var (s', ok) := UpdateGroups(cfg, s, provider, remembered, choose, i);
            var f := FirstFailure(cfg, s, provider, remembered, i);
            (ok <==> f == |cfg|) && s'.providers == s.providers && s'.started == s.started && s'.groups.Keys == s.groups.Keys &&
            forall j | Running(cfg, s, j) :: Some(s'.groups[j]) == UpdatedGroup(cfg, s, provider, remembered, choose, i, f, j)
    decreases |cfg| - i
  {
    hide Restarted, Checked;
    if i < |cfg| {
      var g := if Draws(cfg, s, provider, i) then Renewed(cfg, s, i, remembered(i), choose) else None;
      if !Draws(cfg, s, provider, i) {
        UpdateGroupsPointwise(cfg, s, provider, remembered, choose, i + 1);
      } else if g.Some? {
        var t := s.(groups := s.groups[i := g.value]);
        UpdateGroupsPointwise(cfg, t, provider, remembered, choose, i + 1);
        forall j | i < j && Running(cfg, s, j)
          ensures Restarted(cfg, t, j, remembered(j)) == Restarted(cfg, s, j, remembered(j)) && Draws(cfg, t, provider, j) == Draws(cfg, s, provider, j)
        {
          SameRestart(cfg, s, t, j, remembered(j));
        }
        SameFailure(cfg, s, t, provider, remembered, i + 1);
      }
    }
  }

  lemma {:induction false} SameRestart(cfg: seq<Config>, s: State, t: State, j: nat, remembered: string)
    requires j < |cfg| && t.providers == s.providers && j in s.groups && j in t.groups && t.groups[j] == s.groups[j]
    ensures Restarted(cfg, t, j, remembered) == Restarted(cfg, s, j, remembered)
  {
  }

  lemma {:induction false} SameFailure(cfg: seq<Config>, s: State, t: State, provider: string, remembered: nat -> string, i: nat)
    requires i <= |cfg| && t.groups.Keys == s.groups.Keys
    requires forall j | i <= j && Running(cfg, s, j) :: Restarted(cfg, t, j, remembered(j)) == Restarted(cfg, s, j, remembered(j))
    ensures FirstFailure(cfg, t, provider, remembered, i) == FirstFailure(cfg, s, provider, remembered, i)
    decreases |cfg| - i
  {
    hide Restarted;
    if i < |cfg| {
      assert Running(cfg, t, i) == Running(cfg, s, i);
      SameFailure(cfg, s, t, provider, remembered, i + 1);
    }
  }

  lemma {:induction false} UpdateGroupsKeepsInv(cfg: seq<Config>, s: State, provider: string, remembered: nat -> string, choose: Chooser, i: nat)
    requires WellFormed(cfg) && Inv(cfg, s) && Honest(choose) && i <= |cfg|
    ensures Inv(cfg, UpdateGroups(cfg, s, provider, remembered, choose, i).0)
    decreases |cfg| - i
  {
    hide Inv, Renewed;
    if i < |cfg| {
      if !Draws(cfg, s, provider, i) {
        UpdateGroupsKeepsInv(cfg, s, provider, remembered, choose, i + 1);
      } else {
        RenewedKeepsInv(cfg, s, i, remembered(i), choose);
        var g := Renewed(cfg, s, i, remembered(i), choose);
        if g.Some? { UpdateGroupsKeepsInv(cfg, s.(groups := s.groups[i := g.value]), provider, remembered, choose, i + 1); }
      }
    }
  }

  // ---- what a rolled-back refresh leaves behind ----

  /** A group that can still hand out n. */
  ghost predicate Holds(g: Group, n: Node) {
    n in g.outbounds || g.selected == Some(n) || g.tcp == Some(n) || g.udp == Some(n) || exists t | t in g.outboundByTag :: g.outboundByTag[t] == n
  }

  ghost predicate HoldsAny(g: Group, nodes: seq<Node>) { exists n <- nodes :: Holds(g, n) }

  /** The new outbounds are held by no group and listed by no other provider yet. */
  ghost predicate New(s: State, provider: string, nodes: seq<Node>) {
    Leaves(nodes) && (forall i | i in s.groups :: !HoldsAny(s.groups[i], nodes)) &&
    forall p, n | p in s.providers && p != provider && n in nodes :: n !in s.providers[p]
  }

  lemma {:induction false} AdmittedFrom(filter: Node -> bool, nodes: seq<Node>)
    ensures forall n <- Admitted(filter, nodes) :: n in nodes
  {
    if nodes != [] { AdmittedFrom(filter, nodes[1..]); }
  }

  /** What a group draws from its providers: the admitted new outbounds are among it, and it
      has a new outbound only if one is admitted. */
  lemma {:induction false} DrawnNodes(providers: map<string, seq<Node>>, filter: Node -> bool, uses: seq<string>, provider: string, nodes: seq<Node>)
    requires provider in providers && providers[provider] == nodes
    requires forall p, n | p in providers && p != provider && n in nodes :: n !in providers[p]
    ensures var r := FromProviders(providers, filter, uses);
            r.Some? ==> (provider in uses ==> forall n <- Admitted(filter, nodes) :: n in r.value) &&
                        forall n | n in nodes && n in r.value :: n in Admitted(filter, nodes)
  {
    if uses != [] && uses[0] in providers {
      DrawnNodes(providers, filter, uses[1..], provider, nodes);
      AdmittedFrom(filter, providers[uses[0]]);
    }
  }

  lemma {:induction false} MembersHoldNew(cfg: seq<Config>, providers: map<string, seq<Node>>, i: nat, provider: string, nodes: seq<Node>)
    requires i < |cfg| && provider in cfg[i].uses && Leaves(nodes) && provider in providers && providers[provider] == nodes
    requires forall p, n | p in providers && p != provider && n in nodes :: n !in providers[p]
    ensures var m := Members(cfg, providers, i);
            m.Some? ==> ((exists n <- nodes :: n in m.value) <==> Admitted(cfg[i].filter, nodes) != [])
  {
    var m, admitted := Members(cfg, providers, i), Admitted(cfg[i].filter, nodes);
    NamedAreKnown(cfg, cfg[i].dependencies);
    DrawnNodes(providers, cfg[i].filter, cfg[i].uses, provider, nodes);
    AdmittedFrom(cfg[i].filter, nodes);
    if m.Some? && admitted != [] {
      assert admitted[0] in FromProviders(providers, cfg[i].filter, cfg[i].uses).value;
      assert admitted[0] in m.value;
    }
    if m.Some? && exists n <- nodes :: n in m.value {
      var n :| n in nodes && n in m.value;
      assert Leaf(n);
      assert n in FromProviders(providers, cfg[i].filter, cfg[i].uses).value;
    }
  }

  /** A renewed group holds a new outbound exactly when it admits one. */
  lemma {:induction false} RenewedHoldsIff(cfg: seq<Config>, s: State, i: nat, remembered: string, choose: Chooser, provider: string, nodes: seq<Node>)
    requires Draws(cfg, s, provider, i) && Honest(choose) && New(s.(providers := s.providers - {provider}), provider, nodes)
    requires provider in s.providers && s.providers[provider] == nodes
    ensures var g := Renewed(cfg, s, i, remembered, choose);
            g.Some? ==> (HoldsAny(g.value, nodes) <==> Admitted(cfg[i].filter, nodes) != [])
  {
    var g := Renewed(cfg, s, i, remembered, choose);
    var others := s.providers - {provider};
    forall p, n | p in s.providers && p != provider && n in nodes ensures n !in s.providers[p] { assert p in others && others[p] == s.providers[p]; }
    MembersHoldNew(cfg, s.providers, i, provider, nodes);
    if g.Some? {
      var m := Members(cfg, s.providers, i).value;
      IndexHoldsMembers(cfg, m);
      IndexHoldsMembers(cfg, Picked(cfg, s.providers, i).value);
      assert g.value.outbounds == m && forall n <- nodes :: n != OUTBOUNDLESS;
      assert !HoldsAny(s.groups[i], nodes);
      if n :| n in nodes && Holds(g.value, n) {
        if n !in m { assert Holds(s.groups[i], n); }
      }
      if n :| n in nodes && n in m { assert Holds(g.value, n); }
    }
  }

  /** A refresh that is rolled back leaves no group with one of its closed outbounds exactly
      when no group before the one that failed admits any of them. */
  lemma {:induction false} RolledBackIsCleanIff(cfg: seq<Config>, s: State, provider: string, nodes: seq<Node>, remembered: nat -> string, choose: Chooser)
    requires Inv(cfg, s) && Honest(choose) && New(s, provider, nodes) && !Refreshed(cfg, s, provider, nodes, remembered, choose).1
    ensures var s' := Refreshed(cfg, s, provider, nodes, remembered, choose).0;
            var f := FirstFailure(cfg, s.(providers := s.providers[provider := nodes]), provider, remembered, 0);
            f < |cfg| && s'.providers == s.providers && s'.groups.Keys == s.groups.Keys &&
            ((forall i | i in s'.groups :: !HoldsAny(s'.groups[i], nodes)) <==>
             forall i: nat | i < f && Draws(cfg, s, provider, i) :: Admitted(cfg[i].filter, nodes) == [])
  {
    var t := s.(providers := s.providers[provider := nodes]);
    var s' := Refreshed(cfg, s, provider, nodes, remembered, choose).0;
    var f := FirstFailure(cfg, t, provider, remembered, 0);
    UpdateGroupsPointwise(cfg, t, provider, remembered, choose, 0);
    forall i | i in s.groups
      ensures HoldsAny(s'.groups[i], nodes) <==> i < f && Draws(cfg, s, provider, i) && Admitted(cfg[i].filter, nodes) != []
    {
      assert GroupInv(cfg, s.started, i, s.groups[i]);
      assert Running(cfg, t, i) && Draws(cfg, t, provider, i) == Draws(cfg, s, provider, i);
      assert Some(s'.groups[i]) == UpdatedGroup(cfg, t, provider, remembered, choose, 0, f, i);
      if i < f && Draws(cfg, s, provider, i) { RenewedHoldsIff(cfg, t, i, remembered(i), choose, provider, nodes); }
    }
  }

  /** Two selectors over provider p, of which the second has a default. */
  function TwoSelectors(defaultTag: string): seq<Config> {
    [Config("OUTBOUNDLESS", "direct", [], [], _ => true, "", false),
     Config("a", "selector", [], ["p"], _ => true, "", false),
     Config("b", "selector", [], ["p"], _ => true, defaultTag, false)]
  }

  /** Both have selected the provider's only outbound. */
  function BothOn(n: Node): State
    requires Leaf(n)
  {
    var g := Group([n], map[n.tag := n], Some(n), None, None);
    State(map["p" := [n]], map[1 := g, 2 := g], [0, 1, 2])
  }

  /** A refresh that replaces the default of the second selector fails there, and the first
      keeps the closed outbound. */
  lemma {:induction false} RollbackLeavesClosed(before: Node, after: Node, choose: Chooser)
    requires Leaf(before) && Leaf(after) && before.tag != after.tag && before.tag != ""
    ensures var (s, ok) := Refreshed(TwoSelectors(before.tag), BothOn(before), "p", [after], _ => "", choose);
            !ok && s.providers == map["p" := [before]] && 1 in s.groups && Holds(s.groups[1], after)
  {
    var cfg, s := TwoSelectors(before.tag), BothOn(before);
    var t := s.(providers := s.providers["p" := [after]]);
    assert ["p"][1..] == [] && [after][1..] == [] && [after][..0] == [];
    assert FromProviders(t.providers, cfg[1].filter, []) == Some([]) && Admitted(cfg[1].filter, []) == [];
    assert Admitted(cfg[1].filter, [after]) == [after];
    assert FromProviders(t.providers, cfg[1].filter, ["p"]) == Some([after]);
    assert Admitted(cfg[2].filter, []) == [] && Admitted(cfg[2].filter, [after]) == [after];
    assert FromProviders(t.providers, cfg[2].filter, []) == Some([]) && FromProviders(t.providers, cfg[2].filter, ["p"]) == Some([after]);
    assert Index(cfg, [after]) == map[after.tag := after];
    var g := Restarted(cfg, t, 1, "");
    assert g.Some? && after in g.value.outbounds;
    var u := t.(groups := t.groups[1 := g.value]);
    assert Restarted(cfg, u, 2, "").None?;
    hide Restarted;
    assert UpdateGroups(cfg, u, "p", _ => "", choose, 2) == (u, false);
    assert UpdateGroups(cfg, t, "p", _ => "", choose, 1) == (u, false);
  }

  // ---- the router's groups as mutable state ----

  function Prepend(nodes: seq<Node>, rest: Option<seq<Node>>): Option<seq<Node>> {
    if rest.None? then None else Some(nodes + rest.value)
  }

  lemma {:induction false} PrependMore(a: seq<Node>, b: seq<Node>, rest: Option<seq<Node>>)
    ensures Prepend(a, Prepend(b, rest)) == Prepend(a + b, rest)
  {
    if rest.Some? { assert a + (b + rest.value) == a + b + rest.value; }
  }

  lemma {:induction false} PrependNothing(rest: Option<seq<Node>>)
    ensures Prepend([], rest) == rest
  {
    if rest.Some? { assert [] + rest.value == rest.value; }
  }

  lemma {:induction false} SingleIndex(cfg: seq<Config>)
    requires WellFormed(cfg)
    ensures Index(cfg, []) == map[] && Index(cfg, [OUTBOUNDLESS]) == map["OUTBOUNDLESS" := OUTBOUNDLESS]
  {
    assert [OUTBOUNDLESS][..0] == [];
  }

  class Router {
    const cfg: seq<Config>
    var providers: map<string, seq<Node>>
    var groups: map<nat, Group>
    var started: seq<nat>

    function Value(): State
      reads this
    {
      State(providers, groups, started)
    }

    /** The members a group picks, and the map a selector builds over them. */
    method PickOutbounds(i: nat) returns (r: Option<seq<Node>>, byTag: map<string, Node>, nothing: bool)
      requires WellFormed(cfg) && LeafProviders(providers) && i < |cfg|
      ensures r == Members(cfg, providers, i) && (nothing <==> Picked(cfg, providers, i) == Some([]))
      ensures r.Some? ==> AllKnown(cfg, r.value) && byTag == Index(cfg, r.value)
    {
      hide Named, FromProviders, Index, LeafProviders;
      nothing := false;
      r, byTag := AddNamed(cfg[i].dependencies);
      if r.None? { return; }
      r, byTag := AddProvided(cfg[i].filter, cfg[i].uses, r.value, byTag);
      if r.None? { return; }
      if |r.value| == 0 {
        assert byTag == map[] by { SingleIndex(cfg); }
        SingleIndex(cfg);
        r, byTag, nothing := Some([OUTBOUNDLESS]), byTag["OUTBOUNDLESS" := OUTBOUNDLESS], true;
      }
    }

    method AddNamed(tags: seq<string>) returns (r: Option<seq<Node>>, byTag: map<string, Node>)
      ensures r == Named(cfg, tags)
      ensures r.Some? ==> AllKnown(cfg, r.value) && byTag == Index(cfg, r.value)
    {
      var nodes: seq<Node> := [];
      byTag := map[];
      PrependNothing(Named(cfg, tags));
      assert tags[0..] == tags;
      for k := 0 to |tags|
        invariant Named(cfg, tags) == Prepend(nodes, Named(cfg, tags[k..]))
        invariant AllKnown(cfg, nodes) && byTag == Index(cfg, nodes)
      {
        assert tags[k..][1..] == tags[k + 1..];
        var detour := Find(cfg, tags[k]);
        if detour.None? { return None, byTag; }
        PrependMore(nodes, [detour.value], Named(cfg, tags[k + 1..]));
        assert (nodes + [detour.value])[..|nodes|] == nodes;
        nodes, byTag := nodes + [detour.value], byTag[tags[k] := detour.value];
      }
      assert tags[|tags|..] == [] && nodes + [] == nodes;
      r := Some(nodes);
    }

    method AddProvided(filter: Node -> bool, uses: seq<string>, before: seq<Node>, index: map<string, Node>) returns (r: Option<seq<Node>>, byTag: map<string, Node>)
      requires LeafProviders(providers) && AllKnown(cfg, before) && index == Index(cfg, before)
      ensures r == Prepend(before, FromProviders(providers, filter, uses))
      ensures r.Some? ==> AllKnown(cfg, r.value) && byTag == Index(cfg, r.value)
    {
      hide Index, AllKnown, Admitted;
      var nodes := before;
      byTag := index;
      assert uses[0..] == uses;
      for k := 0 to |uses|
        invariant AllKnown(cfg, nodes) && byTag == Index(cfg, nodes)
        invariant Prepend(before, FromProviders(providers, filter, uses)) == Prepend(nodes, FromProviders(providers, filter, uses[k..]))
      {
        assert uses[k..][1..] == uses[k + 1..];
        if uses[k] !in providers { return None, byTag; }
        PrependMore(nodes, Admitted(filter, providers[uses[k]]), FromProviders(providers, filter, uses[k + 1..]));
        nodes, byTag := AddAdmitted(filter, nodes, byTag, providers[uses[k]]);
      }
      assert uses[|uses|..] == [] && nodes + [] == nodes;
      r := Some(nodes);
    }

    /** The provider's outbounds that pass the filter, appended and indexed. */
    method AddAdmitted(filter: Node -> bool, before: seq<Node>, index: map<string, Node>, outs: seq<Node>) returns (nodes: seq<Node>, byTag: map<string, Node>)
      requires Leaves(outs) && AllKnown(cfg, before) && index == Index(cfg, before)
      ensures nodes == before + Admitted(filter, outs)
      ensures AllKnown(cfg, nodes) && byTag == Index(cfg, nodes)
    {
      nodes, byTag := before, index;
      for k := 0 to |outs|
        invariant nodes + Admitted(filter, outs[k..]) == before + Admitted(filter, outs)
        invariant AllKnown(cfg, nodes) && byTag == Index(cfg, nodes)
      {
        assert outs[k..][1..] == outs[k + 1..];
        if filter(outs[k]) {
          assert (nodes + [outs[k]])[..|nodes|] == nodes;
          nodes, byTag := nodes + [outs[k]], byTag[TagOf(cfg, outs[k]) := outs[k]];
        }
      }
    }

    /** The group that a refresh makes of group i, or None on an error. */
    method Renew(i: nat, remembered: string, choose: Chooser) returns (r: Option<Group>)
      requires WellFormed(cfg) && LeafProviders(providers) && Running(cfg, Value(), i)
      ensures r == Renewed(cfg, Value(), i, remembered, choose)
      ensures r.Some? <==> Restarted(cfg, Value(), i, remembered).Some?
    {
      var nodes, byTag, nothing := PickOutbounds(i);
      MembersAreMembers(cfg, providers, i);
      hide WellFormed, LeafProviders, Index, Picked, AllMembers;
      if nodes.None? { return None; }
      if cfg[i].otype == "selector" {
        var selected := nodes.value[0];
        if nothing {
          selected := OUTBOUNDLESS;
        } else if remembered != "" && remembered in byTag {
          selected := byTag[remembered];
        } else if cfg[i].defaultTag != "" {
          if cfg[i].defaultTag !in byTag { return None; }
          selected := byTag[cfg[i].defaultTag];
        }
        r := Some(groups[i].(outbounds := nodes.value, outboundByTag := byTag, selected := Some(selected)));
      } else {
        r := Some(Checked(groups[i].(outbounds := nodes.value), choose));
      }
    }

    /** UpdateOutbounds of a started group. It fails exactly when the group cannot pick, and
        then leaves it as it was; else the group is as told from what it picked, and a URL test
        has checked its selections again. */
    method UpdateOutbounds(i: nat, provider: string, remembered: string, choose: Chooser) returns (ok: bool)
      requires WellFormed(cfg) && Inv(cfg, Value()) && Running(cfg, Value(), i) && Honest(choose)
      modifies `groups
      ensures Value() == Apply(cfg, old(Value()), Action.UpdateOutbounds(i, provider, remembered, choose)) && Inv(cfg, Value())
      ensures ok <==> provider !in cfg[i].uses || Restarted(cfg, old(Value()), i, remembered).Some?
      ensures !ok <==> provider in cfg[i].uses && CannotPick(cfg, providers, i, remembered)
      ensures !ok || provider !in cfg[i].uses ==> groups == old(groups)
      ensures i in groups && groups == old(groups)[i := groups[i]]
      ensures ok && provider in cfg[i].uses ==>
                var picked := Picked(cfg, providers, i);
                picked.Some? && AllKnown(cfg, picked.value) && GroupTold(cfg, i, picked.value, remembered, groups[i])
      ensures ok && provider in cfg[i].uses && cfg[i].otype == "urltest" ==>
                groups[i].tcp == choose("tcp", old(groups[i].tcp), groups[i].outbounds) &&
                groups[i].udp == choose("udp", old(groups[i].udp), groups[i].outbounds)
    {
      RenewedTold(cfg, Value(), i, remembered, choose);
      hide WellFormed, Renewed, Restarted, Falling, StartSucceeds, DependenciesStarted, Honest, GroupTold, CannotPick, Picked, GroupInv;
      ActionKeepsInv(cfg, Value(), Action.UpdateOutbounds(i, provider, remembered, choose));
      if provider !in cfg[i].uses { return true; }
      var g := Renew(i, remembered, choose);
      if g.None? { return false; }
      groups := groups[i := g.value];
      return true;
    }

    method SelectOutbound(i: nat, tag: string) returns (ok: bool)
      requires WellFormed(cfg) && Inv(cfg, Value()) && Running(cfg, Value(), i) && cfg[i].otype == "selector"
      modifies `groups
      ensures Value() == Apply(cfg, old(Value()), Action.SelectOutbound(i, tag)) && Inv(cfg, Value())
      ensures ok <==> tag in old(groups[i].outboundByTag)
    {
      hide Inv, WellFormed, Renewed, Restarted, Falling, StartSucceeds, DependenciesStarted, Honest;
      ActionKeepsInv(cfg, Value(), Action.SelectOutbound(i, tag));
      if tag !in groups[i].outboundByTag { return false; }
      var detour := groups[i].outboundByTag[tag];
      if groups[i].selected != Some(detour) {
        groups := groups[i := groups[i].(selected := Some(detour))];
      } else {
        assert groups[i := groups[i]] == groups;
      }
      return true;
    }

    method MinDelayDetour(i: nat, h: History) returns (n: Node, found: bool)
      requires Inv(cfg, Value()) && i in groups
      ensures found <==> MinDelay(cfg, Value(), h, groups[i].outbounds).Some?
      ensures found ==> n == MinDelay(cfg, Value(), h, groups[i].outbounds).value
    {
      var outs := groups[i].outbounds;
      assert GroupInv(cfg, started, i, groups[i]);
      n, found := outs[0], false;
      var least := 0;
      for k := 0 to |outs|
        invariant found <==> MinDelay(cfg, Value(), h, outs[..k]).Some?
        invariant found ==> n == MinDelay(cfg, Value(), h, outs[..k]).value && least == DelayOf(cfg, Value(), h, n)
      {
        assert outs[..k + 1][..k] == outs[..k];
        assert Below(cfg, started, i, outs[k]);
        var tag := CurrentTag(cfg, Value(), outs[k]);
        if tag in h && (!found || h[tag] < least) {
          n, found, least := outs[k], true, h[tag];
        }
      }
      assert outs[..|outs|] == outs;
    }

    /** The recursion into a nested selector terminates because its rank is lower. */
    method UpdateSelected(i: nat, provider: string, h: History) returns (ok: bool)
      requires Inv(cfg, Value()) && i in groups && i < |cfg| && cfg[i].otype == "selector"
      modifies `groups
      ensures (Value(), ok) == Falling(cfg, old(Value()), i, provider, h) && Inv(cfg, Value())
      decreases Place(started, i)
    {
      ghost var s := Value();
      FallingKeepsInv(cfg, s, i, provider, h);
      if !cfg[i].fallbackByDelayTest { return false; }
      if provider != "" && provider !in cfg[i].uses { return false; }
      SelectedIsBelow(cfg, s, i, "");
      var last := groups[i].selected.value;
      if TypeOf(cfg, last) in {"dns", "direct", "block"} { return true; }
      if CurrentTag(cfg, Value(), last) in h { return true; }
      if IsSelector(cfg, last) {
        var inner := UpdateSelected(last.index, "", h);
        if inner { return true; }
      }
      var n, found := MinDelayDetour(i, h);
      if !found { return false; }
      groups := groups[i := groups[i].(selected := Some(n))];
      return true;
    }

    /** Updates every group that draws from the provider, up to the first that cannot follow. */
    method UpdateAll(provider: string, remembered: nat -> string, choose: Chooser) returns (ok: bool)
      requires WellFormed(cfg) && Inv(cfg, Value()) && Honest(choose)
      modifies `groups
      ensures (Value(), ok) == UpdateGroups(cfg, old(Value()), provider, remembered, choose, 0) && Inv(cfg, Value())
    {
      hide Inv, WellFormed, Restarted, Checked;
      for i := 0 to |cfg|
        invariant Inv(cfg, Value())
        invariant UpdateGroups(cfg, Value(), provider, remembered, choose, i) == UpdateGroups(cfg, old(Value()), provider, remembered, choose, 0)
      {
        if i in groups {
          ghost var s := Value();
          ok := UpdateOutbounds(i, provider, remembered(i), choose);
          if provider !in cfg[i].uses { assert Value() == s; }
          if !ok { return; }
        }
      }
      ok := true;
    }

    /** The refresh of a provider with its rollback. */
    method Refresh(provider: string, nodes: seq<Node>, remembered: nat -> string, choose: Chooser) returns (ok: bool)
      requires WellFormed(cfg) && Inv(cfg, Value()) && Honest(choose) && Leaves(nodes) && provider in providers
      modifies `groups, `providers
      ensures (Value(), ok) == Refreshed(cfg, old(Value()), provider, nodes, remembered, choose) && Inv(cfg, Value())
    {
      var backup := providers;
      providers := providers[provider := nodes];
      ok := UpdateAll(provider, remembered, choose);
      if !ok { providers := backup; }
    }
  }
}

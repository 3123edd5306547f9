# Verified model of the routing core

A Dafny model of the parts of this proxy router whose correctness does not depend on I/O, with
proofs of what they keep over every input, every run or every reachable state. `dafny verify
dfyconfig.toml` checks the whole project. It has six parts.

**The rule engine.** A rule is a tree of default rules (groups of items) and logical rules.
Matching writes flags and country codes into a shared connection context, and nested rule sets
read them. `RuleModel` holds the data and the evaluator as functions on values, `RuleEngine` the
mutable context whose methods are proved equal to those functions. `RuleSemantics` gives rules a
boolean meaning without any cache and proves the cached evaluator equal to it. `Blindness` and
`Frames` say what an evaluation can see and change. On these rest lazy domain resolution
(`LazyResolution`), the construction and metadata of rule sets (`RuleSetBuild`), what a built rule
means in terms of its options (`RuleSetMeaning`), the merging of rules through the shared cache
(`RuleSetMerge`), the two-phase check of DNS rules (`DnsRules`) and the rule that excludes domains
from fake addresses (`FakeIPExclude`).

**The DNS rule search.** `DnsSearch` models the resumable search for a server and proves it equal
to a fold over the usable rules in increasing order. `DnsFallback` gives fallback rules their
meaning, `DnsProgress` tells from the replies when a search goes on, retries, ends and succeeds,
and `DnsStaleCode` shows where earlier answers do matter.

**Start-up and groups.** `StartOrder` models the dependency-ordered start of outbounds with its
diagnosis, `TransportBuild` the fixpoint that builds DNS transports. `Groups` models selectors and
URL tests that refer to each other, and proves that following selections always ends.

**URL tests and provider refresh.** `UrlTestSelect` is the choice by delay with hysteresis in
16-bit arithmetic, `UrlTestProtocol` the goroutines around it as a state machine.
`ProviderRefresh` is change detection, fresh tags and the index from tag to outbound.

**Naive framing.** `NaiveFraming` is the padded stream codec, read and written in pieces of any
size.

**Two small exact cores.** `RacingDial` is the collector of three concurrent dials, `Duration` the
overflow-checked duration parser. `Wrappers` and `Numerals` hold what several modules share.

Some natural claims are false of the code. The model keeps the code as it is, gives an input that
shows the failure, and states when the claim does hold:

- Lazy resolution differs from eager resolution for a rule that skips resolution, for a source
  GeoIP item without a valid source, and for a match-source rule set with logical rules.
- The GeoIP code cache is invisible exactly when the inspected addresses agree on their code. In a
  DNS search the code of an earlier answer judges a later one; that is right for every condition
  exactly when the later answer has this code and no other.
- In a DNS search a source GeoIP item without a valid source reads earlier answers. The search
  theorems hold for rules without such an item, which is what `Shaped` says.
- A rule set is not the disjunction of its rules, since one rule's address hit can complete
  another's port hit. It is one, whatever its items say, exactly when some rule asks for nothing,
  or every rule that shares a demand with a later one asks for nothing else.
- `write` of the naive connection announces padding it does not send, so a Write arrives intact
  exactly when no framed piece but the last drew padding.
- The circular-reference error of the DNS transports names the right servers exactly when the
  circular ones come first in the configuration.
- An error while starting a provider makes the start-up of outbounds report success with nothing
  started.
- Delay plus tolerance is computed in 16 bits, and a zero delay counts as unmeasured. Over all
  groups drawn from given candidates, a measured selection is kept or left for a real gain exactly
  when it has no rival, or it is positive, no rival's sum wraps below it, and no rival of zero delay
  both displaces it and lets in one that is no gain. With a zero delay a group can flap.
- Closing a URL test group takes no lock. It crashes exactly when another Close was earlier, or the
  loop retired after the test of the ticker and no caller set it again.
- A refreshed outbound without a tag keeps none exactly when its generated name is free, so two of
  them collide.
- Change detection is exact against every old list exactly when the new tags are distinct.
- A refresh that is rolled back restores the provider only. No group keeps a closed outbound
  exactly when no group before the failing one admits any of the new outbounds.
- The running total of a duration wraps when it and the next term are both 2^63.

Interfaces and external calls are parameters: the GeoIP database, the verdicts of plain items, the
result of a domain lookup, the replies of the DNS client, which outbounds or transports fail to
start, the padding drawn, the sizes of network reads, the cache file's remembered selection, the
measured delays, and the value of a decimal fraction.

## Model

| member | source | states |
|---|---|---|
| RuleEngine.InboundContext.ResetRuleCache | adapter/inbound.go:74-82 | clears exactly the match cache; both country codes, the addresses and the modes stay |
| RuleEngine.InboundContext.MatchCIDR | route/rule_item_cidr.go:75-91 | the loop equals the address test, with the match-source and accept-empty modes of an enclosing rule set; `RuleSetMerge.AnswerCheckOfSets` tells what these modes mean for the rule |
| RuleEngine.InboundContext.MatchPrivate | route/rule_item_ip_is_private.go:20-38 | the loop equals the private-address test on the endpoint or the resolved addresses |
| RuleEngine.InboundContext.LookupGeoIP | route/rule_item_geoip.go:63-80 | looks an address up, and stores and tests the code unless it has none |
| RuleEngine.InboundContext.MatchGeoIP | route/rule_item_geoip.go:36-61 | the scan over endpoint or addresses, with the code cache it leaves |
| RuleEngine.InboundContext.MatchSet | route/rule_set_abstract.go:172-179 | the rules of a set run in order on one cache until one matches |
| RuleEngine.InboundContext.MatchItem | route/rule_item_rule_set.go:43-52 | an item's verdict and effect; a rule-set item sets its two flags and tries its sets in order |
| RuleEngine.InboundContext.MatchBody | route/rule_abstract.go:102-187 | the whole short-circuit evaluation of a default rule on any incoming cache: verdict and every field left behind |
| RuleEngine.InboundContext.MatchSubRules | route/rule_abstract.go:270-282 | and/or over sub-rules with a cache reset before each |
| RuleEngine.InboundContext.Match | route/rule_dns.go:533-543 | route, DNS (both phases) and headless rules, default and logical, all refine the evaluator function |
| RuleSemantics.GeoIPCacheIsRecomputation | route/rule_item_geoip.go:36-80 | on a coherent cache a GeoIP item answers as if nothing were cached, and leaves the cache coherent |
| RuleSemantics.LiteralEndpointIsCoherent | route/rule_item_geoip.go:63-80 | with a literal endpoint the empty code cache is coherent, which is where GeoIPCacheIsRecomputation starts from |
| RuleSemantics.CodeCacheInvisibleIffUniform | adapter/inbound.go:74-82 | the never-reset code cache is invisible to all pairs of items if and only if all inspected addresses with a code share it |
| RuleSemantics.EvalBodyHolds | route/rule_abstract.go:102-187 | a default rule on any cache left over from the same rule gives its boolean meaning |
| RuleSemantics.CachedEvaluatorIsBoolean | route/rule_abstract.go:102-187 | main: from a reset cache every and/or/invert tree without rule sets evaluates to its declarative meaning, and only the cache changes |
| RuleSemantics.EvalRulesHold | route/rule_abstract.go:270-282 | a logical combination is the and/or of the meanings, whatever the incoming cache |
| RuleSemantics.LogicalIgnoresIncomingCache | route/rule_abstract.go:270-282 | a logical rule with sub-rules gives the same verdict from every incoming cache |
| Blindness.RuleIsBlind | route/rule_abstract.go:102-187 | a rule that passes the static blindness test runs identically on contexts that differ in addresses, codes or caches it cannot see; where the destination code is shared it stays shared |
| Frames.RuleChanges | route/rule_abstract.go:102-187 | evaluating any rule, rule sets included, changes nothing but caches; with a valid source, or without source GeoIP items, the source code only to the source's own |
| Frames.RuleKeeps | route/rule_abstract.go:102-187 | evaluating any rule in any context leaves the facts, the addresses and the modes as they were |
| LazyResolution.AnalysisIsSound | route/rule_abstract.go:59-64 | a tree for which the router's address analysis says no never depends on the destination addresses |
| LazyResolution.ResolveIfNeeded | route/router.go:1379-1389 | the reset and the single lookup before a rule |
| LazyResolution.Match0 | route/router.go:1364-1401 | rule and outbound equal the specification; the domain is looked up, once, if and only if it is without addresses and a tried rule asks for them; afterwards the addresses are the old ones if nothing was found, else the found ones if the outbound needs them, else none |
| LazyResolution.LookupTold | route/router.go:1379-1389 | for every rule list: whether the lookup happens, and the addresses then known, told from the rules tried |
| LazyResolution.PlainIsFirstChoice | route/router.go:1391-1398 | with the addresses settled the rule found is the first enabled one that matches and whose outbound exists |
| LazyResolution.LazyIsFirstChoice | route/router.go:1364-1401 | so is the rule found by lazy resolution, on the resolved context |
| LazyResolution.LazyIsEager | route/router.go:1364-1401 | main: for every rule list whose first enabled address rule resolves, every lookup result and context, lazy and eager resolution pick the same rule and outbound |
| LazyResolution.SkipResolveBreaksLaziness | route/router.go:1380-1380 | a matching address rule that skips resolution makes them differ, for every set and address |
| LazyResolution.InvalidSourceBreaksLaziness | route/rule_item_geoip.go:45-60 | a source GeoIP item without a valid source makes them differ |
| LazyResolution.MatchSourceLogicalBreaksLaziness | route/rule_item_rule_set.go:54-61 | a match-source rule set with a logical rule makes them differ |
| RuleSetBuild.BuiltRuleIsGrouped | route/rule_headless.go:34-170 | every rule built from options has each item in its group, and contains an address rule if and only if the options declare one |
| RuleSetBuild.LoadedMetadataCovers | route/router_rule.go:49-63 | the metadata of a loaded set hides no address rule if and only if the scan finds one or none is declared |
| RuleSetBuild.NormalizedMetadataIsExact | route/router_rule.go:109-111 | on options with explicit types the metadata is true exactly when a built rule contains addresses |
| RuleSetBuild.EmptyTypeIsMissed | route/router_rule.go:49-63 | an entry with an empty type builds an address rule the scan misses; the decoders always fill the type in, so only options built by hand are affected |
| RuleSetBuild.QueryTypeAloneMatchesAll | route/rule_headless.go:34-60 | a rule with only a query type passes validation and matches every connection, inverted or not |
| RuleSetMeaning.BuiltRuleMatchesOptions | route/rule_headless.go:34-221 | a rule built from options, to any depth, matches a connection if and only if the options hold of it, each option by its own test |
| RuleSetMeaning.BuildsIff | route/rule_headless.go:11-32 | options build a rule if and only if every list in them parses, every default part asks for something and every logical part has rules and a known mode |
| RuleSetBuild.AbstractRuleSet.ReloadRules | route/rule_set_abstract.go:151-170 | a failed reload changes nothing; a successful one replaces rules and metadata together |
| RuleSetBuild.AbstractRuleSet.CountRefs | route/rule_set_abstract.go:90-98 | over any sequence of IncRef and DecRef it panics exactly when some prefix releases more references than there are |
| RuleSetBuild.AbstractRuleSet.Cleanup | route/rule_set_abstract.go:100-104 | drops the rules only without references, and metadata stays covering |
| RuleSetMerge.SetIsMerged | route/rule_set_abstract.go:172-179 | the exact meaning of a set of non-inverted rules on any cache: some rule whose plain items hold and whose demands are met by it or an earlier rule that was evaluated |
| RuleSetMerge.AnyRuleAloneSuffices | route/rule_set_abstract.go:172-179 | any rule that matches alone makes the set match |
| RuleSetMerge.DestinationSetIsDisjunction | route/rule_set_abstract.go:172-179 | a set of destination-only rules matches if and only if one of them does |
| RuleSetMerge.MergingIsNotDisjunction | route/rule_set_abstract.go:172-179 | two rules that both fail can make their set match: the first supplies the address, the second the port |
| RuleSetMerge.DisjunctionIffIndependent | route/rule_set_abstract.go:172-179 | without hits at the start a set is the disjunction of its rules for all items of these groups, if and only if some rule asks for nothing or every rule sharing a demand with a later one asks for nothing else |
| RuleSetMerge.SetsAreOneSet | route/rule_item_rule_set.go:43-52 | several sets in one item behave as their concatenation |
| RuleSetMerge.OuterRuleMergesSet | route/rule_abstract.go:107-187 | a non-inverted route rule, or DNS rule in its address check, with a rule-set item of any modes matches if and only if the rest holds and its own destination condition or the set does |
| RuleSetMerge.AnswerCheckOfSets | route/rule_item_cidr.go:75-91 | the second check of a DNS rule over sets of address rules accepts an answer if and only if some address is listed, or the answer is empty, the item accepts that and there is a rule; a match-source item asks the source instead |
| RuleSetMerge.PureItemVerdict | route/rule_item_cidr.go:75-91 | every item without a country code means the same in every mode, cache or not |
| DnsRules.FirstCheckIsBlind | route/rule_dns.go:533-539 | the first check of any DNS rule, rule sets included, sees neither addresses nor the destination code |
| DnsRules.SecondCheckIsFresh | route/rule_dns.go:541-543 | main: after the first check the second, on the left-over cache, equals evaluating the whole rule afresh on the answer, inverted rules included |
| DnsRules.StaleCodeDecides | route/rule_dns.go:541-543 | with any code left over, a GeoIP condition tests that code and not the answer |
| DnsStaleCode.StaleCodeRightIff | route/rule_item_geoip.go:36-44 | a left-over code gives the right verdict on an answer for every GeoIP condition if and only if the answer has this code and no other |
| DnsStaleCode.StaleCodeAccepts | route/router_dns.go:247-297 | a search of two rules that rejects the first answer and then accepts a second one of the wrong country |
| DnsStaleCode.SourceRuleIgnoresAnswersIff | route/rule_item_geoip.go:45-60 | earlier answers leave a source GeoIP rule alone if and only if the source is valid or its code is cached |
| DnsSearch.UsableFromIsSorted | route/router_dns.go:40-97 | the usable rules are listed completely, in strictly increasing order |
| DnsSearch.EarlierAnswersDoNotMatter | route/router_dns.go:54-55 | for rules without a source GeoIP item on an invalid source, a later rule matches exactly as it does statically, whatever earlier answers left behind, and the first check keeps the destination code |
| DnsSearch.MatchDNS | route/router_dns.go:40-97 | returns the first usable rule after the index with its server, or the default server when there is none |
| FakeIPExclude.MatchExclude | route/rule_dns.go:24-28 | a domain is excluded if and only if some domain item holds of it or some rule of its rule sets does, judged by its domain items alone |
| FakeIPExclude.SetInFilter | route/rule_headless.go:172-188 | in this mode a rule set asks only the domain items of its rules, logical rules by their parts |
| DnsSearch.MatchFallback | route/rule_dns.go:130-145 | a fallback rule's match refines its specification |
| DnsSearch.MatchFallbackRules | route/router_dns.go:99-149 | the first deciding fallback rule: keep, go on, or ask another allowed server |
| DnsSearch.VerdictIsStatic | route/router_dns.go:257-264 | the address check of a rule without destination GeoIP items depends only on the facts and the answer, not on the history of the search |
| DnsSearch.VerdictFollowsCode | route/router_dns.go:257-264 | the address check of any rule depends only on the facts, the answer and the destination code left over |
| DnsSearch.LoggedIsStatic | route/router_dns.go:247-264 | a verdict of a search is the static one if its rule, or every rule asked before it, has no destination GeoIP item |
| DnsSearch.AskRule | route/router_dns.go:247-275 | one query over a rule's server: the reply is the client's, and verdict and left-over code are determined by facts, answer and the code before |
| DnsSearch.DecideExchange | route/router_dns.go:276-331 | the branches equal the step function, which `DnsProgress.StepTold` tells in terms of the reply |
| DnsSearch.ExchangeFunc | route/router_dns.go:218-336 | the loop terminates and its whole run is the fold over the usable rules, which `DnsProgress.SearchTold` tells query by query; every logged verdict is determined by the answers so far |
| DnsSearch.DecideLookup | route/router_dns.go:405-455 | the same for lookups |
| DnsSearch.LookupFunc | route/router_dns.go:360-460 | the same for lookups, over the rules that are not fake-IP |
| DnsSearch.SearchAsksInOrder | route/router_dns.go:247-331 | main: the rules asked are a prefix of the usable ones, in order, once each over their own server, with at most one more query |
| DnsSearch.SearchIsBounded | route/router_dns.go:247-331 | between one and number-of-rules-plus-one queries are made |
| DnsSearch.SearchStaysAllowed | route/router_dns.go:62-65 | every transport asked is allowed for the request, the reply is that of the last one, and so is the flag unless the search failed |
| DnsSearch.LookupNeverAsksFakeIP | route/router_dns.go:360-455 | no lookup asks a fake-IP transport, default and fallbacks included |
| DnsSearch.ExchangeFlagIsExact | route/router_dns.go:283-335 | on success the returned flag is true if and only if the response came from a fake-IP transport; on an error it is false |
| DnsFallback.FallbackIsPure | route/router_dns.go:99-149 | fallback rules decide by their boolean meaning on the answer, without GeoIP or when its addresses share a code |
| DnsFallback.StaticChecksAreMeaning | route/router_dns.go:54-55 | both checks used by the search are the rule's boolean meaning |
| DnsProgress.ChoiceTold | route/router_dns.go:99-149 | the first fallback rule that holds and can be followed decides: an accepting one keeps the answer, one without server sends the search on, any other to its server |
| DnsProgress.StepTold | route/router_dns.go:276-331 | after a query the search proceeds, retries or ends, and succeeds, exactly as the reply, the verdict and the fallback rules say |
| DnsProgress.SearchTold | route/router_dns.go:247-335 | main: in every exchange and lookup a rule's query is followed by another rule's or the default query if and only if it is for addresses over a server that is neither fake-IP nor rcode and the reply was turned down, or holds no address and may fall through, or its deciding fallback rule has no server; by a query to that rule's server if it has one; and else the run ends, successful if and only if the reply was not turned down, is no error and, for a lookup, holds an address |
| DnsProgress.TurnedDownTold | route/router_dns.go:255-285 | a reply is turned down if and only if the rule limits addresses and the cache rejected it, its addresses cannot be read, or the second check fails on them |
| DnsProgress.ConsultedTold | route/router_dns.go:47-65 | a rule is consulted if and only if it matches, limits addresses only for address queries, and its server is known and, if fake-IP, wanted and not excluding the domain |
| NaiveFraming.ReadDeliversPayload | inbound/naive.go:243-288 | every successful read yields exactly the next payload bytes: no header, no padding, none twice |
| NaiveFraming.FailureMeansExhausted | inbound/naive.go:243-288 | a failing read leaves no payload behind |
| NaiveFraming.ReadMakesProgress | inbound/naive.go:243-288 | with room, service and payload left a read succeeds and consumes input |
| NaiveFraming.RunDeliversPrefix | inbound/naive.go:243-288 | every run of reads of any sizes delivers a prefix of the payload |
| NaiveFraming.RoundTrip | inbound/naive.go:353-368 | main: the payload of any list of WriteBuffer calls with any padding is their concatenation, across the switch to raw mode |
| NaiveFraming.WireTold | inbound/naive.go:353-368 | the bytes of every WriteBuffer call: sizes of data and padding, data and padding for the first eight, then only data |
| NaiveFraming.PieceTold | inbound/naive.go:290-330 | the bytes of a Write: pieces of at most 65535 bytes behind headers up to the eighth frame, then only data |
| NaiveFraming.DeliveredIsPrefixOfWritten | inbound/naive.go:243-288 | end to end: any reads of any written stream deliver a prefix of what was written |
| NaiveFraming.ReadsDrainStream | inbound/naive.go:243-288 | as many served reads as the stream has bytes deliver all of it |
| NaiveFraming.UnsentPaddingLosesData | inbound/naive.go:311-330 | two writes of which the first is framed, the eighth frame included, come through if and only if the first drew no padding or the second is empty |
| NaiveFraming.WriteComesThroughIff | inbound/naive.go:290-330 | main: a Write of any length from any frame count comes through if and only if no framed piece but the last drew padding |
| NaiveFraming.HeadersBoundPayload | inbound/naive.go:243-288 | a reader never gets header bytes as payload, nor more than a frame per header while framed |
| NaiveFraming.UnpaddedWriteIsUndone | inbound/naive.go:290-309 | without padding a Write of any length comes through |
| NaiveFraming.RawWriteIsVerbatim | inbound/naive.go:290-309 | after the eighth frame a Write is sent as it is |
| NaiveFraming.NaiveConn.Read | inbound/naive.go:238-288 | the buffer and all counters after a read, in framed and raw mode |
| NaiveFraming.NaiveConn.Write | inbound/naive.go:290-309 | the bytes sent by the splitting loop, the number reported and the frame count after |
| NaiveFraming.NaiveConn.WriteBuffer | inbound/naive.go:353-368 | header and padding are sent with the data, oversized buffers are handed to Write, and the frame count after |
| NaiveFraming.NaiveConn.WriteBuffers | inbound/naive.go:353-368 | any list of buffers sent in turn puts exactly the encoded stream on the wire, which the round trip is about |
| StartOrder.OrderedLogIsWitness | box_outbound.go:76-109 | a complete log in dependency order proves the dependencies closed and acyclic |
| StartOrder.RealCycleIsCycle | box_outbound.go:116-118 | a reported cycle really is one |
| StartOrder.LintOutbound | box_outbound.go:111-127 | the recursion terminates and reports a real cycle or a really missing dependency |
| StartOrder.IndexTags | box_outbound.go:60-71 | refuses exactly lists with a repeated tag, else indexes them |
| StartOrder.Pass | box_outbound.go:79-101 | one pass starts outbounds only after their dependencies; if it starts none, none can start |
| StartOrder.Saturate | box_outbound.go:76-128 | the passes terminate, start each outbound at most once and in order, and stop for the right reason |
| StartOrder.StartOutbounds | box_outbound.go:56-130 | main: all are started if and only if dependencies are closed and acyclic, absent start errors; outbounds that depend only on earlier ones start in the configured order; every error is justified |
| TransportBuild.BuiltIsWellFounded | route/router.go:258-357 | a built transport has a resolver chain no longer than its place in the build order |
| TransportBuild.WaitingNeverResolves | route/router.go:355-368 | what is left when a pass builds nothing has no well-founded chain |
| TransportBuild.CollectNames | route/router.go:244-256 | refuses exactly lists with a repeated tag, naming one |
| TransportBuild.CheckServer | route/router.go:271-320 | the loop equals the checks of one server and tells whether it needs a resolver |
| TransportBuild.ValidateTold | route/router.go:271-320 | a server is refused if and only if it has no address, a bad one, or a domain without a known resolver, and the error says which |
| TransportBuild.BuildTransports | route/router.go:238-369 | main: the fixpoint terminates, builds each once and after its resolver, and fails with the circular error if and only if some chain is not well-founded; that error names the first servers, as many as are circular, and every other error is true of the server it names |
| TransportBuild.ReportIsRightIffFirst | route/router.go:359-364 | the error names the circular servers if and only if they come first in the configuration |
| TransportBuild.NamesWrongServer | route/router.go:359-368 | a configuration whose error names the server that is fine |
| TransportBuild.ChooseDefault | route/router.go:370-390 | the default server, refused exactly when unknown or fake-IP |
| UrlTestSelect.ChoiceIsNearOptimal | outbound/urltest.go:409-451 | a measured choice is within the tolerance of every candidate, and leaves a measured selection only for a gain above it |
| UrlTestSelect.UpdateIsNearOptimal | outbound/urltest.go:409-451 | what a check leaves selected: within the tolerance of every candidate; the selection unless unmeasured or beaten by more, else a candidate faster than all listed before it; with nothing measured the selection, or the first outbound of the network |
| UrlTestSelect.UpdateIsIdempotent | outbound/urltest.go:533-546 | a second check on the same history changes nothing if the candidates have positive delays that do not wrap, whatever the selection |
| UrlTestSelect.ZeroDelayFlaps | outbound/urltest.go:436-439 | a group with a zero delay in which two checks in a row switch twice |
| UrlTestSelect.UpdateStaysInside | outbound/urltest.go:533-546 | whatever the delays, a check keeps the selection or takes an outbound of the group |
| UrlTestSelect.GainIffNoWrap | outbound/urltest.go:436-439 | in a group of one candidate a switch is a gain above the tolerance if and only if the selection is positive and the sum does not wrap below it |
| UrlTestSelect.EveryGainIffNoWrap | outbound/urltest.go:436-439 | as a group of one, a candidate is safe against every positive selection if and only if adding the tolerance stays in 16 bits |
| UrlTestSelect.GroupsGainIffGuarded | outbound/urltest.go:409-451 | main: over all groups drawn from given candidates a measured selection is kept or left for a gain above the tolerance if and only if its rivals are guarded |
| UrlTestSelect.ZeroDelayIsForgotten | outbound/urltest.go:436-439 | a selection of zero delay is displaced by any measured candidate |
| UrlTestSelect.URLTestGroup.constructor | outbound/urltest.go:316-375 | default tolerance and the first outbound of each network |
| UrlTestSelect.URLTestGroup.Select | outbound/urltest.go:409-451 | the loops equal the choice function |
| UrlTestSelect.URLTestGroup.PerformUpdateCheck | outbound/urltest.go:533-546 | both selections after a check, and interruption exactly on a change |
| UrlTestProtocol.ActionKeepsInv | outbound/urltest.go:383-398 | every atomic step of any goroutine keeps the lock discipline and the ticker's link to its loop |
| UrlTestProtocol.EveryInterleavingIsSafe | outbound/urltest.go:453-474 | main: in every interleaving at most one loop is live, it never finds the ticker gone, at most one test runs, and a set ticker of an open group has a loop |
| UrlTestProtocol.NothingIsLeftBehind | outbound/urltest.go:383-398 | in every interleaving lock and flag are up exactly while someone is inside, and nothing happens before the start |
| UrlTestProtocol.GuardKeepsOneTest | outbound/urltest.go:484-489 | the swap on the checking flag admits one test at a time |
| UrlTestProtocol.CloseCanFindNoTicker | outbound/urltest.go:400-407 | a run in which Close finds no ticker after having seen one |
| UrlTestProtocol.CloseCrashesIff | outbound/urltest.go:400-407 | in every run a Close crashes if and only if, when it uses the ticker, another Close was earlier or the loop has retired since its test and no caller set the ticker again |
| UrlTestProtocol.SingleCloseIsSafe | outbound/urltest.go:400-407 | closing once a group that is never idle never crashes |
| Groups.CreatedAreLeaves | provider/default.go:171-192 | a provider never creates a group |
| Groups.CreatedTold | provider/default.go:171-192 | exactly the options of other than the five built-in and group types that can be built become outbounds, in order |
| Groups.MembersAreMembers | outbound/selector.go:117-154 | what a group picks is never empty and consists of its dependencies, provider outbounds or the built-in direct outbound |
| Groups.PickedTold | outbound/selector.go:117-146 | picking succeeds if and only if every dependency and provider is known; the dependencies come first, in order |
| Groups.DrawnTold | outbound/selector.go:130-146 | an outbound of a provider is drawn at its place if the filter admits it, and else leaves no trace |
| Groups.IndexTold | outbound/selector.go:117-146 | a selector's map names exactly the tags picked, each by the last outbound that has it |
| Groups.PreferredTold | outbound/selector.go:148-180 | by position: the built-in direct outbound if nothing is picked, else the last picked with the remembered tag if any, else the last with the default tag, which must occur, else the first picked |
| Groups.StartTold | outbound/selector.go:103-181 | a group's start fails if and only if it cannot pick or its default does not occur; else outbounds, map and selection are as told and nothing else changes |
| Groups.ChoiceTakesEffect | outbound/urltest.go:187-208 | after a check, chains of selections continue at the choice for their network, else at the first outbound, and the group reports the TCP choice, else the UDP one |
| Groups.SelectionTakesEffect | outbound/selector.go:257-280 | after a selection, chains of every network continue at the outbound selected, which the group reports |
| Groups.SelectedIsBelow | outbound/urltest.go:196-208 | the selected outbound exists and ranks below its group |
| Groups.WalkEnds | outbound/selector.go:315-321 | following selections from a usable outbound ends at a non-group within its rank |
| Groups.RealOutboundTag | outbound/selector.go:315-321 | the recursion terminates and returns the tag at the end of the chain of selections |
| Groups.MinDelayIsLeast | outbound/selector.go:214-228 | the first measured outbound that no other undercuts, or none is measured |
| Groups.ActionKeepsInv | outbound/selector.go:183-255 | start, provider changes, refresh, selection, fallback and URL-test updates all keep every reference of a group below it |
| Groups.EveryRunResolves | outbound/selector.go:315-321 | main: in every reachable state selections rank below their group and every chain of selections ends at a non-group |
| Groups.LogIsRun | box_outbound.go:76-109 | a whole log in dependency order is a run that starts exactly its outbounds, if the groups' own starts succeed |
| Groups.CompleteLogResolves | box_outbound.go:76-109 | after a complete log in dependency order every chain of selections ends at a non-group |
| Groups.StartUp | box_outbound.go:56-130 | a start-up that succeeds is a run of the groups after which every chain of selections resolves |
| Groups.FallingSettles | outbound/selector.go:230-255 | a fallback leaves a settled selector alone; success means it is settled, after at most one switch to a least delayed outbound; failure means nothing changed and nothing is measured |
| Groups.FallingIgnores | outbound/selector.go:230-238 | a selector that does not fall back, or does not draw from the provider named, is left alone |
| Groups.Router.PickOutbounds | outbound/selector.go:117-154 | the loops collect the members and the tag map, or fail on an unknown name, and tell when only the built-in direct outbound is left |
| Groups.Router.UpdateOutbounds | outbound/selector.go:183-193 | fails if and only if the group draws from the provider and cannot pick or lacks its default, leaving all as it was; else outbounds, map and selection are told by position from what was picked, a URL test has checked both its selections again, no other group changes, and the invariant is kept |
| Groups.UpdateGroupsPointwise | provider/default.go:359-370 | a refresh renews exactly the drawing groups before the first that cannot follow, each as if it were alone |
| Groups.RolledBackIsCleanIff | provider/default.go:280-294 | a rolled-back refresh leaves no group with one of its closed outbounds if and only if no group before the failing one admits any |
| Groups.RollbackLeavesClosed | provider/default.go:285-292 | a refresh whose second group fails leaves the first with the closed outbound |
| Groups.Router.UpdateAll | provider/default.go:359-370 | the loop over the groups stops at the first error and keeps the invariant |
| Groups.Router.Refresh | provider/default.go:266-295 | publishes, updates the groups, and on an error restores only the provider |
| Groups.Router.SelectOutbound | outbound/selector.go:273-280 | selects by tag exactly if the tag is known |
| Groups.Router.MinDelayDetour | outbound/selector.go:214-228 | the loop equals the least-delay function |
| Groups.Router.UpdateSelected | outbound/selector.go:230-255 | the nested recursion terminates and refines the fallback function |
| ProviderRefresh.UnchangedIffPermutation | provider/default.go:237-249 | for distinct new tags no change is reported if and only if the lists are permutations |
| ProviderRefresh.DetectionIsExactIffDistinct | provider/default.go:237-249 | change detection is exact against every old list if and only if the new tags are distinct |
| ProviderRefresh.SelfUnchangedIff | provider/default.go:237-249 | a list counts as unchanged against itself if and only if no tag has two different entries |
| ProviderRefresh.CheckChange | provider/default.go:237-249 | the map and the scan compute the comparison |
| ProviderRefresh.FirstFree | provider/default.go:328-337 | the numbered search terminates at the first free suffix |
| ProviderRefresh.SuffixIsInjective | provider/default.go:330-330 | different numbers give different tags |
| ProviderRefresh.Search | provider/default.go:328-337 | the loop finds the first free numbered tag |
| ProviderRefresh.AssignedAreFresh | provider/default.go:320-340 | final tags are new and pairwise different unless empty |
| ProviderRefresh.TagsTold | provider/default.go:320-340 | each outbound in turn: a name not in use stays as parsed, else it gets the least number from one on that makes it unused |
| ProviderRefresh.NonemptyTagsComeOutDistinct | provider/default.go:320-340 | nonempty parsed tags come out distinct and disjoint from all other outbounds |
| ProviderRefresh.DistinctIffOneUntagged | provider/default.go:321-339 | tags come out distinct if and only if at most one outbound was parsed without a tag and finds its generated name free |
| ProviderRefresh.UntaggedExactly | provider/default.go:321-339 | an outbound ends up without a tag if and only if it was parsed without one and its generated name is neither taken nor parsed before it |
| ProviderRefresh.UntaggedCollide | provider/default.go:321-339 | two outbounds without a tag stay without one |
| ProviderRefresh.CleanTagsAreKept | provider/default.go:320-340 | tags without a clash are left alone |
| ProviderRefresh.DistinctIndexIsExact | provider/default.go:351-355 | over distinct tags the index finds every outbound of the list and nothing else |
| ProviderRefresh.Provider.UpdateOutboundByTag | provider/default.go:297-304 | rebuilds the index over the current tags |
| ProviderRefresh.CollectTaken | provider/default.go:308-319 | the tags of all other outbounds the refresh can see |
| ProviderRefresh.StartOutbounds | provider/default.go:306-357 | retags and starts the new outbounds and indexes them, or fails with the first start error |
| ProviderRefresh.ApplyOptions | provider/default.go:266-295 | publishes the new list and index together, or rolls both back and closes the new outbounds; the options are remembered either way |
| ProviderRefresh.UpdateFromContent | route/router.go:896-908 | main: after a refresh with nonempty tags the router finds, for every new outbound's tag, that very outbound; tags claimed by nobody but the provider itself are kept |
| ProviderRefresh.RefreshedAreFound | route/router.go:896-908 | the lookup argument for one outbound |
| ProviderRefresh.LookupTold | route/router.go:896-908 | a tag is found in the router's index, else in that of the first provider that knows it |
| ProviderRefresh.RefreshAgain | provider/default.go:259-262 | after a failed refresh a second one with the same options reports no change, and keeps the old outbounds, if and only if no tag has two different entries or nothing was created |
| RacingDial.DialWithRetry | common/dialer/default.go:153-163 | succeeds exactly if one of four tries does, with the first that does |
| RacingDial.ActionKeepsInv | common/dialer/default.go:170-206 | every step keeps results delivered once and connections closed once |
| RacingDial.EveryInterleavingIsSafe | common/dialer/default.go:170-206 | in every interleaving the channel closes only after all sends were received, sends never block, the caller's connection is successful and never closed |
| RacingDial.StoppedIsFinished | common/dialer/default.go:173-182 | no deadlock: only the finished state has no next step |
| RacingDial.NothingLeaks | common/dialer/default.go:240-276 | main: at rest the caller has a connection if and only if a dial succeeded, the first one reported, and every other successful one was closed exactly once |
| Duration.LeadingInt | option/time_unit.go:133-151 | fails if and only if the decimal value exceeds 2^63, else returns it without wrapping |
| Duration.OverflowTest | option/time_unit.go:102-102 | the division test detects exactly products above 2^63 |
| Duration.TakeTerm | option/time_unit.go:60-115 | one number with its unit, or an error exactly when malformed or above 2^63 |
| Duration.ParseDuration | option/time_unit.go:31-128 | the loop equals the specification: sign, special cases and the running total in 64 bits, over the units that `Duration.UnitLadder` fixes |
| Duration.TotalIsExact | option/time_unit.go:116-119 | without a corner the 64-bit total is exact or an error when too large |
| Duration.CornerForgets | option/time_unit.go:116-119 | where total and next term are both 2^63 everything before is forgotten |
| Duration.ExactIffNothingForgotten | option/time_unit.go:116-119 | the total is right if and only if no corner occurs or the rest is an error anyway |
| Duration.ParsedIsExact | option/time_unit.go:31-128 | main: every text that is a sequence of terms gives its exact signed sum, or an error when that does not fit, unless a corner occurs |
| Duration.RenderedParses | option/time_unit.go:31-128 | round trip: a written duration parses back to its sum |
| Duration.UnitLadder | option/time_unit.go:14-24 | a thousand of a unit are one of the next up to the second, sixty seconds a minute, sixty minutes an hour, twenty-four hours a day, both micro signs alike, anywhere in a written duration and with every sign |
| Duration.NanosecondsAreCounted | option/time_unit.go:14-24 | n nanoseconds are n, with every sign |
| Duration.NumberNeedsUnit | option/time_unit.go:90-99 | a number without a unit, or with an unknown one, is an error unless it is a lone zero |
| Duration.NothingIsAnError | option/time_unit.go:42-51 | no text, and a sign alone, are errors |
| Duration.FractionAdds | option/time_unit.go:66-113 | a fraction adds its value to the whole units, or is an error when that does not fit |
| Duration.TwiceTheLimitIsZero | option/time_unit.go:116-119 | two terms of 2^63 nanoseconds parse to zero |

## Left out

- Protocol inbounds and outbounds other than the naive connection: wiring over libraries.
- Parsing of Clash, URI, YAML and JSON options, regular expressions, base64: foreign parsers.
- Inside of the DNS client, the GeoIP database, IP sets, domain matchers and sniffers: parameters of the model. A client is taken to apply the address check at most once to each reply.
- Geosite items, process rules and all other items that only read connection facts: plain items with an arbitrary verdict.
- Domain strategies, TTL rewriting, client subnets and DNS caches: copied fields that do not decide which server is asked.
- The process search at the start of routing and whether an outbound needs addresses: the first is left out, the second is a parameter.
- The rule count and update time of a rule set: plain bookkeeping.
- The HTTP/2 naive connection repeats the HTTP/1 code and is covered by the same model; network errors other than the end of the stream are not modelled.
- Wall-clock time: a tick and an idle check are nondeterministic steps.
- The history of delays inside a URL test of a group: a URL test in `Groups` may take any of its outbounds or keep its choice, which `UrlTestSelect.UpdateStaysInside` justifies.
- The cache file that remembers selections: what it returns is arbitrary, what is stored is left out.
- Initial start of provider outbounds: three equal tags can collide there, so only the refresh is modelled.
- Tag prefixes and suffixes and dialer overrides of providers: field copying.
- Duration.ParseDuration: the floating-point value of a decimal fraction is a parameter bounded by its unit, and the error texts are one error.
- Groups.ActionKeepsInv: groups are values in one table rather than linked objects; a group's failed start ends the run.
- ProviderRefresh.ApplyOptions: the update of the groups is its result only; `Groups.Router.Refresh` models it on the groups.
- DnsSearch.EarlierAnswersDoNotMatter: does not cover source GeoIP items on a connection without a valid source, where it is false.
- UrlTestProtocol.EveryInterleavingIsSafe: each read or write of a shared field is one atomic step, except that Close stops the ticker and closes the channel in one.
- RacingDial.NothingLeaks: the packet version is the same code over another connection type.

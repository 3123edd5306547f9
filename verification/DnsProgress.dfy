/** When a DNS search goes on, retries elsewhere or ends, and whether it succeeds, read off
    the queries it made and the replies it got. */
module DnsProgress {
  import opened Wrappers
  import opened RuleModel
  import opened DnsSearch
  import opened DnsFallback
  import RuleSemantics

  ghost predicate NoAddresses(reply: Reply)
    requires reply.Response?
  {
    reply.addresses == None || reply.addresses == Some([])
  }

  /** The rule limits addresses, and the cache or its check turned the reply down. An
      exchange whose addresses cannot be read is turned down unseen. */
  ghost predicate TurnedDown(lookup: bool, e: Entry, reply: Reply, accepted: bool) {
    WithAddressLimit(e) &&
    (reply.RejectedFromCache? || (reply.Response? && reply.checked && (!accepted || (!lookup && reply.addresses.None?))))
  }

  /** A reply without error that holds no usable address. */
  ghost predicate Fruitless(lookup: bool, reply: Reply) {
    if lookup then reply.Empty? || (reply.Response? && NoAddresses(reply))
    else reply.Response? && (!reply.success || NoAddresses(reply))
  }

  /** A reply with addresses. */
  ghost predicate Fruitful(lookup: bool, reply: Reply) {
    reply.Response? && reply.addresses.Some? && reply.addresses.value != [] && (lookup || reply.success)
  }

  /** The fallback rule holds for the answer and can be followed. */
  ghost predicate Follows(g: Config, fb: Fallback, allowFakeIP: bool, addrs: seq<Addr>) {
    FallbackHolds(g.env, fb, addrs) &&
    (fb.acceptResult || fb.server == "" ||
     (fb.server in g.transports && (g.transports[fb.server].isFakeIP ==> allowFakeIP && !g.transports[fb.server].excluded)))
  }

  /** Fallback rule i is the first to be followed. */
  ghost predicate Decides(g: Config, fbs: seq<Fallback>, allowFakeIP: bool, addrs: seq<Addr>, i: nat) {
    i < |fbs| && Follows(g, fbs[i], allowFakeIP, addrs) && forall l | 0 <= l < i :: !Follows(g, fbs[l], allowFakeIP, addrs)
  }

  ghost predicate SendsOn(g: Config, fbs: seq<Fallback>, allowFakeIP: bool, addrs: seq<Addr>) {
    exists i: nat :: Decides(g, fbs, allowFakeIP, addrs, i) && !fbs[i].acceptResult && fbs[i].server == ""
  }

  ghost predicate SendsTo(g: Config, fbs: seq<Fallback>, allowFakeIP: bool, addrs: seq<Addr>, t: Transport) {
    exists i: nat :: Decides(g, fbs, allowFakeIP, addrs, i) && !fbs[i].acceptResult && fbs[i].server != "" && t == g.transports[fbs[i].server]
  }

  // ---- fallback rules by position ----

  lemma {:induction false} FirstDecides(g: Config, fbs: seq<Fallback>, allowFakeIP: bool, addrs: seq<Addr>, i: nat)
    requires Decides(g, fbs, allowFakeIP, addrs, i)
    ensures PureChoice(g, fbs, allowFakeIP, addrs) ==
            if fbs[i].acceptResult then Keep else if fbs[i].server == "" then GoOn else Ask(g.transports[fbs[i].server])
  {
    hide FallbackHolds;
    if i > 0 {
      assert !Follows(g, fbs[0], allowFakeIP, addrs);
      forall l | 0 <= l < i - 1 ensures !Follows(g, fbs[1..][l], allowFakeIP, addrs) {
        assert !Follows(g, fbs[l + 1], allowFakeIP, addrs);
      }
      FirstDecides(g, fbs[1..], allowFakeIP, addrs, i - 1);
    }
  }

  lemma {:induction false} NoneDecides(g: Config, fbs: seq<Fallback>, allowFakeIP: bool, addrs: seq<Addr>)
    requires forall fb <- fbs :: !Follows(g, fb, allowFakeIP, addrs)
    ensures PureChoice(g, fbs, allowFakeIP, addrs) == Keep
  {
    hide FallbackHolds;
    if fbs != [] {
      assert fbs == [fbs[0]] + fbs[1..] && !Follows(g, fbs[0], allowFakeIP, addrs);
      NoneDecides(g, fbs[1..], allowFakeIP, addrs);
    }
  }

  lemma {:induction false} SomeDecides(g: Config, fbs: seq<Fallback>, allowFakeIP: bool, addrs: seq<Addr>) returns (i: nat)
    requires exists fb <- fbs :: Follows(g, fb, allowFakeIP, addrs)
    ensures Decides(g, fbs, allowFakeIP, addrs, i)
  {
    hide Follows;
    i := 0;
    while !Follows(g, fbs[i], allowFakeIP, addrs)
      invariant i < |fbs| && forall l | 0 <= l < i :: !Follows(g, fbs[l], allowFakeIP, addrs)
      decreases |fbs| - i
    {
      assert exists l | 0 <= l < |fbs| :: Follows(g, fbs[l], allowFakeIP, addrs) by {
        var fb :| fb in fbs && Follows(g, fb, allowFakeIP, addrs);
      }
      i := i + 1;
    }
  }

  /** The first fallback rule that holds and can be followed decides: it keeps the answer,
      sends the search on, or sends it to another server. */
  lemma {:induction false} ChoiceTold(g: Config, fbs: seq<Fallback>, allowFakeIP: bool, addrs: seq<Addr>)
    ensures PureChoice(g, fbs, allowFakeIP, addrs).GoOn? <==> SendsOn(g, fbs, allowFakeIP, addrs)
    ensures forall t :: PureChoice(g, fbs, allowFakeIP, addrs) == Ask(t) <==> SendsTo(g, fbs, allowFakeIP, addrs, t)
  {
    hide PureChoice, Follows;
    if exists fb <- fbs :: Follows(g, fb, allowFakeIP, addrs) {
      var i := SomeDecides(g, fbs, allowFakeIP, addrs);
      FirstDecides(g, fbs, allowFakeIP, addrs, i);
    } else {
      NoneDecides(g, fbs, allowFakeIP, addrs);
    }
  }

  // ---- one query ----

  /** The fallback rules use no GeoIP, or the addresses of the answer share one code. */
  ghost predicate ReadableFallbacks(g: Config, e: Entry, reply: Reply) {
    (forall fb <- e.fallbacks :: FallbackShape(false, fb)) ||
    (RuleSemantics.Uniform(g.env, AddressesOf(reply)) && forall fb <- e.fallbacks :: FallbackShape(true, fb))
  }

  /** The search consults more after a query for addresses over a real server. */
  ghost predicate Searching(addressQuery: bool, t: Transport) { addressQuery && !t.isFakeIP && !t.isRcode }

  ghost predicate Proceeds(g: Config, lookup: bool, addressQuery: bool, e: Entry, t: Transport, reply: Reply, accepted: bool) {
    Searching(addressQuery, t) &&
    (TurnedDown(lookup, e, reply, accepted) ||
     (Fruitless(lookup, reply) && e.allowFallthrough) ||
     (Fruitful(lookup, reply) && SendsOn(g, e.fallbacks, !lookup, reply.addresses.value)))
  }

  ghost predicate Retries(g: Config, lookup: bool, addressQuery: bool, e: Entry, t: Transport, reply: Reply, accepted: bool, t': Transport) {
    Searching(addressQuery, t) && !TurnedDown(lookup, e, reply, accepted) && Fruitful(lookup, reply) &&
    SendsTo(g, e.fallbacks, !lookup, reply.addresses.value, t')
  }

  /** The replies a search may end with: no error, and an address if it is a lookup. */
  ghost predicate EndsWell(lookup: bool, reply: Reply) {
    if lookup then Fruitful(true, reply) else reply.Response? || reply.Empty?
  }

  lemma {:induction false} AnswerTold(g: Config, lookup: bool, e: Entry, reply: Reply)
    requires ReadableFallbacks(g, e, reply) && Fruitful(lookup, reply)
    ensures var step := AfterAnswer(g, e, reply.addresses.value, !lookup);
            (step.Continue? <==> SendsOn(g, e.fallbacks, !lookup, reply.addresses.value)) &&
            (forall t' :: step == Retry(t') <==> SendsTo(g, e.fallbacks, !lookup, reply.addresses.value, t'))
  {
    hide FallbackShape, Follows, PureChoice, ChooseFallback;
    FallbackIsPure(g, e.fallbacks, !lookup, reply.addresses.value);
    ChoiceTold(g, e.fallbacks, !lookup, reply.addresses.value);
  }

  /** Unreadable addresses of an exchange are logged as turned down. */
  ghost predicate LoggedReply(lookup: bool, e: Entry, reply: Reply, accepted: bool) {
    WithAddressLimit(e) && reply.Response? && !lookup && reply.addresses.None? ==> !accepted
  }

  lemma {:induction false} StepTold(g: Config, lookup: bool, addressQuery: bool, e: Entry, t: Transport, reply: Reply, accepted: bool)
    requires ReadableFallbacks(g, e, reply) && LoggedReply(lookup, e, reply, accepted) && (lookup ==> addressQuery && !t.isFakeIP)
    ensures var step := StepOf(g, lookup, addressQuery, e, t, reply, accepted);
            (step.Continue? <==> Proceeds(g, lookup, addressQuery, e, t, reply, accepted)) &&
            (forall t' :: step == Retry(t') <==> Retries(g, lookup, addressQuery, e, t, reply, accepted, t'))
    ensures Succeeds(lookup, Judge(WithAddressLimit(e), reply, accepted), reply)
            <==> !TurnedDown(lookup, e, reply, accepted) && EndsWell(lookup, reply)
  {
    hide AfterAnswer, SendsOn, SendsTo, ReadableFallbacks, WithAddressLimit;
    if Fruitful(lookup, reply) { AnswerTold(g, lookup, e, reply); }
  }

  // ---- whole runs ----

  /** What follows query k of a run whose queries are numbered from n. */
  ghost predicate FollowedUp(g: Config, lookup: bool, addressQuery: bool, client: Client, verdicts: seq<bool>, run: Run, n: nat, k: nat)
    requires k < |run.queries|
  {
    var q, last, reply, accepted := run.queries[k], k + 1 == |run.queries|, client(n + k), At(verdicts, n + k);
    match q.origin
    case ByRule(j) =>
      j < |g.rules| &&
      (!last && !run.queries[k + 1].origin.ByFallback? <==> Proceeds(g, lookup, addressQuery, g.rules[j], q.transport, reply, accepted)) &&
      (!last && run.queries[k + 1].origin.ByFallback? ==>
         run.queries[k + 1].origin.rule == j &&
         Retries(g, lookup, addressQuery, g.rules[j], q.transport, reply, accepted, run.queries[k + 1].transport)) &&
      (last ==> !exists t :: Retries(g, lookup, addressQuery, g.rules[j], q.transport, reply, accepted, t)) &&
      (last ==> (run.ok <==> !TurnedDown(lookup, g.rules[j], reply, accepted) && EndsWell(lookup, reply)))
    case _ => last && (run.ok <==> EndsWell(lookup, reply))
  }

  /** Query k was for rule j, whose fallback rules can be read on the reply and whose log
      entry is its verdict. */
  ghost predicate Readable(g: Config, lookup: bool, client: Client, verdicts: seq<bool>, run: Run, n: nat, k: nat)
    requires k < |run.queries|
  {
    var origin := run.queries[k].origin;
    origin.ByRule? && origin.index < |g.rules| ==>
      ReadableFallbacks(g, g.rules[origin.index], client(n + k)) &&
      LoggedReply(lookup, g.rules[origin.index], client(n + k), At(verdicts, n + k))
  }

  lemma {:induction false} FirstFollowedUp(g: Config, lookup: bool, addressQuery: bool, client: Client, verdicts: seq<bool>, us: seq<nat>, n: nat)
    requires AllAllowed(g, us, !lookup) && (lookup ==> addressQuery)
    requires var run := Fold(g, lookup, addressQuery, client, verdicts, us, n);
             |run.queries| > 0 && Readable(g, lookup, client, verdicts, run, n, 0)
    ensures FollowedUp(g, lookup, addressQuery, client, verdicts, Fold(g, lookup, addressQuery, client, verdicts, us, n), n, 0)
  {
    hide Proceeds, Retries, TurnedDown, ReadableFallbacks, LoggedReply, StepOf, AllAllowed;
    if us != [] {
      AllowedTail(g, us, !lookup);
      var e := g.rules[us[0]];
      StepTold(g, lookup, addressQuery, e, g.transports[e.server], client(n), At(verdicts, n));
      if StepOf(g, lookup, addressQuery, e, g.transports[e.server], client(n), At(verdicts, n)).Continue? {
        var asked := SearchAsksInOrder(g, lookup, addressQuery, client, verdicts, us[1..], n + 1);
      }
    }
  }

  lemma LaterFollowedUp(g: Config, lookup: bool, addressQuery: bool, client: Client, verdicts: seq<bool>, run: Run, q: Query, n: nat, k: nat)
    requires k < |run.queries|
    ensures FollowedUp(g, lookup, addressQuery, client, verdicts, Before([q], run), n, k + 1)
            <==> FollowedUp(g, lookup, addressQuery, client, verdicts, run, n + 1, k)
    ensures Readable(g, lookup, client, verdicts, Before([q], run), n, k + 1) <==> Readable(g, lookup, client, verdicts, run, n + 1, k)
  {
    hide Proceeds, Retries, TurnedDown, EndsWell, ReadableFallbacks, LoggedReply;
    assert Before([q], run).queries[k + 1] == run.queries[k];
    if k + 1 < |run.queries| { assert Before([q], run).queries[k + 2] == run.queries[k + 1]; }
  }

  lemma {:induction false} EachFollowedUp(g: Config, lookup: bool, addressQuery: bool, client: Client, verdicts: seq<bool>, us: seq<nat>, n: nat, k: nat)
    requires AllAllowed(g, us, !lookup) && (lookup ==> addressQuery)
    requires var run := Fold(g, lookup, addressQuery, client, verdicts, us, n);
             k < |run.queries| && Readable(g, lookup, client, verdicts, run, n, k)
    ensures FollowedUp(g, lookup, addressQuery, client, verdicts, Fold(g, lookup, addressQuery, client, verdicts, us, n), n, k)
  {
    hide FollowedUp, Readable, StepOf;
    if k == 0 {
      FirstFollowedUp(g, lookup, addressQuery, client, verdicts, us, n);
    } else {
      AllowedTail(g, us, !lookup);
      var e := g.rules[us[0]];
      var t := g.transports[e.server];
      if StepOf(g, lookup, addressQuery, e, t, client(n), At(verdicts, n)).Continue? {
        var rest := Fold(g, lookup, addressQuery, client, verdicts, us[1..], n + 1);
        LaterFollowedUp(g, lookup, addressQuery, client, verdicts, rest, Query(ByRule(us[0]), t), n, k - 1);
        EachFollowedUp(g, lookup, addressQuery, client, verdicts, us[1..], n + 1, k - 1);
      } else {
        RetryFollowedUp(g, lookup, addressQuery, client, verdicts, us, n);
      }
    }
  }

  lemma {:induction false} RetryFollowedUp(g: Config, lookup: bool, addressQuery: bool, client: Client, verdicts: seq<bool>, us: seq<nat>, n: nat)
    requires Servable(g, us) && us != []
    requires StepOf(g, lookup, addressQuery, g.rules[us[0]], g.transports[g.rules[us[0]].server], client(n), At(verdicts, n)).Retry?
    ensures var run := Fold(g, lookup, addressQuery, client, verdicts, us, n);
            |run.queries| == 2 && FollowedUp(g, lookup, addressQuery, client, verdicts, run, n, 1)
  {
    hide StepOf, Proceeds, Retries, TurnedDown;
  }

  /** Exactly when a search goes on, retries and succeeds, for every query of every exchange
      and lookup. */
  lemma {:induction false} SearchTold(g: Config, start: Context, lookup: bool, addressQuery: bool, client: Client, verdicts: seq<bool>, run: Run, k: nat)
    requires lookup ==> addressQuery
    requires run == Fold(g, lookup, addressQuery, client, verdicts, UsableFrom(g, start, !lookup, addressQuery, 0), 0)
    requires Logged(g, start, lookup, client, run.queries, verdicts) && k < |run.queries|
    requires run.queries[k].origin.ByRule? && run.queries[k].origin.index < |g.rules| ==>
               ReadableFallbacks(g, g.rules[run.queries[k].origin.index], client(k))
    ensures FollowedUp(g, lookup, addressQuery, client, verdicts, run, 0, k)
  {
    hide Fold, StaticMatch, FollowedUp, ReadableFallbacks, CodeAfterAll, SecondOutcome;
    var us := UsableFrom(g, start, !lookup, addressQuery, 0);
    assert AllAllowed(g, us, !lookup);
    assert LoggedVerdict(g, start, lookup, client, run.queries, verdicts, k);
    EachFollowedUp(g, lookup, addressQuery, client, verdicts, us, 0, k);
  }

  /** The log entry of a query for a rule that limits addresses, put to the check: the second
      check holds for the addresses, given the code left over. */
  lemma {:induction false} TurnedDownTold(g: Config, start: Context, lookup: bool, client: Client, verdicts: seq<bool>, queries: seq<Query>, k: nat)
    requires Logged(g, start, lookup, client, queries, verdicts) && k < |queries|
    requires queries[k].origin.ByRule? && queries[k].origin.index < |g.rules|
    ensures var j, reply := queries[k].origin.index, client(k);
            var code := CodeAfterAll(g, start, lookup, client, queries[..k]);
            TurnedDown(lookup, g.rules[j], reply, verdicts[k]) <==>
            WithAddressLimit(g.rules[j]) &&
            match reply
            case RejectedFromCache => true
            case Response(_, Some(addrs), checked) => checked && !SecondOutcome(g, start, code, j, addrs).ok
            case Response(_, None, checked) => checked && (lookup ==> !SecondOutcome(g, start, code, j, []).ok)
            case _ => false
  {
    hide SecondOutcome, CodeAfterAll;
    assert LoggedVerdict(g, start, lookup, client, queries, verdicts, k);
  }

  /** A rule is consulted exactly when it matches without an answer, does not limit the
      addresses of a query that is not for addresses, and names a server that is known and,
      if it hands out fake addresses, wanted here and does not exclude the domain. */
  lemma {:induction false} ConsultedTold(g: Config, start: Context, lookup: bool, addressQuery: bool, j: nat)
    requires j < |g.rules|
    ensures var e := g.rules[j];
            j in UsableFrom(g, start, !lookup, addressQuery, 0) <==>
            StaticMatch(g, start, j) && (!addressQuery ==> !WithAddressLimit(e)) && e.server in g.transports &&
            (g.transports[e.server].isFakeIP ==> !lookup && !g.transports[e.server].excluded)
  {
    UsableFromIsSorted(g, start, !lookup, addressQuery, 0);
    hide StaticMatch, WithAddressLimit;
  }
}

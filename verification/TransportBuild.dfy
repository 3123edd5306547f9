/** Construction of the DNS transports: a server whose address is a domain needs the
    transport of its address resolver first, so servers are built in passes. */
module TransportBuild {
  import opened Wrappers
  import opened Numerals
  import StartOrder

  /** What the parser finds out about one configured address. */
  datatype Address = Literal | Domain | EmptyAddress | MissingHostname

  datatype Server = Server(tag: string, addresses: seq<Address>, resolver: string)

  datatype Result =
    | Built
    | DuplicateTag(tag: string)
    | MissingAddress(tag: string)
    | BadAddress(tag: string)
    | MissingResolver(tag: string)
    | ResolverNotFound(tag: string)
    | CreateFailed(tag: string)
    | CircularReference(tags: seq<string>)

  function NameOf(servers: seq<Server>, i: nat): string
    requires i < |servers|
  {
    if servers[i].tag == "" then Decimal(i) else servers[i].tag
  }

  predicate NeedsUpstream(s: Server) { exists k | 0 <= k < |s.addresses| :: s.addresses[k].Domain? }

  ghost predicate DistinctNames(servers: seq<Server>) {
    forall i, j | 0 <= i < j < |servers| :: NameOf(servers, i) != NameOf(servers, j)
  }

  ghost predicate IsName(servers: seq<Server>, t: string) { exists i | 0 <= i < |servers| :: NameOf(servers, i) == t }

  /** The resolver chain of server i ends within n steps at a server that needs none. */
  ghost predicate Resolves(servers: seq<Server>, t: string, n: nat)
    decreases n
  {
    exists i | 0 <= i < |servers| ::
      NameOf(servers, i) == t && (!NeedsUpstream(servers[i]) || (n > 0 && Resolves(servers, servers[i].resolver, n - 1)))
  }

  ghost predicate WellFounded(servers: seq<Server>, t: string) { exists n: nat :: Resolves(servers, t, n) }

  /** The configuration error of one server, if any. */
  function Validate(s: Server, name: string, names: set<string>): Option<Result> {
    if |s.addresses| == 0 then Some(MissingAddress(name))
    else if exists k | 0 <= k < |s.addresses| :: s.addresses[k].EmptyAddress? || s.addresses[k].MissingHostname?
    then Some(BadAddress(name))
    else if NeedsUpstream(s) && s.resolver == "" then Some(MissingResolver(name))
    else if NeedsUpstream(s) && s.resolver !in names then Some(ResolverNotFound(name))
    else None
  }

  /** It has addresses, all of them proper, and if one is a domain a resolver that is a server. */
  ghost predicate Proper(servers: seq<Server>, s: Server) {
    s.addresses != [] && (forall a <- s.addresses :: a == Literal || a == Domain) && (Domain in s.addresses ==> s.resolver != "" && IsName(servers, s.resolver))
  }

  ghost predicate Valid(servers: seq<Server>) { forall s <- servers :: Proper(servers, s) }

  /** What each error says about the server it names. */
  ghost predicate Faulty(servers: seq<Server>, s: Server, r: Result) {
    match r
    case MissingAddress(_) => s.addresses == []
    case BadAddress(_) => EmptyAddress in s.addresses || MissingHostname in s.addresses
    case MissingResolver(_) => Domain in s.addresses && s.resolver == ""
    case ResolverNotFound(_) => Domain in s.addresses && s.resolver != "" && !IsName(servers, s.resolver)
    case _ => false
  }

  lemma {:induction false} ValidateTold(servers: seq<Server>, i: nat)
    requires i < |servers|
    ensures var r := Validate(servers[i], NameOf(servers, i), Names(servers));
            (r.None? <==> Proper(servers, servers[i])) &&
            (r.Some? ==> Faulty(servers, servers[i], r.value) && r.value.tag == NameOf(servers, i))
  {
    var s := servers[i];
    assert IsName(servers, s.resolver) <==> s.resolver in Names(servers);
    assert NeedsUpstream(s) <==> Domain in s.addresses by {
      if Domain in s.addresses { var k :| 0 <= k < |s.addresses| && s.addresses[k] == Domain; assert s.addresses[k].Domain?; }
    }
    if k :| 0 <= k < |s.addresses| && (s.addresses[k].EmptyAddress? || s.addresses[k].MissingHostname?) {
      assert s.addresses[k] in s.addresses;
    } else {
      forall a | a in s.addresses ensures a == Literal || a == Domain {
        var k :| 0 <= k < |s.addresses| && s.addresses[k] == a;
        assert !s.addresses[k].EmptyAddress?;
      }
    }
  }

  // ---- the build log ----

  /** Each transport is built once, and after the transport that resolves its address. */
  ghost predicate BuildOrder(servers: seq<Server>, log: seq<string>) {
    StartOrder.NoDuplicates(log) && (forall k | 0 <= k < |log| :: IsName(servers, log[k])) &&
    forall k, i | 0 <= k < |log| && 0 <= i < |servers| && NameOf(servers, i) == log[k] && NeedsUpstream(servers[i]) ::
      servers[i].resolver in log[..k]
  }

  /** Everything built has a well-founded chain. */
  lemma {:induction false} BuiltIsWellFounded(servers: seq<Server>, log: seq<string>, k: nat)
    requires BuildOrder(servers, log) && k < |log|
    ensures Resolves(servers, log[k], k)
    decreases k
  {
    hide NeedsUpstream, NameOf, StartOrder.NoDuplicates;
    assert IsName(servers, log[k]);
    var i :| 0 <= i < |servers| && NameOf(servers, i) == log[k];
    if NeedsUpstream(servers[i]) {
      var l :| 0 <= l < k && log[l] == servers[i].resolver;
      BuiltIsWellFounded(servers, log, l);
      ResolvesMonotone(servers, log[l], l, k - 1);
    }
  }

  lemma {:induction false} ResolvesMonotone(servers: seq<Server>, t: string, m: nat, n: nat)
    requires m <= n && Resolves(servers, t, m)
    ensures Resolves(servers, t, n)
    decreases m
  {
    var i :| 0 <= i < |servers| && NameOf(servers, i) == t &&
             (!NeedsUpstream(servers[i]) || (m > 0 && Resolves(servers, servers[i].resolver, m - 1)));
    if NeedsUpstream(servers[i]) { ResolvesMonotone(servers, servers[i].resolver, m - 1, n - 1); }
  }

  /** The servers left when a pass builds nothing: each waits for another of them. */
  ghost predicate Waiting(servers: seq<Server>, built: set<string>) {
    forall i | 0 <= i < |servers| && NameOf(servers, i) !in built ::
      NeedsUpstream(servers[i]) && servers[i].resolver !in built
  }

  lemma {:induction false} WaitingNeverResolves(servers: seq<Server>, built: set<string>, t: string, n: nat)
    requires DistinctNames(servers) && Waiting(servers, built) && t !in built
    ensures !Resolves(servers, t, n)
    decreases n
  {
    forall i | 0 <= i < |servers| && NameOf(servers, i) == t
      ensures NeedsUpstream(servers[i]) && (n == 0 || !Resolves(servers, servers[i].resolver, n - 1))
    {
      if n > 0 { WaitingNeverResolves(servers, built, servers[i].resolver, n - 1); }
    }
  }

  // ---- construction ----

  ghost predicate Progress(servers: seq<Server>, built: set<string>, log: seq<string>) {
    BuildOrder(servers, log) && |built| == |log| && forall t :: t in built <==> t in log
  }

  lemma {:induction false} BuildOne(servers: seq<Server>, built: set<string>, log: seq<string>, i: nat)
    requires DistinctNames(servers) && Progress(servers, built, log) && i < |servers| && NameOf(servers, i) !in built
    requires NeedsUpstream(servers[i]) ==> servers[i].resolver in built
    ensures Progress(servers, built + {NameOf(servers, i)}, log + [NameOf(servers, i)])
  {
    var t := NameOf(servers, i);
    var log' := log + [t];
    forall k, j | 0 <= k < |log'| && 0 <= j < |servers| && NameOf(servers, j) == log'[k] && NeedsUpstream(servers[j])
      ensures servers[j].resolver in log'[..k]
    {
      if k < |log| {
        assert servers[j].resolver in log[..k] && log'[..k] == log[..k];
      } else {
        assert j == i && log'[..k] == log;
      }
    }
  }

  ghost function Names(servers: seq<Server>): set<string> { set i | 0 <= i < |servers| :: NameOf(servers, i) }

  lemma {:induction false} NamesCount(servers: seq<Server>, n: nat)
    requires DistinctNames(servers) && n <= |servers|
    ensures |set i | 0 <= i < n :: NameOf(servers, i)| == n
  {
    if n > 0 {
      NamesCount(servers, n - 1);
      var before := set i | 0 <= i < n - 1 :: NameOf(servers, i);
      assert (set i | 0 <= i < n :: NameOf(servers, i)) == before + {NameOf(servers, n - 1)};
    }
  }

  ghost predicate AllBuilt(servers: seq<Server>, built: set<string>) {
    forall i | 0 <= i < |servers| :: NameOf(servers, i) in built
  }

  lemma {:induction false} CountDecides(servers: seq<Server>, built: set<string>, log: seq<string>)
    requires DistinctNames(servers) && Progress(servers, built, log)
    ensures |log| <= |servers|
    ensures |log| == |servers| <==> AllBuilt(servers, built)
  {
    var names := Names(servers);
    NamesCount(servers, |servers|);
    StartOrder.DistinctFitsInSet(log, names);
    assert built <= names;
    if |log| == |servers| {
      StartOrder.SubsetOfSameSize(built, names);
      forall i | 0 <= i < |servers| ensures NameOf(servers, i) in built { assert NameOf(servers, i) in names; }
    }
    if AllBuilt(servers, built) {
      assert names <= built;
      StartOrder.SubsetSize(names, built);
    }
  }

  /** Fills the tag table; a repeated tag is refused. */
  method CollectNames(servers: seq<Server>) returns (r: Result, names: set<string>)
    ensures r.Built? || r.DuplicateTag?
    ensures r.Built? <==> DistinctNames(servers)
    ensures r.DuplicateTag? ==> exists i, j | 0 <= i < j < |servers| :: NameOf(servers, i) == NameOf(servers, j) == r.tag
    ensures r.Built? ==> names == Names(servers)
  {
    names := {};
    for i := 0 to |servers|
      invariant forall t :: t in names <==> exists k | 0 <= k < i :: NameOf(servers, k) == t
      invariant forall k, l | 0 <= k < l < i :: NameOf(servers, k) != NameOf(servers, l)
    {
      var t := NameOf(servers, i);
      if t in names {
        var k :| 0 <= k < i && NameOf(servers, k) == t;
        assert !DistinctNames(servers);
        return DuplicateTag(t), names;
      }
      names := names + {t};
    }
    return Built, names;
  }

  /** The checks made on a server each time it is visited. */
  method CheckServer(s: Server, name: string, names: set<string>) returns (error: Option<Result>, needUpstream: bool)
    ensures error == Validate(s, name, names)
    ensures error.None? ==> needUpstream == NeedsUpstream(s)
  {
    needUpstream := false;
    if |s.addresses| == 0 { return Some(MissingAddress(name)), false; }
    for k := 0 to |s.addresses|
      invariant needUpstream <==> exists l | 0 <= l < k :: s.addresses[l].Domain?
      invariant forall l | 0 <= l < k :: !s.addresses[l].EmptyAddress? && !s.addresses[l].MissingHostname?
    {
      match s.addresses[k]
      case EmptyAddress => return Some(BadAddress(name)), false;
      case MissingHostname => return Some(BadAddress(name)), false;
      case Literal =>
      case Domain => needUpstream := true;
    }
    if needUpstream {
      if s.resolver == "" { return Some(MissingResolver(name)), needUpstream; }
      if s.resolver !in names { return Some(ResolverNotFound(name)), needUpstream; }
    }
    return None, needUpstream;
  }

  /** An error of creating one transport, or of the configuration of the server it names. */
  ghost predicate Justified(servers: seq<Server>, creates: string -> bool, r: Result) {
    !r.Built? && !r.DuplicateTag? && !r.CircularReference? &&
    exists i | 0 <= i < |servers| ::
      NameOf(servers, i) == r.tag && if r.CreateFailed? then !creates(r.tag) && Proper(servers, servers[i]) else Faulty(servers, servers[i], r)
  }

  lemma {:induction false} ValidIsNotFaulty(servers: seq<Server>, creates: string -> bool, r: Result)
    requires Valid(servers) && forall t :: creates(t)
    ensures !Justified(servers, creates, r)
  {
    forall i | 0 <= i < |servers| ensures !Faulty(servers, servers[i], r) { assert servers[i] in servers; }
  }

  method BuildPass(servers: seq<Server>, names: set<string>, creates: string -> bool, built0: set<string>, log0: seq<string>)
      returns (r: Result, built: set<string>, log: seq<string>)
    requires DistinctNames(servers) && names == Names(servers) && Progress(servers, built0, log0)
    ensures Progress(servers, built, log) && log0 <= log
    ensures r.Built? || Justified(servers, creates, r)
    ensures r.Built? && log == log0 ==> built == built0 && Waiting(servers, built)
  {
    built, log := built0, log0;
    var i := 0;
    while i < |servers|
      invariant 0 <= i <= |servers|
      invariant Progress(servers, built, log) && log0 <= log
      invariant log == log0 ==> built == built0
      invariant log == log0 ==>
        forall k | 0 <= k < i && NameOf(servers, k) !in built :: NeedsUpstream(servers[k]) && servers[k].resolver !in built
    {
      var t := NameOf(servers, i);
      if t !in built {
        var error, needUpstream := CheckServer(servers[i], t, names);
        ValidateTold(servers, i);
        if error.Some? { return error.value, built, log; }
        if !needUpstream || servers[i].resolver in built {
          if !creates(t) {
            return CreateFailed(t), built, log;
          }
          BuildOne(servers, built, log, i);
          built, log := built + {t}, log + [t];
        }
      }
      i := i + 1;
    }
    return Built, built, log;
  }

  /** The tags named in the circular-reference error. The positions of the filtered list
      index the unfiltered tag list, so the first tags are named, whichever are unresolved. */
  function Reported(servers: seq<Server>, built: set<string>): seq<string> {
    var count := |Unresolved(servers, built, 0)|;
    if count <= |servers| then seq(count, i requires 0 <= i < count => NameOf(servers, i)) else []
  }

  function Unresolved(servers: seq<Server>, built: set<string>, i: nat): (us: seq<string>)
    requires i <= |servers|
    ensures |us| <= |servers| - i
    decreases |servers| - i
  {
    if i == |servers| then []
    else if NameOf(servers, i) in built then Unresolved(servers, built, i + 1)
    else [NameOf(servers, i)] + Unresolved(servers, built, i + 1)
  }

  /** The servers from i on whose resolver chain is not well-founded, in order. */
  ghost function Circular(servers: seq<Server>, i: nat): seq<string>
    requires i <= |servers|
    decreases |servers| - i
  {
    if i == |servers| then []
    else (if WellFounded(servers, NameOf(servers, i)) then [] else [NameOf(servers, i)]) + Circular(servers, i + 1)
  }

  /** No server without a well-founded chain comes after one that has it. */
  ghost predicate CircularFirst(servers: seq<Server>) {
    forall i, j | 0 <= i < j < |servers| && WellFounded(servers, NameOf(servers, i)) :: WellFounded(servers, NameOf(servers, j))
  }

  /** What the error names: as many servers as are circular, but the first ones. It is right
      exactly when the circular servers come first. */
  ghost predicate Misindexed(servers: seq<Server>, tags: seq<string>) {
    var circular := Circular(servers, 0);
    |tags| == |circular| <= |servers| && (forall i | 0 <= i < |tags| :: tags[i] == NameOf(servers, i)) &&
    (tags == circular <==> CircularFirst(servers))
  }

  method BuildTransports(servers: seq<Server>, creates: string -> bool) returns (r: Result, log: seq<string>)
    ensures r.DuplicateTag? <==> !DistinctNames(servers)
    ensures r.DuplicateTag? ==> exists i, j | 0 <= i < j < |servers| :: NameOf(servers, i) == NameOf(servers, j) == r.tag
    ensures BuildOrder(servers, log)
    ensures r.Built? ==> (forall i | 0 <= i < |servers| :: NameOf(servers, i) in log && WellFounded(servers, NameOf(servers, i)))
    ensures r.CircularReference? ==>
              (exists i | 0 <= i < |servers| :: !WellFounded(servers, NameOf(servers, i))) &&
              forall i | 0 <= i < |servers| :: NameOf(servers, i) in log <==> WellFounded(servers, NameOf(servers, i))
    ensures r.CircularReference? ==> Misindexed(servers, r.tags)
    ensures !r.Built? && !r.DuplicateTag? && !r.CircularReference? ==> Justified(servers, creates, r)
    ensures DistinctNames(servers) && Valid(servers) && (forall t :: creates(t)) ==>
              (r.CircularReference? <==> exists i | 0 <= i < |servers| :: !WellFounded(servers, NameOf(servers, i)))
  {
    hide BuildOrder, Waiting, WellFounded, DistinctNames, Misindexed;
    log := [];
    NothingBuilt(servers);
    var names;
    r, names := CollectNames(servers);
    if r.DuplicateTag? { return r, []; }
    var built: set<string> := {};
    while true
      invariant Progress(servers, built, log)
      decreases |servers| - |log|
    {
      var before := |log|;
      r, built, log := BuildPass(servers, names, creates, built, log);
      CountDecides(servers, built, log);
      BuiltAreWellFounded(servers, built, log);
      if !r.Built? {
        if Valid(servers) && forall t :: creates(t) { ValidIsNotFaulty(servers, creates, r); }
        return r, log;
      }
      if |built| == |servers| { return Built, log; }
      if |log| == before {
        WaitingAreNot(servers, built);
        ReportIsRightIffFirst(servers, built);
        return CircularReference(Reported(servers, built)), log;
      }
    }
  }

  lemma NothingBuilt(servers: seq<Server>)
    ensures Progress(servers, {}, [])
  {
  }

  lemma {:induction false} BuiltAreWellFounded(servers: seq<Server>, built: set<string>, log: seq<string>)
    requires Progress(servers, built, log)
    ensures forall t :: t in built ==> WellFounded(servers, t)
  {
    forall t | t in built ensures WellFounded(servers, t) {
      var k :| 0 <= k < |log| && log[k] == t;
      BuiltIsWellFounded(servers, log, k);
    }
  }

  lemma {:induction false} WaitingAreNot(servers: seq<Server>, built: set<string>)
    requires DistinctNames(servers) && Waiting(servers, built)
    ensures forall t :: t !in built ==> !WellFounded(servers, t)
  {
    forall t, n: nat | t !in built ensures !Resolves(servers, t, n) { WaitingNeverResolves(servers, built, t, n); }
  }

  /** The error names the circular servers exactly when they come first. */
  lemma {:induction false} ReportIsRightIffFirst(servers: seq<Server>, built: set<string>)
    requires DistinctNames(servers) && forall t :: t in built <==> WellFounded(servers, t)
    ensures Misindexed(servers, Reported(servers, built))
  {
    hide WellFounded;
    var us, n := Unresolved(servers, built, 0), |Unresolved(servers, built, 0)|;
    UnresolvedAreCircular(servers, built, 0);
    if CircularFirst(servers) {
      FirstAreUnresolved(servers, built, 0);
      UnresolvedPrefix(servers, built, 0, n);
      assert Reported(servers, built) == us;
    }
    if Reported(servers, built) == us {
      UnresolvedAreNotBuilt(servers, built, 0);
      forall i | 0 <= i < n ensures NameOf(servers, i) !in built { assert us[i] == NameOf(servers, i); }
      PrefixCounts(servers, built, 0, n);
      NoneLeft(servers, built, n);
    }
  }

  lemma {:induction false} UnresolvedAreCircular(servers: seq<Server>, built: set<string>, i: nat)
    requires i <= |servers| && forall t :: t in built <==> WellFounded(servers, t)
    ensures Unresolved(servers, built, i) == Circular(servers, i)
    decreases |servers| - i
  {
    hide WellFounded;
    if i < |servers| { UnresolvedAreCircular(servers, built, i + 1); }
  }

  /** When the circular servers come first, the unresolved ones from i on follow at once. */
  lemma {:induction false} FirstAreUnresolved(servers: seq<Server>, built: set<string>, i: nat)
    requires i <= |servers| && CircularFirst(servers) && forall t :: t in built <==> WellFounded(servers, t)
    ensures forall k | i <= k < i + |Unresolved(servers, built, i)| :: NameOf(servers, k) !in built
    decreases |servers| - i
  {
    hide WellFounded;
    if i < |servers| {
      FirstAreUnresolved(servers, built, i + 1);
    }
  }

  lemma {:induction false} PrefixCounts(servers: seq<Server>, built: set<string>, i: nat, m: nat)
    requires i <= m <= |servers| && forall k | i <= k < m :: NameOf(servers, k) !in built
    ensures |Unresolved(servers, built, i)| == m - i + |Unresolved(servers, built, m)|
    decreases m - i
  {
    if i < m { PrefixCounts(servers, built, i + 1, m); }
  }

  lemma {:induction false} NoneLeft(servers: seq<Server>, built: set<string>, i: nat)
    requires i <= |servers| && Unresolved(servers, built, i) == []
    ensures forall k | i <= k < |servers| :: NameOf(servers, k) in built
    decreases |servers| - i
  {
    if i < |servers| { NoneLeft(servers, built, i + 1); }
  }

  lemma {:induction false} UnresolvedAreNotBuilt(servers: seq<Server>, built: set<string>, i: nat)
    requires i <= |servers|
    ensures forall t <- Unresolved(servers, built, i) :: t !in built
    decreases |servers| - i
  {
    if i < |servers| { UnresolvedAreNotBuilt(servers, built, i + 1); }
  }

  lemma {:induction false} UnresolvedPrefix(servers: seq<Server>, built: set<string>, i: nat, m: nat)
    requires i <= m <= |servers| && forall k | i <= k < m :: NameOf(servers, k) !in built
    requires |Unresolved(servers, built, i)| == m - i
    ensures forall k | i <= k < m :: Unresolved(servers, built, i)[k - i] == NameOf(servers, k)
    decreases |servers| - i
  {
    if i < m {
      UnresolvedPrefix(servers, built, i + 1, m);
      var us, rest := Unresolved(servers, built, i), Unresolved(servers, built, i + 1);
      assert us == [NameOf(servers, i)] + rest;
      forall k | i <= k < m ensures us[k - i] == NameOf(servers, k) {
        if k > i { assert us[k - i] == rest[k - (i + 1)]; }
      }
    }
  }

  /** A literal server before one that resolves its address over itself: the error names the
      first, which is fine, and not the second. */
  method NamesWrongServer(fine: string, loop: string) returns (r: Result)
    requires fine != "" && loop != "" && fine != loop
    ensures r == CircularReference([fine])
    ensures var servers := [Server(fine, [Literal], ""), Server(loop, [Domain], loop)];
            WellFounded(servers, fine) && !WellFounded(servers, loop)
  {
    var servers := [Server(fine, [Literal], ""), Server(loop, [Domain], loop)];
    SelfResolverIsCircular(servers, fine, loop);
    var log;
    r, log := BuildTransports(servers, t => true);
  }

  lemma {:induction false} SelfResolverIsCircular(servers: seq<Server>, fine: string, loop: string)
    requires fine != "" && loop != "" && fine != loop
    requires servers == [Server(fine, [Literal], ""), Server(loop, [Domain], loop)]
    ensures DistinctNames(servers) && Valid(servers) && NameOf(servers, 0) == fine && NameOf(servers, 1) == loop
    ensures WellFounded(servers, fine) && !WellFounded(servers, loop) && Circular(servers, 0) == [loop]
  {
    assert NameOf(servers, 0) == fine && NameOf(servers, 1) == loop;
    assert servers[1].addresses[0].Domain? && NeedsUpstream(servers[1]) && !NeedsUpstream(servers[0]);
    assert loop in Names(servers);
    assert Resolves(servers, fine, 0);
    forall n: nat ensures !Resolves(servers, loop, n) { LoopNeverResolves(servers, loop, n); }
    assert Circular(servers, 2) == [];
    assert Circular(servers, 1) == [loop];
  }

  lemma {:induction false} LoopNeverResolves(servers: seq<Server>, t: string, n: nat)
    requires forall i | 0 <= i < |servers| && NameOf(servers, i) == t :: NeedsUpstream(servers[i]) && servers[i].resolver == t
    ensures !Resolves(servers, t, n)
    decreases n
  {
    if n > 0 { LoopNeverResolves(servers, t, n - 1); }
  }

  // ---- the default transport ----

  /** final names the default server; without it the first one serves, or a local transport
      when none is configured. A fake-IP default is refused. */
  method ChooseDefault(servers: seq<Server>, final: string, isFakeIP: string -> bool) returns (chosen: Option<string>)
    requires DistinctNames(servers)
    ensures chosen.Some? ==> !isFakeIP(chosen.value)
    ensures chosen.Some? ==>
      chosen.value == (if final != "" then final else if |servers| > 0 then NameOf(servers, 0) else "local")
    ensures chosen.None? <==>
      (if final != "" then !IsName(servers, final) || isFakeIP(final)
       else isFakeIP(if |servers| > 0 then NameOf(servers, 0) else "local"))
  {
    var name;
    if final != "" {
      var found := false;
      for i := 0 to |servers|
        invariant found <==> exists k | 0 <= k < i :: NameOf(servers, k) == final
      {
        if NameOf(servers, i) == final { found := true; }
      }
      if !found { return None; }
      name := final;
    } else if |servers| == 0 {
      name := "local";
    } else {
      name := NameOf(servers, 0);
    }
    if isFakeIP(name) { return None; }
    return Some(name);
  }
}

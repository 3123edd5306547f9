/** Three racing dials and the collector of their results: which connection the caller gets,
    and what happens to the others, over every interleaving of the goroutines. */
module RacingDial {
  import opened Wrappers

  const WORKERS := 3

  // ---- one worker ----

  const TRIES := 4

  /** dialContextWithRetry: stops at the first success, gives up after four failures. */
  method DialWithRetry(attempt: nat -> bool) returns (connection: Option<nat>)
    ensures connection.Some? <==> exists k: nat :: k < 4 && attempt(k)
    ensures connection.Some? ==> connection.value < 4 && attempt(connection.value) && forall j: nat | j < connection.value :: !attempt(j)
  {
    for i := 0 to TRIES
      invariant forall j: nat | j < i :: !attempt(j)
    {
      if attempt(i) { return Some(i); }
    }
    return None;
  }

  // ---- the goroutines ----

  /** The collector counts what it received; the drain counts on from the index after it. */
  datatype Phase = Collecting(i: nat) | Draining(index: nat) | Finished

  /** queue is the channel's buffer, received its past contents in order; result is what the
      caller got; closing are the Close calls under way and closed those made. */
  datatype State = State(
    sent: set<nat>,
    queue: seq<nat>,
    received: seq<nat>,
    phase: Phase,
    result: Option<nat>,
    closing: set<nat>,
    closed: multiset<nat>)

  const INIT := State({}, [], [], Collecting(0), None, {}, multiset{})

  datatype Action = Send(w: nat) | Receive | Drain | CloseChannel | CloseConnection(w: nat)

  /** A send waits while the buffer is full. */
  predicate Enabled(s: State, a: Action) {
    match a
    case Send(w) => w < WORKERS && w !in s.sent && |s.queue| < WORKERS
    case Receive => s.phase.Collecting? && s.queue != []
    case Drain => s.phase.Draining? && s.phase.index < WORKERS && s.queue != []
    case CloseChannel => s.phase.Draining? && s.phase.index >= WORKERS
    case CloseConnection(w) => w in s.closing
  }

  function Take(s: State): State
    requires s.queue != []
  {
    s.(queue := s.queue[1..], received := s.received + [s.queue[0]])
  }

  /** ok[w] tells whether worker w's dial succeeded. */
  function Apply(ok: seq<bool>, s: State, a: Action): State
    requires |ok| == WORKERS && Enabled(s, a)
  {
    match a
    case Send(w) => s.(sent := s.sent + {w}, queue := s.queue + [w])
    case Receive =>
      var w := s.queue[0];
      if w < WORKERS && ok[w] then Take(s).(phase := Draining(s.phase.i + 1), result := Some(w))
      else if s.phase.i + 1 == WORKERS then Take(s).(phase := Draining(WORKERS + 1))
      else Take(s).(phase := Collecting(s.phase.i + 1))
    case Drain =>
      var w := s.queue[0];
      Take(s).(phase := Draining(s.phase.index + 1), closing := if w < WORKERS && ok[w] then s.closing + {w} else s.closing)
    case CloseChannel => s.(phase := Finished)
    case CloseConnection(w) => s.(closing := s.closing - {w}, closed := s.closed + multiset{w})
  }

  // ---- the invariant ----

  /** How often the connection of w has been or is being closed. */
  function Closes(s: State, w: nat): nat { (if w in s.closing then 1 else 0) + s.closed[w] }

  predicate Succeeded(ok: seq<bool>, w: nat) { w < |ok| && ok[w] }

  /** Every worker that has sent is once in the history or the buffer. */
  ghost predicate Delivered(s: State) {
    (forall w | w in s.sent :: w < WORKERS) &&
    (forall w | w in s.sent :: multiset(s.received)[w] + multiset(s.queue)[w] == 1) &&
    (forall w | w !in s.sent :: multiset(s.received)[w] + multiset(s.queue)[w] == 0) &&
    |s.received| + |s.queue| == |s.sent|
  }

  /** Every received connection but the result is closed once, and nothing else. */
  ghost predicate ClosedOnce(ok: seq<bool>, s: State) {
    forall w :: Closes(s, w) == if w in s.received && Succeeded(ok, w) && s.result != Some(w) then 1 else 0
  }

  ghost predicate PhaseInv(ok: seq<bool>, s: State) {
    (s.result.Some? ==> s.result.value in s.received && Succeeded(ok, s.result.value)) &&
    (s.result.None? ==> forall w <- s.received :: !Succeeded(ok, w)) &&
    match s.phase
    case Collecting(i) => i == |s.received| < WORKERS && s.result.None?
    case Draining(k) => if s.result.Some? then k == |s.received| <= WORKERS else k == WORKERS + 1 && |s.received| == WORKERS
    case Finished => |s.received| == WORKERS
  }

  ghost predicate Inv(ok: seq<bool>, s: State) { Delivered(s) && ClosedOnce(ok, s) && PhaseInv(ok, s) }

  /** Worker w was the first to report a connection. */
  ghost predicate FirstReported(ok: seq<bool>, received: seq<nat>, w: nat) {
    exists k | 0 <= k < |received| :: received[k] == w && Succeeded(ok, w) && forall j | 0 <= j < k :: !Succeeded(ok, received[j])
  }

  lemma {:induction false} MoreReported(ok: seq<bool>, received: seq<nat>, w: nat, more: nat)
    requires FirstReported(ok, received, w)
    ensures FirstReported(ok, received + [more], w)
  {
    var k :| 0 <= k < |received| && received[k] == w && forall j | 0 <= j < k :: !Succeeded(ok, received[j]);
    assert (received + [more])[k] == w && forall j | 0 <= j < k :: (received + [more])[j] == received[j];
  }

  /** The result is set by the first success reported and never replaced. */
  lemma {:induction false} ActionKeepsFirst(ok: seq<bool>, s: State, a: Action)
    requires |ok| == WORKERS && Inv(ok, s) && Enabled(s, a)
    requires s.result.Some? ==> FirstReported(ok, s.received, s.result.value)
    ensures var s' := Apply(ok, s, a); s'.result.Some? ==> FirstReported(ok, s'.received, s'.result.value)
    ensures s.result.Some? ==> Apply(ok, s, a).result == s.result
  {
    hide Delivered, ClosedOnce;
    if a.Receive? || a.Drain? {
      var w := s.queue[0];
      if s.result.Some? { MoreReported(ok, s.received, s.result.value, w); }
      if a.Receive? && s.result.None? && Succeeded(ok, w) {
        var now := s.received + [w];
        assert now[|s.received|] == w && forall j | 0 <= j < |s.received| :: now[j] == s.received[j] && s.received[j] in s.received;
      }
    }
  }

  lemma {:induction false} SentFits(sent: set<nat>)
    requires forall w | w in sent :: w < WORKERS
    ensures |sent| <= WORKERS && (|sent| == WORKERS ==> forall w | 0 <= w < WORKERS :: w in sent)
    ensures |sent| < WORKERS ==> exists w: nat :: w < WORKERS && w !in sent
  {
    var all := {0, 1, 2};
    assert sent <= all;
    var missing := all - sent;
    assert all == sent + missing;
    assert |all| == |sent| + |missing|;
    if missing != {} {
      var w :| w in missing;
      assert w < WORKERS && w !in sent;
    }
  }

  /** Taking the head of the buffer moves one worker into the history. */
  lemma {:induction false} TakeKeepsDelivered(s: State)
    requires Delivered(s) && s.queue != []
    ensures Delivered(Take(s)) && s.queue[0] < WORKERS && s.queue[0] !in s.received
  {
    var w := s.queue[0];
    assert s.queue == [w] + s.queue[1..];
    assert w in multiset(s.queue);
    assert w in s.sent;
  }

  lemma {:induction false} ActionKeepsInv(ok: seq<bool>, s: State, a: Action)
    requires |ok| == WORKERS && Inv(ok, s) && Enabled(s, a)
    ensures Inv(ok, Apply(ok, s, a))
  {
    match a
    case Send(w) => SendKeepsInv(ok, s, w);
    case Receive => TakeKeepsDelivered(s); ReceiveKeepsInv(ok, s);
    case Drain => TakeKeepsDelivered(s); DrainKeepsInv(ok, s);
    case CloseChannel => ChannelKeepsInv(ok, s);
    case CloseConnection(w) => CloseKeepsInv(ok, s, w);
  }

  lemma {:induction false} SendKeepsInv(ok: seq<bool>, s: State, w: nat)
    requires |ok| == WORKERS && Inv(ok, s) && Enabled(s, Send(w))
    ensures Inv(ok, Apply(ok, s, Send(w)))
  {
    var s' := Apply(ok, s, Send(w));
    assert Delivered(s') by { assert s'.queue == s.queue + [w]; }
    hide Delivered;
    assert forall v :: Closes(s', v) == Closes(s, v);
  }

  lemma {:induction false} ChannelKeepsInv(ok: seq<bool>, s: State)
    requires |ok| == WORKERS && Inv(ok, s) && Enabled(s, CloseChannel)
    ensures Inv(ok, Apply(ok, s, CloseChannel))
  {
    assert forall v :: Closes(s.(phase := Finished), v) == Closes(s, v);
  }

  lemma {:induction false} CloseKeepsInv(ok: seq<bool>, s: State, w: nat)
    requires |ok| == WORKERS && Inv(ok, s) && Enabled(s, CloseConnection(w))
    ensures Inv(ok, Apply(ok, s, CloseConnection(w)))
  {
    var s' := Apply(ok, s, CloseConnection(w));
    assert forall v :: Closes(s', v) == Closes(s, v);
  }

  lemma {:induction false} SameFlow(s: State, s': State)
    requires Delivered(s) && s'.sent == s.sent && s'.queue == s.queue && s'.received == s.received
    ensures Delivered(s')
  {
  }

  lemma {:induction false} ReceiveKeepsInv(ok: seq<bool>, s: State)
    requires |ok| == WORKERS && Inv(ok, s) && Enabled(s, Receive) && s.queue[0] !in s.received
    requires Delivered(Take(s))
    ensures Inv(ok, Apply(ok, s, Receive))
  {
    var s' := Apply(ok, s, Receive);
    SameFlow(Take(s), s');
    hide Delivered;
    var w := s.queue[0];
    forall v ensures v in s'.received <==> v in s.received || v == w { }
    forall v ensures Closes(s', v) == if v in s'.received && Succeeded(ok, v) && s'.result != Some(v) then 1 else 0 {
      assert Closes(s', v) == Closes(s, v);
    }
  }

  lemma {:induction false} DrainKeepsInv(ok: seq<bool>, s: State)
    requires |ok| == WORKERS && Inv(ok, s) && Enabled(s, Drain) && s.queue[0] !in s.received
    requires Delivered(Take(s))
    ensures Inv(ok, Apply(ok, s, Drain))
  {
    var s' := Apply(ok, s, Drain);
    var w := s.queue[0];
    SentFits(s.sent);
    SameFlow(Take(s), s');
    assert |s'.received| <= WORKERS;
    hide Delivered;
    forall v ensures v in s'.received <==> v in s.received || v == w { }
    forall v ensures Closes(s', v) == if v in s'.received && Succeeded(ok, v) && s'.result != Some(v) then 1 else 0 {
      assert Closes(s, v) == if v in s.received && Succeeded(ok, v) && s.result != Some(v) then 1 else 0;
    }
  }

  // ---- whole runs ----

  ghost predicate ValidRun(ok: seq<bool>, s: State, actions: seq<Action>)
    requires |ok| == WORKERS
    decreases actions
  {
    actions == [] || (Enabled(s, actions[0]) && ValidRun(ok, Apply(ok, s, actions[0]), actions[1..]))
  }

  ghost function Final(ok: seq<bool>, s: State, actions: seq<Action>): State
    requires |ok| == WORKERS && ValidRun(ok, s, actions)
    decreases actions
  {
    if actions == [] then s else Final(ok, Apply(ok, s, actions[0]), actions[1..])
  }

  /** Steps still to come: sends, receipts, the channel's close and connection closes. */
  ghost function Remaining(s: State): int {
    3 * (WORKERS - |s.sent|) + 2 * |s.queue| + |s.closing| + (if s.phase.Finished? then 0 else 1)
  }

  lemma {:induction false} ActionsRunOut(ok: seq<bool>, s: State, a: Action)
    requires |ok| == WORKERS && Inv(ok, s) && Enabled(s, a)
    ensures Remaining(Apply(ok, s, a)) < Remaining(s)
  {
    hide Inv;
    match a
    case Send(w) => assert |s.sent + {w}| == |s.sent| + 1;
    case Receive =>
    case Drain =>
    case CloseChannel =>
    case CloseConnection(w) => assert |s.closing - {w}| == |s.closing| - 1;
  }

  lemma {:induction false} RunKeepsInv(ok: seq<bool>, s: State, actions: seq<Action>)
    requires |ok| == WORKERS && Inv(ok, s) && ValidRun(ok, s, actions)
    requires s.result.Some? ==> FirstReported(ok, s.received, s.result.value)
    ensures Inv(ok, Final(ok, s, actions)) && |actions| + Remaining(Final(ok, s, actions)) <= Remaining(s)
    ensures var t := Final(ok, s, actions); t.result.Some? ==> FirstReported(ok, t.received, t.result.value)
    decreases actions
  {
    hide FirstReported;
    if actions != [] {
      ActionKeepsInv(ok, s, actions[0]);
      ActionKeepsFirst(ok, s, actions[0]);
      ActionsRunOut(ok, s, actions[0]);
      RunKeepsInv(ok, Apply(ok, s, actions[0]), actions[1..]);
    }
  }

  /** The channel is closed only after all three sends were received, so no send meets a
      closed channel or a full buffer; the caller's connection is a successful one and is
      never closed; no other is closed twice; the caller gets none only if all failed. */
  ghost predicate Safe(ok: seq<bool>, s: State) {
    (s.phase.Finished? ==> s.sent == {0, 1, 2} && s.queue == []) &&
    (forall w: nat | w < WORKERS && w !in s.sent :: Enabled(s, Send(w)) && !s.phase.Finished?) &&
    (s.result.Some? ==> Succeeded(ok, s.result.value) && Closes(s, s.result.value) == 0) &&
    (forall w :: Closes(s, w) <= 1) &&
    (!s.phase.Collecting? && s.result.None? ==> forall w :: !Succeeded(ok, w))
  }

  lemma {:induction false} AllReceived(s: State)
    requires Delivered(s) && |s.received| == WORKERS
    ensures s.sent == {0, 1, 2} && s.queue == [] && forall w: nat | w < WORKERS :: w in s.received
  {
    SentFits(s.sent);
    assert s.sent == {0, 1, 2};
    forall w: nat | w < WORKERS ensures w in s.received { assert w in s.sent; assert multiset(s.received)[w] == 1; }
  }

  lemma {:induction false} InvIsSafe(ok: seq<bool>, s: State)
    requires |ok| == WORKERS && Inv(ok, s)
    ensures Safe(ok, s)
  {
    SentFits(s.sent);
    if |s.received| == WORKERS { AllReceived(s); }
    forall w: nat | w < WORKERS && w !in s.sent ensures |s.queue| < WORKERS { assert |s.sent| < WORKERS; }
    hide Delivered;
  }

  lemma {:induction false} EveryInterleavingIsSafe(ok: seq<bool>, actions: seq<Action>)
    requires |ok| == WORKERS && ValidRun(ok, INIT, actions)
    ensures Safe(ok, Final(ok, INIT, actions)) && |actions| <= 10
  {
    RunKeepsInv(ok, INIT, actions);
    InvIsSafe(ok, Final(ok, INIT, actions));
    RemainingIsPositive(ok, Final(ok, INIT, actions));
  }

  lemma {:induction false} RemainingIsPositive(ok: seq<bool>, s: State)
    requires Inv(ok, s)
    ensures Remaining(s) >= 0
  {
    SentFits(s.sent);
  }

  /** A state that no action can leave. */
  ghost predicate Stopped(s: State) { forall a: Action :: !Enabled(s, a) }

  /** When everything has come to rest the caller has a connection exactly if some dial
      succeeded, the first one reported, and every other successful connection was closed exactly once. */
  lemma {:induction false} NothingLeaks(ok: seq<bool>, actions: seq<Action>)
    requires |ok| == WORKERS && ValidRun(ok, INIT, actions) && Stopped(Final(ok, INIT, actions))
    ensures var s := Final(ok, INIT, actions);
            s.phase.Finished? && (s.result.Some? <==> exists w :: Succeeded(ok, w)) &&
            (s.result.Some? ==> FirstReported(ok, s.received, s.result.value)) &&
            forall w :: s.closed[w] == if Succeeded(ok, w) && s.result != Some(w) then 1 else 0
  {
    RunKeepsInv(ok, INIT, actions);
    var s := Final(ok, INIT, actions);
    StoppedIsFinished(ok, s);
    AllReceived(s);
    InvIsSafe(ok, s);
    hide Delivered, FirstReported;
    forall w ensures s.closed[w] == if Succeeded(ok, w) && s.result != Some(w) then 1 else 0 {
      assert !Enabled(s, CloseConnection(w));
      assert s.closed[w] == Closes(s, w);
    }
  }

  /** No deadlock: an unfinished state always has a next step. */
  lemma {:induction false} StoppedIsFinished(ok: seq<bool>, s: State)
    requires |ok| == WORKERS && Inv(ok, s) && Stopped(s)
    ensures s.phase.Finished?
  {
    SentFits(s.sent);
    assert !Enabled(s, Receive) && !Enabled(s, Drain) && !Enabled(s, CloseChannel);
    if !s.phase.Finished? {
      assert s.queue == [];
      assert |s.received| < WORKERS;
      var w: nat :| w < WORKERS && w !in s.sent;
      assert Enabled(s, Send(w));
    }
  }
}

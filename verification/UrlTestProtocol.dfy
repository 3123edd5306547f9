/** The goroutines of a URL-test group: Touch callers that start the check loop, the loop
    that retires when idle, Close, and the guard around a test. One action is one access to
    shared state; any number of goroutines interleave in any order. */
module UrlTestProtocol {
  import opened Wrappers

  /** Touch, from the read of started to the unlock. */
  datatype TouchPC = ReadTicker | Locking | Rechecking | Creating | Spawning | Unlocking | TouchDone

  /** loopCheck. Waiting selects on close and the ticker; Retiring holds the lock and is
      about to stop the ticker; Retired has cleared it and is about to unlock. */
  datatype LoopPC = FirstCheck | Waiting | Ticked | LockingToRetire | Retiring | Retired | LoopDone

  /** Close, which takes no lock. */
  datatype ClosePC = ClosingTicker | CloseDone | CloseCrashed

  /** urlTest: inside the guarded body, or finished. */
  datatype TestPC = InBody | TestDone

  datatype Owner = TouchOwner(id: nat) | LoopOwner(id: nat)

  datatype State = State(
    started: bool,
    ticker: bool,
    closed: bool,
    lock: Option<Owner>,
    checking: bool,
    touches: map<nat, TouchPC>,
    loops: map<nat, LoopPC>,
    closers: map<nat, ClosePC>,
    tests: map<nat, TestPC>)

  datatype Action =
    | PostStart
    | BeginTouch(id: nat)
    | StepTouch(id: nat, loop: nat)
    | StepLoop(id: nat, idle: bool, sawClose: bool)
    | BeginClose(id: nat)
    | StepClose(id: nat)
    | BeginTest(id: nat)
    | EndTest(id: nat)

  const INIT := State(false, false, false, None, false, map[], map[], map[], map[])

  predicate Enabled(s: State, a: Action) {
    match a
    case PostStart => true
    case BeginTouch(id) => id !in s.touches
    case StepTouch(id, loop) =>
      id in s.touches &&
      (match s.touches[id]
       case Locking => s.lock.None?
       case Spawning => loop !in s.loops
       case TouchDone => false
       case _ => true)
    case StepLoop(id, idle, sawClose) =>
      id in s.loops &&
      (match s.loops[id]
       case Waiting => sawClose ==> s.closed
       case LockingToRetire => s.lock.None?
       case LoopDone => false
       case _ => true)
    case BeginClose(id) => id !in s.closers
    case StepClose(id) => id in s.closers && s.closers[id].ClosingTicker?
    case BeginTest(id) => id !in s.tests
    case EndTest(id) => id in s.tests && s.tests[id].InBody?
  }

  function SetTouch(s: State, id: nat, pc: TouchPC): State { s.(touches := s.touches[id := pc]) }

  function NextTouch(pc: TouchPC, ticker: bool): TouchPC {
    match pc
    case ReadTicker => if ticker then TouchDone else Locking
    case Locking => Rechecking
    case Rechecking => if ticker then Unlocking else Creating
    case Creating => Spawning
    case Spawning => Unlocking
    case Unlocking => TouchDone
    case TouchDone => TouchDone
  }

  /** One access of Touch: Locking takes the lock, Creating sets the ticker, Spawning starts
      the loop and Unlocking gives the lock up. */
  function TouchStep(s: State, id: nat, loop: nat): State
    requires id in s.touches
  {
    var pc := s.touches[id];
    s.(touches := s.touches[id := NextTouch(pc, s.ticker)],
       lock := if pc.Locking? then Some(TouchOwner(id)) else if pc.Unlocking? then None else s.lock,
       ticker := s.ticker || pc.Creating?,
       loops := if pc.Spawning? then s.loops[loop := FirstCheck] else s.loops)
  }

  function NextLoop(pc: LoopPC, idle: bool, sawClose: bool): LoopPC {
    match pc
    case FirstCheck => Waiting
    case Waiting => if sawClose then LoopDone else Ticked
    case Ticked => if idle then LockingToRetire else Waiting
    case LockingToRetire => Retiring
    case Retiring => Retired
    case Retired => LoopDone
    case LoopDone => LoopDone
  }

  /** One access of loopCheck: Retiring clears the ticker under the lock. */
  function LoopStep(s: State, id: nat, idle: bool, sawClose: bool): State
    requires id in s.loops
  {
    var pc := s.loops[id];
    s.(loops := s.loops[id := NextLoop(pc, idle, sawClose)],
       lock := if pc.LockingToRetire? then Some(LoopOwner(id)) else if pc.Retired? then None else s.lock,
       ticker := s.ticker && !pc.Retiring?)
  }

  function Apply(s: State, a: Action): State
    requires Enabled(s, a)
  {
    match a
    case PostStart => s.(started := true)
    case BeginTouch(id) => SetTouch(s, id, if s.started then ReadTicker else TouchDone)
    case StepTouch(id, loop) => TouchStep(s, id, loop)
    case StepLoop(id, idle, sawClose) => LoopStep(s, id, idle, sawClose)
    case BeginClose(id) => s.(closers := s.closers[id := if s.ticker then ClosingTicker else CloseDone])
    case StepClose(id) =>
      if s.ticker && !s.closed then s.(closed := true, closers := s.closers[id := CloseDone])
      else s.(closers := s.closers[id := CloseCrashed])
    case BeginTest(id) =>
      if s.checking then s.(tests := s.tests[id := TestDone])
      else s.(checking := true, tests := s.tests[id := InBody])
    case EndTest(id) => s.(checking := false, tests := s.tests[id := TestDone])
  }

  // ---- safety ----

  function TouchAt(s: State, id: nat): TouchPC { if id in s.touches then s.touches[id] else TouchDone }

  function LoopAt(s: State, id: nat): LoopPC { if id in s.loops then s.loops[id] else LoopDone }

  function TestAt(s: State, id: nat): TestPC { if id in s.tests then s.tests[id] else TestDone }

  predicate Live(s: State, id: nat) { !LoopAt(s, id).LoopDone? }

  /** A live loop that has not cleared the ticker. */
  predicate Using(s: State, id: nat) { Live(s, id) && !LoopAt(s, id).Retired? }

  predicate Spawner(s: State, id: nat) { TouchAt(s, id).Spawning? }

  /** At most one check loop is live. */
  ghost predicate OneLoop(s: State) { forall i: nat, j: nat | Live(s, i) && Live(s, j) :: i == j }

  /** A loop that is about to use the ticker finds it. */
  ghost predicate TickerPresent(s: State) { forall i: nat | Using(s, i) :: s.ticker }

  predicate Testing(s: State, id: nat) { TestAt(s, id).InBody? }

  /** At most one test body runs, and only under the guard. */
  ghost predicate OneTest(s: State) {
    (forall i: nat | Testing(s, i) :: s.checking) && forall i: nat, j: nat | Testing(s, i) && Testing(s, j) :: i == j
  }

  /** A set ticker of an open group has its loop, live or about to be spawned. */
  ghost predicate TickerServed(s: State) {
    s.ticker && !s.closed ==> (exists i: nat :: Using(s, i)) || (exists i: nat :: Spawner(s, i))
  }

  ghost predicate Safe(s: State) { OneLoop(s) && TickerPresent(s) && OneTest(s) && TickerServed(s) }

  // ---- the invariant ----

  predicate TouchHolds(s: State, id: nat) {
    var pc := TouchAt(s, id); pc.Rechecking? || pc.Creating? || pc.Spawning? || pc.Unlocking?
  }

  predicate LoopHolds(s: State, id: nat) { LoopAt(s, id).Retiring? || LoopAt(s, id).Retired? }

  /** Only the lock owner is inside a critical section. */
  ghost predicate LockDiscipline(s: State) {
    (forall i: nat | TouchHolds(s, i) :: s.lock == Some(TouchOwner(i))) &&
    (forall i: nat | LoopHolds(s, i) :: s.lock == Some(LoopOwner(i)))
  }

  predicate Creator(s: State, id: nat) { TouchAt(s, id).Creating? }

  /** A caller that saw no ticker under the lock is right until it sets one; between
      setting and spawning there is no loop. */
  ghost predicate CreatorFacts(s: State) {
    (forall i: nat | Creator(s, i) :: !s.ticker) &&
    (forall i: nat | Spawner(s, i) :: s.ticker && forall j: nat :: !Live(s, j))
  }

  ghost predicate Inv(s: State) { Safe(s) && LockDiscipline(s) && CreatorFacts(s) }

  // ---- what a step changes ----

  ghost predicate SameTests(s: State, s': State) {
    s'.checking == s.checking && forall i: nat :: Testing(s', i) == Testing(s, i)
  }

  predicate SameCaller(s: State, s': State, i: nat) {
    TouchHolds(s', i) == TouchHolds(s, i) && Creator(s', i) == Creator(s, i) && Spawner(s', i) == Spawner(s, i)
  }

  predicate SameLoop(s: State, s': State, i: nat) {
    Live(s', i) == Live(s, i) && Using(s', i) == Using(s, i) && LoopHolds(s', i) == LoopHolds(s, i)
  }

  ghost predicate SameLoops(s: State, s': State) { forall i: nat :: SameLoop(s, s', i) }

  /** The lock is kept, taken while free, or given up by its owner. */
  predicate LockMoves(before: Option<Owner>, after: Option<Owner>, owner: Owner, held: bool, holds: bool) {
    (after == before && held == holds) || (before.None? && after == Some(owner) && holds) || (held && !holds && after.None?)
  }

  /** A caller's step other than setting the ticker and spawning the loop. */
  ghost predicate QuietTouch(s: State, s': State, id: nat) {
    s'.ticker == s.ticker && s'.closed == s.closed && SameLoops(s, s') && SameTests(s, s') &&
    (forall i: nat | i != id :: SameCaller(s, s', i)) &&
    !Spawner(s, id) && !Spawner(s', id) && (Creator(s', id) ==> !s.ticker) &&
    LockMoves(s.lock, s'.lock, TouchOwner(id), TouchHolds(s, id), TouchHolds(s', id))
  }

  /** A step of the loop: it lets go of the ticker under the lock, or when closed. */
  ghost predicate LoopMoves(s: State, s': State, id: nat) {
    s'.closed == s.closed && SameTests(s, s') && (forall i: nat :: SameCaller(s, s', i)) &&
    (forall i: nat | i != id :: SameLoop(s, s', i)) &&
    Live(s, id) && (Using(s', id) ==> Using(s, id) && s'.ticker == s.ticker) &&
    (s'.ticker != s.ticker ==> !s'.ticker) &&
    (Using(s, id) && !Using(s', id) ==> s.closed || !s'.ticker) &&
    LockMoves(s.lock, s'.lock, LoopOwner(id), LoopHolds(s, id), LoopHolds(s', id))
  }

  // ---- steps of callers ----

  lemma {:induction false} TouchKeepsInv(s: State, id: nat, loop: nat)
    requires Inv(s) && Enabled(s, StepTouch(id, loop))
    ensures Inv(TouchStep(s, id, loop))
  {
    if s.touches[id].Creating? {
      CreatingKeepsInv(s, id, loop);
    } else if s.touches[id].Spawning? {
      SpawningKeepsInv(s, id, loop);
    } else {
      QuietTouchStep(s, id, loop);
      QuietTouchKeepsInv(s, TouchStep(s, id, loop), id);
    }
  }

  lemma {:induction false} QuietTouchStep(s: State, id: nat, loop: nat)
    requires Enabled(s, StepTouch(id, loop)) && !s.touches[id].Creating? && !s.touches[id].Spawning?
    ensures QuietTouch(s, TouchStep(s, id, loop), id)
  {
    var s' := TouchStep(s, id, loop);
    assert TouchAt(s, id) == s.touches[id];
    SetTouchKeeps(s, s', id, NextTouch(s.touches[id], s.ticker));
    hide SameLoops, SameTests, SameCaller, LoopAt, TouchAt;
  }

  lemma {:induction false} SetTouchKeeps(s: State, s': State, id: nat, pc: TouchPC)
    requires s'.touches == s.touches[id := pc] && s'.loops == s.loops && s'.tests == s.tests && s'.checking == s.checking
    ensures SameLoops(s, s') && SameTests(s, s') && TouchAt(s', id) == pc
    ensures forall i: nat | i != id :: SameCaller(s, s', i)
  {
    forall i: nat | i != id ensures SameCaller(s, s', i) { assert TouchAt(s', i) == TouchAt(s, i); }
  }

  lemma {:induction false} QuietTouchKeepsInv(s: State, s': State, id: nat)
    requires Inv(s) && QuietTouch(s, s', id)
    ensures Inv(s')
  {
    hide TouchHolds, LoopHolds, Creator, Spawner, Live, Using, Testing;
    forall i: nat ensures Live(s', i) == Live(s, i) && Using(s', i) == Using(s, i) && LoopHolds(s', i) == LoopHolds(s, i) {
      assert SameLoop(s, s', i);
    }
    assert TickerServed(s') by {
      if s.ticker && !s.closed {
        if i: nat :| Using(s, i) {
          assert Using(s', i);
        } else {
          var i: nat :| Spawner(s, i);
          assert SameCaller(s, s', i);
        }
      }
    }
    forall i: nat | TouchHolds(s', i) ensures s'.lock == Some(TouchOwner(i)) { assert i == id || SameCaller(s, s', i); }
    forall i: nat | Creator(s', i) ensures !s'.ticker { assert i == id || SameCaller(s, s', i); }
    forall i: nat | Spawner(s', i) ensures s'.ticker && forall j: nat :: !Live(s', j) { assert SameCaller(s, s', i); }
  }

  /** Under the lock and without a ticker there is no loop. */
  lemma {:induction false} CreatorSeesNoLoop(s: State, id: nat, j: nat)
    requires TickerPresent(s) && LockDiscipline(s) && CreatorFacts(s) && Creator(s, id)
    ensures !Live(s, j)
  {
    assert TouchHolds(s, id);
    assert !Using(s, j) && !LoopHolds(s, j);
  }

  lemma {:induction false} CreatingKeepsInv(s: State, id: nat, loop: nat)
    requires Inv(s) && id in s.touches && s.touches[id].Creating?
    ensures Inv(TouchStep(s, id, loop))
  {
    var s' := TouchStep(s, id, loop);
    forall j: nat ensures !Live(s', j) && !LoopHolds(s', j) && !Using(s', j) {
      CreatorSeesNoLoop(s, id, j);
      assert LoopAt(s', j) == LoopAt(s, j);
    }
    assert TouchHolds(s, id) && Spawner(s', id);
    forall i: nat | TouchHolds(s', i) ensures i == id { assert i == id || TouchHolds(s, i); }
    forall i: nat | Creator(s', i) || Spawner(s', i) ensures i == id { assert TouchHolds(s', i); }
    assert forall i: nat :: Testing(s', i) == Testing(s, i);
  }

  lemma {:induction false} SpawningKeepsInv(s: State, id: nat, loop: nat)
    requires Inv(s) && id in s.touches && s.touches[id].Spawning? && loop !in s.loops
    ensures Inv(TouchStep(s, id, loop))
  {
    var s' := TouchStep(s, id, loop);
    assert Spawner(s, id) && TouchHolds(s, id);
    forall j: nat ensures (Live(s', j) ==> j == loop) && !LoopHolds(s', j) { assert !Live(s, j); }
    assert Using(s', loop);
    forall i: nat | TouchHolds(s', i) ensures i == id { assert i == id || TouchHolds(s, i); }
    forall i: nat ensures !Creator(s', i) && !Spawner(s', i) { assert !TouchHolds(s', i) || i == id; }
    assert forall i: nat :: Testing(s', i) == Testing(s, i);
  }

  // ---- steps of the loop ----

  lemma {:induction false} LoopStepMoves(s: State, id: nat, idle: bool, sawClose: bool)
    requires Enabled(s, StepLoop(id, idle, sawClose))
    ensures LoopMoves(s, LoopStep(s, id, idle, sawClose), id)
  {
    var s' := LoopStep(s, id, idle, sawClose);
    assert LoopAt(s, id) == s.loops[id];
    SetLoopKeeps(s, s', id, NextLoop(s.loops[id], idle, sawClose));
    hide SameTests, SameCaller, SameLoop, LoopAt, TouchAt;
  }

  lemma {:induction false} SetLoopKeeps(s: State, s': State, id: nat, pc: LoopPC)
    requires s'.loops == s.loops[id := pc] && s'.touches == s.touches && s'.tests == s.tests && s'.checking == s.checking
    ensures SameTests(s, s') && LoopAt(s', id) == pc
    ensures forall i: nat :: SameCaller(s, s', i)
    ensures forall i: nat | i != id :: SameLoop(s, s', i)
  {
    forall i: nat ensures SameCaller(s, s', i) { assert TouchAt(s', i) == TouchAt(s, i); }
    forall i: nat | i != id ensures SameLoop(s, s', i) { assert LoopAt(s', i) == LoopAt(s, i); }
  }

  lemma {:induction false} LoopKeepsInv(s: State, s': State, id: nat)
    requires Inv(s) && LoopMoves(s, s', id)
    ensures Inv(s')
  {
    LoopKeepsSafe(s, s', id);
    hide TouchHolds, LoopHolds, Creator, Spawner, Live, Using, Testing, Safe;
    forall i: nat | TouchHolds(s', i) ensures s'.lock == Some(TouchOwner(i)) { assert SameCaller(s, s', i); }
    forall i: nat | LoopHolds(s', i) ensures s'.lock == Some(LoopOwner(i)) { assert i == id || SameLoop(s, s', i); }
    forall i: nat | Creator(s', i) ensures !s'.ticker { assert SameCaller(s, s', i); }
    forall i: nat ensures !Spawner(s', i) { assert SameCaller(s, s', i) && Live(s, id); }
  }

  lemma {:induction false} LoopKeepsSafe(s: State, s': State, id: nat)
    requires Safe(s) && CreatorFacts(s) && LoopMoves(s, s', id)
    ensures Safe(s')
  {
    hide TouchHolds, LoopHolds, Creator, Spawner, Testing;
    forall j: nat | Live(s', j) ensures j == id { assert j == id || SameLoop(s, s', j); }
    if s.ticker && !s.closed {
      assert Using(s, id) by {
        assert forall i: nat :: !Spawner(s, i);
        var i: nat :| Using(s, i);
        assert Live(s, i);
      }
    }
  }

  /** Every action keeps the invariant. */
  lemma {:induction false} ActionKeepsInv(s: State, a: Action)
    requires Inv(s) && Enabled(s, a)
    ensures Inv(Apply(s, a))
  {
    var s' := Apply(s, a);
    match a
    case PostStart => SameThreads(s, s');
    case BeginTouch(id) => FreshTouch(s, id);
    case StepTouch(id, loop) => TouchKeepsInv(s, id, loop);
    case StepLoop(id, idle, sawClose) => LoopStepMoves(s, id, idle, sawClose); LoopKeepsInv(s, s', id);
    case BeginClose(_) => SameThreads(s, s');
    case StepClose(_) => SameThreads(s, s');
    case BeginTest(id) => GuardKeepsOneTest(s, a); SameThreads(s, s');
    case EndTest(id) => GuardKeepsOneTest(s, a); SameThreads(s, s');
  }

  /** The swap on the checking flag lets one test in at a time. */
  lemma {:induction false} GuardKeepsOneTest(s: State, a: Action)
    requires OneTest(s) && Enabled(s, a) && (a.BeginTest? || a.EndTest?)
    ensures OneTest(Apply(s, a))
  {
    var s' := Apply(s, a);
    assert forall i: nat :: i != a.id ==> TestAt(s', i) == TestAt(s, i);
    if a.EndTest? { assert Testing(s, a.id); }
    forall i: nat | Testing(s', i) ensures s'.checking && (i != a.id ==> Testing(s, i)) {
      if i != a.id { assert Testing(s, i); }
    }
  }

  lemma {:induction false} SameThreads(s: State, s': State)
    requires Inv(s) && ((s'.tests == s.tests && s'.checking == s.checking) || OneTest(s'))
    requires s'.touches == s.touches && s'.loops == s.loops && s'.lock == s.lock && s'.ticker == s.ticker
    requires s.closed ==> s'.closed
    ensures Inv(s')
  {
    assert forall i: nat :: TouchAt(s', i) == TouchAt(s, i) && LoopAt(s', i) == LoopAt(s, i);
    assert forall i: nat :: Live(s', i) == Live(s, i) && Using(s', i) == Using(s, i) && Spawner(s', i) == Spawner(s, i);
    assert forall i: nat :: Creator(s', i) == Creator(s, i) && TouchHolds(s', i) == TouchHolds(s, i) && LoopHolds(s', i) == LoopHolds(s, i);
    if s'.tests == s.tests { assert forall i: nat :: Testing(s', i) == Testing(s, i); }
  }

  lemma {:induction false} FreshTouch(s: State, id: nat)
    requires Inv(s) && id !in s.touches
    ensures Inv(SetTouch(s, id, if s.started then ReadTicker else TouchDone))
  {
    var s' := SetTouch(s, id, if s.started then ReadTicker else TouchDone);
    SetTouchKeeps(s, s', id, s'.touches[id]);
    QuietTouchKeepsInv(s, s', id);
  }

  // ---- whole runs ----

  ghost predicate ValidRun(s: State, actions: seq<Action>)
    decreases actions
  {
    actions == [] || (Enabled(s, actions[0]) && ValidRun(Apply(s, actions[0]), actions[1..]))
  }

  ghost function Final(s: State, actions: seq<Action>): State
    requires ValidRun(s, actions)
    decreases actions
  {
    if actions == [] then s else Final(Apply(s, actions[0]), actions[1..])
  }

  lemma {:induction false} RunKeepsInv(s: State, actions: seq<Action>)
    requires Inv(s) && ValidRun(s, actions)
    ensures Inv(Final(s, actions))
    decreases actions
  {
    if actions != [] {
      ActionKeepsInv(s, actions[0]);
      RunKeepsInv(Apply(s, actions[0]), actions[1..]);
    }
  }

  // ---- the lock, the guard and the start ----

  /** A held lock is held by someone inside the critical section. */
  ghost predicate LockHeld(s: State) {
    match s.lock
    case None => true
    case Some(TouchOwner(i)) => TouchHolds(s, i)
    case Some(LoopOwner(i)) => LoopHolds(s, i)
  }

  /** The flag is up exactly while a test runs. */
  ghost predicate FlagExact(s: State) { s.checking <==> exists i: nat :: Testing(s, i) }

  /** Before the start callers pass through without effect. */
  ghost predicate QuietBeforeStart(s: State) {
    !s.started ==> !s.ticker && !s.closed && s.lock.None? && s.loops == map[] && forall i: nat :: TouchAt(s, i).TouchDone?
  }

  ghost predicate Exact(s: State) { LockHeld(s) && FlagExact(s) && QuietBeforeStart(s) }

  lemma {:induction false} ActionKeepsLock(s: State, a: Action)
    requires LockHeld(s) && Enabled(s, a)
    ensures LockHeld(Apply(s, a))
  {
    var s' := Apply(s, a);
    match s'.lock
    case None =>
    case Some(TouchOwner(i)) => assert TouchAt(s', i) == TouchAt(s, i) || (a.StepTouch? && a.id == i);
    case Some(LoopOwner(i)) => assert LoopAt(s', i) == LoopAt(s, i) || (a.StepLoop? && a.id == i) || a.StepTouch?;
  }

  lemma {:induction false} ActionKeepsFlag(s: State, a: Action)
    requires FlagExact(s) && OneTest(s) && Enabled(s, a)
    ensures FlagExact(Apply(s, a))
  {
    var s' := Apply(s, a);
    match a
    case BeginTest(id) =>
      if s.checking {
        var i: nat :| Testing(s, i);
        assert Testing(s', i);
      } else {
        assert Testing(s', id);
      }
    case EndTest(id) =>
      assert Testing(s, id);
      forall i: nat ensures !Testing(s', i) { assert i != id ==> Testing(s', i) == Testing(s, i); }
    case _ => assert forall i: nat :: Testing(s', i) == Testing(s, i);
  }

  lemma {:induction false} ActionKeepsQuiet(s: State, a: Action)
    requires QuietBeforeStart(s) && Enabled(s, a)
    ensures QuietBeforeStart(Apply(s, a))
  {
    NobodyTouches(s);
    var s' := Apply(s, a);
    if a.BeginTouch? {
      assert forall i: nat :: i != a.id ==> TouchAt(s', i) == TouchAt(s, i);
    } else if !a.StepTouch? {
      assert forall i: nat :: TouchAt(s', i) == TouchAt(s, i);
    }
  }

  lemma {:induction false} NobodyTouches(s: State)
    requires QuietBeforeStart(s)
    ensures !s.started ==> forall i <- s.touches :: s.touches[i].TouchDone?
  {
    if !s.started {
      forall i | i in s.touches ensures s.touches[i].TouchDone? { assert TouchAt(s, i).TouchDone?; }
    }
  }

  lemma {:induction false} ActionKeepsExact(s: State, a: Action)
    requires Inv(s) && Exact(s) && Enabled(s, a)
    ensures Exact(Apply(s, a))
  {
    ActionKeepsLock(s, a);
    ActionKeepsFlag(s, a);
    ActionKeepsQuiet(s, a);
  }

  lemma {:induction false} RunKeepsExact(s: State, actions: seq<Action>)
    requires Inv(s) && Exact(s) && ValidRun(s, actions)
    ensures Exact(Final(s, actions))
    decreases actions
  {
    hide Inv, Exact, Enabled, Apply;
    if actions != [] {
      ActionKeepsInv(s, actions[0]);
      ActionKeepsExact(s, actions[0]);
      RunKeepsExact(Apply(s, actions[0]), actions[1..]);
    }
  }

  /** In every state of every interleaving the lock and the flag are up exactly while someone
      needs them, so neither is left behind, and nothing happens before the start. */
  lemma {:induction false} NothingIsLeftBehind(actions: seq<Action>)
    requires ValidRun(INIT, actions)
    ensures Exact(Final(INIT, actions)) && LockDiscipline(Final(INIT, actions))
  {
    RunKeepsInv(INIT, actions);
    RunKeepsExact(INIT, actions);
  }

  /** In every state of every interleaving there is at most one live loop, it never finds
      the ticker gone, at most one test runs, and a set ticker is served. */
  lemma {:induction false} EveryInterleavingIsSafe(actions: seq<Action>)
    requires ValidRun(INIT, actions)
    ensures Safe(Final(INIT, actions))
  {
    RunKeepsInv(INIT, actions);
  }

  /** Close takes no lock: the loop can retire between its test of the ticker and its use,
      and Close then finds no ticker. */
  lemma {:induction false} CloseCanFindNoTicker()
    ensures exists actions :: ValidRun(INIT, actions) && 0 in Final(INIT, actions).closers && Final(INIT, actions).closers[0].CloseCrashed?
  {
    var loops := map[0 := FirstCheck];
    var s1 := State(true, true, false, None, false, map[0 := TouchDone], loops, map[], map[]);
    var retire := IdleTrace(s1);
    var actions := TouchTrace(s1, retire);
  }

  /** A group that is started and touched once. */
  lemma {:induction false} TouchTrace(last: State, rest: seq<Action>) returns (actions: seq<Action>)
    requires last == State(true, true, false, None, false, map[0 := TouchDone], map[0 := FirstCheck], map[], map[])
    requires ValidRun(last, rest)
    ensures ValidRun(INIT, actions) && Final(INIT, actions) == Final(last, rest)
  {
    hide ValidRun, Final;
    var s1 := INIT.(started := true);
    var s2 := s1.(touches := map[0 := ReadTicker]);
    var s3 := s1.(touches := map[0 := Locking]);
    var s4 := s1.(touches := map[0 := Rechecking], lock := Some(TouchOwner(0)));
    actions := CreateTrace(s4, last, rest);
    actions := Then(s3, s4, StepTouch(0, 0), actions);
    actions := Then(s2, s3, StepTouch(0, 0), actions);
    actions := Then(s1, s2, BeginTouch(0), actions);
    actions := Then(INIT, s1, PostStart, actions);
  }

  /** The caller holding the lock sets the ticker and spawns the loop. */
  lemma {:induction false} CreateTrace(s4: State, last: State, rest: seq<Action>) returns (actions: seq<Action>)
    requires s4 == State(true, false, false, Some(TouchOwner(0)), false, map[0 := Rechecking], map[], map[], map[])
    requires last == State(true, true, false, None, false, map[0 := TouchDone], map[0 := FirstCheck], map[], map[])
    requires ValidRun(last, rest)
    ensures ValidRun(s4, actions) && Final(s4, actions) == Final(last, rest)
  {
    hide ValidRun, Final;
    var s5 := s4.(touches := map[0 := Creating]);
    var s6 := s5.(touches := map[0 := Spawning], ticker := true);
    var s7 := s6.(touches := map[0 := Unlocking], loops := map[0 := FirstCheck]);
    actions := Then(s7, last, StepTouch(0, 0), rest);
    actions := Then(s6, s7, StepTouch(0, 0), actions);
    actions := Then(s5, s6, StepTouch(0, 0), actions);
    actions := Then(s4, s5, StepTouch(0, 0), actions);
  }

  /** The loop ticks idle, and Close tests the ticker before the loop takes the lock. */
  lemma {:induction false} IdleTrace(s1: State) returns (actions: seq<Action>)
    requires s1 == State(true, true, false, None, false, map[0 := TouchDone], map[0 := FirstCheck], map[], map[])
    ensures ValidRun(s1, actions) && Final(s1, actions).closers == map[0 := CloseCrashed]
  {
    var step := StepLoop(0, true, false);
    var s2 := s1.(loops := map[0 := Waiting]);
    var s3 := s1.(loops := map[0 := Ticked]);
    var s4 := s1.(loops := map[0 := LockingToRetire]);
    var s5 := s4.(closers := map[0 := ClosingTicker]);
    hide ValidRun, Final;
    actions := RetireTrace(s5);
    actions := Then(s4, s5, BeginClose(0), actions);
    actions := Then(s3, s4, step, actions);
    actions := Then(s2, s3, step, actions);
    actions := Then(s1, s2, step, actions);
  }

  /** The loop retires before Close uses the ticker. */
  lemma {:induction false} RetireTrace(s5: State) returns (actions: seq<Action>)
    requires s5 == State(true, true, false, None, false, map[0 := TouchDone], map[0 := LockingToRetire], map[0 := ClosingTicker], map[])
    ensures ValidRun(s5, actions) && Final(s5, actions).closers == map[0 := CloseCrashed]
  {
    var step := StepLoop(0, true, false);
    var s6 := s5.(loops := map[0 := Retiring], lock := Some(LoopOwner(0)));
    var s7 := s6.(loops := map[0 := Retired], ticker := false);
    var s8 := s7.(closers := map[0 := CloseCrashed]);
    assert ValidRun(s8, []) && Final(s8, []) == s8;
    hide ValidRun, Final;
    actions := Then(s7, s8, StepClose(0), []);
    actions := Then(s6, s7, step, actions);
    actions := Then(s5, s6, step, actions);
  }

  /** Prefixing one action to a run. */
  lemma {:induction false} Then(s: State, s': State, a: Action, rest: seq<Action>) returns (actions: seq<Action>)
    requires Enabled(s, a) && Apply(s, a) == s' && ValidRun(s', rest)
    ensures ValidRun(s, actions) && Final(s, actions) == Final(s', rest)
  {
    actions := [a] + rest;
    assert actions[1..] == rest;
  }

  // ---- when Close crashes ----

  lemma {:induction false} RunSplits(s: State, actions: seq<Action>, k: nat)
    requires ValidRun(s, actions) && k <= |actions|
    ensures ValidRun(s, actions[..k]) && ValidRun(Final(s, actions[..k]), actions[k..])
    ensures Final(Final(s, actions[..k]), actions[k..]) == Final(s, actions)
    decreases k
  {
    hide Enabled, Apply;
    if k == 0 {
      assert actions[..0] == [] && actions[0..] == actions;
    } else {
      RunSplits(Apply(s, actions[0]), actions[1..], k - 1);
      assert actions[..k][1..] == actions[1..][..k - 1] && actions[1..][k - 1..] == actions[k..];
    }
  }

  /** The state before action k of a run. */
  ghost function At(actions: seq<Action>, k: nat): State
    requires ValidRun(INIT, actions) && k <= |actions|
  {
    RunSplits(INIT, actions, k);
    Final(INIT, actions[..k])
  }

  lemma {:induction false} AtSteps(actions: seq<Action>, k: nat)
    requires ValidRun(INIT, actions) && k < |actions|
    ensures Enabled(At(actions, k), actions[k]) && At(actions, k + 1) == Apply(At(actions, k), actions[k])
  {
    hide Enabled, Apply;
    RunSplits(INIT, actions, k);
    RunSplits(INIT, actions, k + 1);
    RunSplits(INIT, actions[..k + 1], k);
    assert actions[..k + 1][..k] == actions[..k] && actions[..k + 1][k..] == [actions[k]];
    assert actions[k..][0] == actions[k] && [actions[k]][1..] == [];
  }

  lemma {:induction false} AtEnds(actions: seq<Action>)
    requires ValidRun(INIT, actions)
    ensures At(actions, 0) == INIT && At(actions, |actions|) == Final(INIT, actions)
  {
    assert actions[..0] == [] && actions[..|actions|] == actions;
  }

  /** The three actions that Close depends on: a loop clearing the ticker, a caller setting
      it, and a closer closing the channel. */
  predicate ClearsTicker(s: State, a: Action) { a.StepLoop? && LoopAt(s, a.id).Retiring? }

  predicate SetsTicker(s: State, a: Action) { a.StepTouch? && TouchAt(s, a.id).Creating? }

  predicate ClosesChannel(s: State, a: Action) { a.StepClose? && s.ticker && !s.closed }

  function CloserAt(s: State, id: nat): Option<ClosePC> { if id in s.closers then Some(s.closers[id]) else None }

  lemma {:induction false} TickerStep(s: State, a: Action)
    requires Enabled(s, a)
    ensures Apply(s, a).ticker == ((s.ticker || SetsTicker(s, a)) && !ClearsTicker(s, a))
    ensures Apply(s, a).closed == (s.closed || ClosesChannel(s, a))
  {
  }

  lemma {:induction false} CloserStep(s: State, a: Action, id: nat)
    requires Enabled(s, a)
    ensures CloserAt(Apply(s, a), id) ==
            if a == BeginClose(id) then Some(if s.ticker then ClosingTicker else CloseDone)
            else if a == StepClose(id) then Some(if s.ticker && !s.closed then CloseDone else CloseCrashed)
            else CloserAt(s, id)
  {
  }

  ghost predicate ClearedAt(actions: seq<Action>, k: nat)
    requires ValidRun(INIT, actions)
  {
    k < |actions| && ClearsTicker(At(actions, k), actions[k])
  }

  ghost predicate SetAt(actions: seq<Action>, k: nat)
    requires ValidRun(INIT, actions)
  {
    k < |actions| && SetsTicker(At(actions, k), actions[k])
  }

  ghost predicate ClosedAt(actions: seq<Action>, k: nat)
    requires ValidRun(INIT, actions)
  {
    k < |actions| && ClosesChannel(At(actions, k), actions[k])
  }

  /** The ticker was cleared after b and not set again before m. */
  ghost predicate ClearedBetween(actions: seq<Action>, b: nat, m: nat)
    requires ValidRun(INIT, actions)
  {
    exists r: nat :: b <= r < m && ClearedAt(actions, r) && forall t: nat | r < t < m :: !SetAt(actions, t)
  }

  ghost predicate ClosedBefore(actions: seq<Action>, m: nat)
    requires ValidRun(INIT, actions)
  {
    exists c: nat :: c < m && ClosedAt(actions, c)
  }

  /** The ticker is gone at m exactly when it was cleared after b and not set again. */
  lemma {:induction false} TickerGone(actions: seq<Action>, b: nat, m: nat)
    requires ValidRun(INIT, actions) && b <= m <= |actions| && At(actions, b).ticker
    ensures !At(actions, m).ticker <==> ClearedBetween(actions, b, m)
    decreases m
  {
    if b < m {
      var k := m - 1;
      TickerGone(actions, b, k);
      AtSteps(actions, k);
      TickerStep(At(actions, k), actions[k]);
      hide Enabled, Apply, At, ClearsTicker, SetsTicker;
      if ClearedAt(actions, k) {
        assert ClearedBetween(actions, b, m);
      } else if SetAt(actions, k) {
        assert forall r: nat | b <= r < m && ClearedAt(actions, r) :: r < k < m && SetAt(actions, k);
      } else {
        assert ClearedBetween(actions, b, m) <==> ClearedBetween(actions, b, k);
      }
    }
  }

  lemma {:induction false} ClosedIffBefore(actions: seq<Action>, m: nat)
    requires ValidRun(INIT, actions) && m <= |actions|
    ensures At(actions, m).closed <==> ClosedBefore(actions, m)
    decreases m
  {
    AtEnds(actions);
    if m > 0 {
      ClosedIffBefore(actions, m - 1);
      AtSteps(actions, m - 1);
      TickerStep(At(actions, m - 1), actions[m - 1]);
      hide Enabled, Apply, At, ClosesChannel;
      if ClosedAt(actions, m - 1) { assert ClosedBefore(actions, m); }
    }
  }

  /** A closer between its two steps began with the ticker set. */
  lemma {:induction false} ClosingBegan(actions: seq<Action>, id: nat, m: nat) returns (b: nat)
    requires ValidRun(INIT, actions) && m <= |actions| && CloserAt(At(actions, m), id) == Some(ClosingTicker)
    ensures b < m && actions[b] == BeginClose(id) && At(actions, b).ticker
    decreases m
  {
    AtEnds(actions);
    var k := m - 1;
    AtSteps(actions, k);
    CloserStep(At(actions, k), actions[k], id);
    hide Enabled, Apply, At;
    if actions[k] == BeginClose(id) {
      b := k;
    } else {
      b := ClosingBegan(actions, id, k);
    }
  }

  lemma {:induction false} CrashHappened(actions: seq<Action>, id: nat, n: nat) returns (m: nat)
    requires ValidRun(INIT, actions) && n <= |actions| && CloserAt(At(actions, n), id) == Some(CloseCrashed)
    ensures m < n && actions[m] == StepClose(id) && (!At(actions, m).ticker || At(actions, m).closed)
    decreases n
  {
    AtEnds(actions);
    var k := n - 1;
    AtSteps(actions, k);
    CloserStep(At(actions, k), actions[k], id);
    hide Enabled, Apply, At;
    if actions[k] == StepClose(id) {
      m := k;
    } else {
      m := CrashHappened(actions, id, k);
    }
  }

  lemma {:induction false} CrashStays(actions: seq<Action>, id: nat, m: nat, n: nat)
    requires ValidRun(INIT, actions) && m <= n <= |actions| && CloserAt(At(actions, m), id) == Some(CloseCrashed)
    ensures CloserAt(At(actions, n), id) == Some(CloseCrashed)
    decreases n
  {
    if m < n {
      CrashStays(actions, id, m, n - 1);
      AtSteps(actions, n - 1);
      CloserStep(At(actions, n - 1), actions[n - 1], id);
    }
  }

  /** Closer id used the ticker at m, after b, and by then the channel was closed or the
      ticker cleared and not set again. */
  ghost predicate TooLate(actions: seq<Action>, id: nat, b: nat, m: nat)
    requires ValidRun(INIT, actions)
  {
    b < m < |actions| && actions[b] == BeginClose(id) && actions[m] == StepClose(id) &&
    (ClosedBefore(actions, m) || ClearedBetween(actions, b, m))
  }

  /** In every run a Close crashes exactly when, by the time it uses the ticker, another Close
      has closed the group, or since its test the loop has retired and no caller has set the
      ticker again. */
  lemma {:induction false} CloseCrashesIff(actions: seq<Action>, id: nat)
    requires ValidRun(INIT, actions)
    ensures CloserAt(Final(INIT, actions), id) == Some(CloseCrashed) <==> exists b: nat, m: nat :: TooLate(actions, id, b, m)
  {
    AtEnds(actions);
    if CloserAt(Final(INIT, actions), id) == Some(CloseCrashed) {
      var m := CrashHappened(actions, id, |actions|);
      AtSteps(actions, m);
      var b := ClosingBegan(actions, id, m);
      TickerGone(actions, b, m);
      ClosedIffBefore(actions, m);
      assert TooLate(actions, id, b, m);
    }
    if b: nat, m: nat :| TooLate(actions, id, b, m) {
      AtSteps(actions, m);
      var b' := ClosingBegan(actions, id, m);
      BeginsOnce(actions, id, b, b');
      TickerGone(actions, b, m);
      ClosedIffBefore(actions, m);
      CloserStep(At(actions, m), actions[m], id);
      CrashStays(actions, id, m + 1, |actions|);
    }
  }

  lemma {:induction false} CloserStays(actions: seq<Action>, id: nat, m: nat, n: nat)
    requires ValidRun(INIT, actions) && m <= n <= |actions| && CloserAt(At(actions, m), id).Some?
    ensures CloserAt(At(actions, n), id).Some?
    decreases n
  {
    if m < n {
      CloserStays(actions, id, m, n - 1);
      AtSteps(actions, n - 1);
      CloserStep(At(actions, n - 1), actions[n - 1], id);
    }
  }

  lemma {:induction false} BeginsOnce(actions: seq<Action>, id: nat, b: nat, c: nat)
    requires ValidRun(INIT, actions) && b < |actions| && c < |actions| && actions[b] == actions[c] == BeginClose(id)
    ensures b == c
  {
    if b != c {
      var first, second := if b < c then b else c, if b < c then c else b;
      AtSteps(actions, first);
      CloserStep(At(actions, first), actions[first], id);
      CloserStays(actions, id, first + 1, second);
      AtSteps(actions, second);
    }
  }

  // ---- a condition on the actions alone ----

  predicate IdleTick(a: Action) { a.StepLoop? && a.idle }

  /** Without an idle tick no loop gets on the way to retire. */
  lemma {:induction false} NobodyRetires(actions: seq<Action>, k: nat, id: nat)
    requires ValidRun(INIT, actions) && k <= |actions| && forall j | 0 <= j < |actions| :: !IdleTick(actions[j])
    ensures !LoopAt(At(actions, k), id).LockingToRetire? && !LoopHolds(At(actions, k), id)
    decreases k
  {
    AtEnds(actions);
    if k > 0 {
      NobodyRetires(actions, k - 1, id);
      AtSteps(actions, k - 1);
      assert !IdleTick(actions[k - 1]);
      LoopPCStep(At(actions, k - 1), actions[k - 1], id);
    }
  }

  lemma {:induction false} LoopPCStep(s: State, a: Action, id: nat)
    requires Enabled(s, a)
    ensures LoopAt(Apply(s, a), id) ==
            if a.StepLoop? && a.id == id then NextLoop(s.loops[id], a.idle, a.sawClose)
            else if a.StepTouch? && s.touches[a.id].Spawning? && a.loop == id then FirstCheck
            else LoopAt(s, id)
  {
  }

  /** Closing a group once, while it is never idle, never crashes. */
  lemma {:induction false} SingleCloseIsSafe(actions: seq<Action>, id: nat)
    requires ValidRun(INIT, actions) && (forall k | 0 <= k < |actions| :: !IdleTick(actions[k]))
    requires forall k | 0 <= k < |actions| && actions[k].BeginClose? :: actions[k] == BeginClose(id)
    ensures forall j: nat :: CloserAt(Final(INIT, actions), j) != Some(CloseCrashed)
  {
    forall j: nat ensures CloserAt(Final(INIT, actions), j) != Some(CloseCrashed) {
      CloseCrashesIff(actions, j);
      if b: nat, m: nat :| TooLate(actions, j, b, m) {
        if c: nat :| c < m && ClosedAt(actions, c) {
          OneCloserOneStep(actions, id, c, m);
        } else {
          var r: nat :| b <= r < m && ClearedAt(actions, r);
          NobodyRetires(actions, r, actions[r].id);
        }
      }
    }
  }

  /** With a single closer there is a single use of the ticker by Close. */
  lemma {:induction false} OneCloserOneStep(actions: seq<Action>, id: nat, c: nat, m: nat)
    requires ValidRun(INIT, actions) && c <= m < |actions| && actions[c].StepClose? && actions[m].StepClose?
    requires forall k | 0 <= k < |actions| && actions[k].BeginClose? :: actions[k] == BeginClose(id)
    ensures c == m
  {
    AtSteps(actions, c);
    AtSteps(actions, m);
    var b := ClosingBegan(actions, actions[c].id, c);
    var b' := ClosingBegan(actions, actions[m].id, m);
    CloserStep(At(actions, c), actions[c], id);
    if c < m { FinishedStays(actions, id, c + 1, m); }
  }

  lemma {:induction false} FinishedStays(actions: seq<Action>, id: nat, m: nat, n: nat)
    requires ValidRun(INIT, actions) && m <= n <= |actions|
    requires CloserAt(At(actions, m), id).Some? && CloserAt(At(actions, m), id) != Some(ClosingTicker)
    ensures CloserAt(At(actions, n), id).Some? && CloserAt(At(actions, n), id) != Some(ClosingTicker)
    decreases n
  {
    if m < n {
      FinishedStays(actions, id, m, n - 1);
      AtSteps(actions, n - 1);
      CloserStep(At(actions, n - 1), actions[n - 1], id);
    }
  }
}

/**
  The pump thread, the producer's wake-up and the isolate's consumer loop on the request ring.

  `rd` and `wr` are the stream positions behind the ring's 64-bit head and tail; every load of
  a counter, every queueing on the wait queue and every wake-up is a step of its own.
 */
module Pump {
  import opened Bits
  import Ring

  /** Where the pump is: the first test of the wait, queueing, the test while queued, asleep,
      the test of the inner loop, an ENTER_LOOP in flight, backing off, or stopped. */
  datatype Place =
    | Test | TestTail(t: nat)
    | Queue | Retest | RetestTail(t: nat) | Asleep
    | Inner | InnerTail(t: nat)
    | Entering | Backoff | Stopped

  /** The isolate's side: blocked on its socket, draining, or at the exit re-check. */
  datatype Loop = Outside | Draining | ExitTail(t: nat) | Leaving(t: nat) | Dead

  /** `mustWake`: a producer has committed and not yet called wake_up; `woken`: a wake-up has
      reached the pump since it last queued itself. */
  datatype State = State(n: nat, rd: nat, wr: nat, mustWake: bool, pump: Place, woken: bool, loop: Loop)

  /** has_work() on a loaded tail and the head read after it: 64-bit inequality. */
  predicate Differs(t: nat, h: nat) {
    Off(t, TWO64) != Off(h, TWO64)
  }

  predicate OnQueue(p: Place) {
    p.Retest? || p.RetestTail? || p.Asleep?
  }

  // ── The pump's own steps ───────────────────────────────────────────────────

  /** What the pump does next when nobody else moves; it blocks asleep and in ENTER_LOOP. */
  function PumpStep(s: State): State {
    match s.pump
    case Test => s.(pump := TestTail(s.wr))
    case TestTail(t) => s.(pump := if Differs(t, s.rd) then Inner else Queue)
    case Queue => s.(pump := Retest, woken := false)
    case Retest => s.(pump := RetestTail(s.wr))
    case RetestTail(t) => s.(pump := if Differs(t, s.rd) then Inner else Asleep)
    case Asleep => if s.woken then s.(pump := Queue) else s
    case Inner => s.(pump := InnerTail(s.wr))
    case InnerTail(t) => if Differs(t, s.rd) then EnterLoop(s) else s.(pump := Test)
    case Backoff => s.(pump := Test)
    case _ => s
  }

  /** The command drives the isolate into its loop, unless it is looping already. */
  function EnterLoop(s: State): State {
    s.(pump := Entering, loop := if s.loop.Outside? then Draining else s.loop)
  }

  function PumpRun(s: State, k: nat): State
    decreases k
  {
    if k == 0 then s else PumpRun(PumpStep(s), k - 1)
  }

  // ── Steps of the others ────────────────────────────────────────────────────

  /** commit() by the lock holder; the lock is held until after the wake-up. */
  ghost predicate Commit(s: State, s': State, len: nat) {
    && !s.mustWake && len > 0 && s.wr + len <= s.rd + s.n
    && s' == s.(wr := s.wr + len, mustWake := true)
  }

  function Wake(s: State): State {
    s.(mustWake := false, woken := s.woken || OnQueue(s.pump))
  }

  /** A signal, a stop request or an unrelated wake-up ends the sleep. */
  ghost predicate Disturb(s: State, s': State) {
    s.pump.Asleep? && (s' == s.(pump := Queue) || s' == s.(pump := Inner))
  }

  ghost predicate Stop(s: State, s': State) {
    s' == s.(pump := Stopped)
  }

  /** ENTER_LOOP completes, or fails. */
  ghost predicate Complete(s: State, s': State) {
    s.pump.Entering? && (s' == s.(pump := Inner) || s' == s.(pump := Backoff))
  }

  ghost predicate Consume(s: State, s': State, len: nat) {
    && s.loop.Draining? && 0 < len && s.rd + len <= s.wr
    && s' == s.(rd := s.rd + len)
  }

  /** The exit re-check: load the tail, compare, and leave only when equal. */
  ghost predicate ExitCheck(s: State, s': State) {
    || (s.loop.Draining? && s' == s.(loop := ExitTail(s.wr)))
    || (s.loop.ExitTail? && s' == s.(loop := if Differs(s.loop.t, s.rd) then Draining else Leaving(s.loop.t)))
    || (s.loop.Leaving? && s' == s.(loop := Outside))
  }

  ghost predicate Die(s: State, s': State) {
    s' == s.(loop := Dead)
  }

  ghost predicate Next(s: State, s': State) {
    || s' == PumpStep(s) || (s.mustWake && s' == Wake(s)) || (exists len :: Commit(s, s', len))
    || Disturb(s, s') || Stop(s, s') || Complete(s, s')
    || (exists len :: Consume(s, s', len)) || ExitCheck(s, s') || Die(s, s')
  }

  // ── The invariant ──────────────────────────────────────────────────────────

  /** A wake-up is on its way to the pump or has reached it. */
  predicate WakePending(s: State) {
    s.mustWake || s.woken
  }

  ghost predicate Inv(s: State) {
    && s.n <= Ring.MAX_CAP && s.rd <= s.wr <= s.rd + s.n
    && (s.pump.RetestTail? && !WakePending(s) ==> s.pump.t == s.wr)
    && (s.pump.Asleep? && !WakePending(s) ==> s.rd == s.wr)
    && (s.loop.ExitTail? ==> s.rd <= s.loop.t <= s.wr)
    && (s.loop.Leaving? ==> s.rd == s.loop.t)
  }

  /** Positions at most a ring apart have equal 64-bit counters only if they are equal. */
  lemma {:induction false} DiffersExact(p: nat, t: nat)
    requires p <= t <= p + Ring.MAX_CAP
    ensures Differs(t, p) <==> p < t
  {
    OffAdd(p, t - p, TWO64);
  }

  lemma {:induction false} PumpStepKeeps(s: State)
    requires Inv(s)
    ensures Inv(PumpStep(s))
  {
    DiffersExact(s.rd, s.wr);
  }

  lemma {:induction false} NextKeeps(s: State, s': State)
    requires Inv(s) && Next(s, s')
    ensures Inv(s')
  {
    if s' == PumpStep(s) {
      PumpStepKeeps(s);
    } else if s.loop.ExitTail? {
      DiffersExact(s.rd, s.loop.t);
    }
  }

  ghost predicate Init(s: State) {
    && s.n <= Ring.MAX_CAP && s.rd == s.wr && !s.mustWake && s.pump.Test? && !s.woken && s.loop.Outside?
  }

  ghost predicate IsRun(run: seq<State>) {
    && run != [] && Init(run[0])
    && forall i | 0 < i < |run| :: Next(run[i - 1], run[i])
  }

  lemma {:induction false} RunKeeps(run: seq<State>, i: nat)
    requires IsRun(run) && i < |run|
    ensures Inv(run[i])
  {
    if i > 0 {
      RunKeeps(run, i - 1);
      NextKeeps(run[i - 1], run[i]);
    }
  }

  /** In every run, whenever the pump is asleep and no wake-up is on its way, the request ring
      is empty; and a loop that has passed its exit re-check left nothing of what it saw. */
  lemma {:induction false} NothingStranded(run: seq<State>, i: nat)
    requires IsRun(run) && i < |run|
    ensures var s := run[i];
            && (s.pump.Asleep? && !WakePending(s) ==> s.rd == s.wr)
            && (s.loop.Leaving? ==> s.rd == s.loop.t)
  {
    RunKeeps(run, i);
  }

  // ── Progress ───────────────────────────────────────────────────────────────

  /** Steps the pump needs at most to reach ENTER_LOOP while the ring stays non-empty. */
  function Distance(s: State): nat {
    match s.pump
    case Entering => 0
    case InnerTail(t) => if Differs(t, s.rd) then 1 else 5
    case Inner => 2
    case TestTail(t) => if Differs(t, s.rd) then 3 else 6
    case Test => 4
    case RetestTail(t) => if Differs(t, s.rd) then 3 else 7
    case Retest => 4
    case Queue => 5
    case Asleep => 6
    case Backoff => 5
    case Stopped => 0
  }

  lemma {:induction false} PumpStepNearer(s: State)
    requires Inv(s) && s.rd < s.wr && !s.mustWake && !s.pump.Stopped? && !s.pump.Entering?
    ensures var s' := PumpStep(s);
            && Distance(s') < Distance(s) && s'.rd == s.rd && s'.wr == s.wr && !s'.mustWake && !s'.pump.Stopped?
  {
    DiffersExact(s.rd, s.wr);
  }

  lemma {:induction false} PumpReachesLoop(s: State)
    requires Inv(s) && s.rd < s.wr && !s.mustWake && !s.pump.Stopped?
    ensures exists k | 0 <= k <= Distance(s) :: PumpRun(s, k).pump.Entering?
    decreases Distance(s)
  {
    if s.pump.Entering? {
      assert PumpRun(s, 0).pump.Entering?;
    } else {
      PumpStepKeeps(s);
      PumpStepNearer(s);
      var s' := PumpStep(s);
      PumpReachesLoop(s');
      var k :| 0 <= k <= Distance(s') && PumpRun(s', k).pump.Entering?;
      assert PumpRun(s, k + 1) == PumpRun(s', k);
    }
  }

  /** The state once a producer's owed wake-up, if any, has been made. */
  function AfterWake(s: State): State {
    if s.mustWake then Wake(s) else s
  }

  /** In every run, from every state with a request in the ring and the pump not stopped, the
      producer's owed wake-up and at most seven pump steps put an ENTER_LOOP in flight. */
  lemma {:induction false} EveryRequestIsDriven(run: seq<State>, i: nat)
    requires IsRun(run) && i < |run| && run[i].rd < run[i].wr && !run[i].pump.Stopped?
    ensures exists k | 0 <= k <= 7 :: PumpRun(AfterWake(run[i]), k).pump.Entering?
  {
    RunKeeps(run, i);
    var s := run[i];
    var w := AfterWake(s);
    if s.mustWake {
      NextKeeps(s, w);
    }
    PumpReachesLoop(w);
    var k :| 0 <= k <= Distance(w) && PumpRun(w, k).pump.Entering?;
  }

  // ── Nothing to do ──────────────────────────────────────────────────────────

  /** No request is in the ring, and the pump holds no tail that it loaded when there was one. */
  predicate NothingToDo(s: State) {
    && s.rd == s.wr
    && match s.pump
       case TestTail(t) => t == s.wr
       case RetestTail(t) => t == s.wr
       case InnerTail(t) => t == s.wr
       case _ => true
  }

  /** The pump's steps until it sleeps for good. */
  function ToSleep(s: State): nat {
    var again := if s.woken then 4 else 0;
    match s.pump
    case Asleep => again
    case RetestTail(_) => 1 + again
    case Retest => 2 + again
    case Queue => 3
    case TestTail(_) => 4
    case Test => 5
    case InnerTail(_) => 6
    case Inner => 7
    case Backoff => 6
    case _ => 0
  }

  /** Without a request the pump goes to sleep by its own next steps, without an ENTER_LOOP on the way,
      and stays asleep until it is woken. */
  lemma {:induction false} IdlePumpSleeps(s: State)
    requires NothingToDo(s) && !s.pump.Entering? && !s.pump.Stopped?
    ensures exists k | 0 <= k <= 7 ::
              && PumpRun(s, k).pump.Asleep? && PumpStep(PumpRun(s, k)) == PumpRun(s, k)
              && PumpRun(s, k).loop == s.loop
  {
    SleepsWithin(s);
    var k :| 0 <= k <= ToSleep(s) && Sleeps(PumpRun(s, k)) && PumpRun(s, k).loop == s.loop;
  }

  predicate Sleeps(s: State) {
    s.pump.Asleep? && !s.woken
  }

  lemma {:induction false} SleepsWithin(s: State)
    requires NothingToDo(s) && !s.pump.Entering? && !s.pump.Stopped?
    ensures ToSleep(s) <= 7
    ensures exists k | 0 <= k <= ToSleep(s) :: Sleeps(PumpRun(s, k)) && PumpRun(s, k).loop == s.loop
    decreases ToSleep(s)
  {
    if Sleeps(s) {
      assert PumpRun(s, 0) == s;
    } else {
      var s' := PumpStep(s);
      SleepsWithin(s');
      var k :| 0 <= k <= ToSleep(s') && Sleeps(PumpRun(s', k)) && PumpRun(s', k).loop == s'.loop;
      assert PumpRun(s, k + 1) == PumpRun(s', k);
    }
  }
}

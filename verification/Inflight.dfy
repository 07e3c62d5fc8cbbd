/**
  Requests in flight on the virtqueue: who may free what, and when.

  Records live at addresses that the kernel's allocator reuses after a free; `gen` numbers each
  use of an address, so a cookie that outlived its record would show. Every hand-over between the
  submitting thread, the device and the completion callback is a step of its own.
 */
module Inflight {
  const ERESTARTSYS := -512
  const ENOMEM := -12

  /** Where the submitting thread is in send_sync. */
  datatype Phase =
    | Created                 // record allocated, no response buffer yet
    | Listed                  // buffer allocated, on the in-flight list
    | Waiting                 // submitted, first wait
    | Interrupted             // signalled: the isolate was asked to stop, second wait
    | Woken(ret: int)         // completion seen
    | Unlisted(ret: int)      // off the list
    | Returned(ret: int)      // buffer freed, result returned

  /** A record: `resp` says its response buffer is allocated, `done` that it was completed. */
  datatype Inf = Inf(gen: nat, isolate: bool, phase: Phase, resp: bool, done: bool)

  /** The data pointer given to the virtqueue, with the use it was given for. */
  datatype Cookie = Cookie(addr: nat, gen: nat)

  datatype Callback = Idle | Got(c: Cookie) | Filled(c: Cookie)

  /** What befell a use from outside: no memory for its buffer, a refusal by the virtqueue, a signal. */
  datatype Event = NoMemory | Refused(err: int) | Signalled

  /** `completions` counts the completions of each use, `events` what befell it, `results` what it
      returned. */
  datatype State = State(
    heap: map<nat, Inf>, listed: set<nat>, device: set<Cookie>, used: seq<Cookie>, cb: Callback,
    nextGen: nat, completions: map<nat, nat>, events: map<nat, Event>, results: map<nat, int>)

  function With(s: State, a: nat, i: Inf): State {
    s.(heap := s.heap[a := i])
  }

  // ── Steps ──────────────────────────────────────────────────────────────────

  /** A new record, at any address not in use. */
  ghost predicate Alloc(s: State, s': State, a: nat, isolate: bool) {
    && a !in s.heap
    && s' == With(s, a, Inf(s.nextGen, isolate, Created, false, false))
             .(nextGen := s.nextGen + 1, completions := s.completions[s.nextGen := 0])
  }

  /** The response buffer is allocated and the record listed, or there is no memory. */
  ghost predicate Enqueue(s: State, s': State, a: nat) {
    && a in s.heap && s.heap[a].phase.Created?
    && s' == With(s, a, s.heap[a].(phase := Listed, resp := true)).(listed := s.listed + {a})
  }

  ghost predicate NoBuffer(s: State, s': State, a: nat) {
    && a in s.heap && s.heap[a].phase.Created?
    && s' == With(s, a, s.heap[a].(phase := Returned(ENOMEM)))
             .(events := s.events[s.heap[a].gen := NoMemory], results := s.results[s.heap[a].gen := ENOMEM])
  }

  ghost predicate Submit(s: State, s': State, a: nat) {
    && a in s.heap && s.heap[a].phase.Listed?
    && s' == With(s, a, s.heap[a].(phase := Waiting)).(device := s.device + {Cookie(a, s.heap[a].gen)})
  }

  /** The ring refused the descriptor. */
  ghost predicate SubmitFails(s: State, s': State, a: nat, err: int) {
    && a in s.heap && s.heap[a].phase.Listed? && err != 0 && err != ERESTARTSYS
    && s' == With(s, a, s.heap[a].(phase := Returned(err), resp := false))
             .(listed := s.listed - {a}, events := s.events[s.heap[a].gen := Refused(err)],
               results := s.results[s.heap[a].gen := err])
  }

  /** The host writes the response and returns the descriptor, in any order. */
  ghost predicate HostDone(s: State, s': State, c: Cookie) {
    c in s.device && s' == s.(device := s.device - {c}, used := s.used + [c])
  }

  ghost predicate Pop(s: State, s': State) {
    s.cb.Idle? && s.used != [] && s' == s.(cb := Got(s.used[0]), used := s.used[1..])
  }

  /** The callback reads the response buffer through the record. */
  ghost predicate Fill(s: State, s': State) {
    s.cb.Got? && s' == s.(cb := Filled(s.cb.c))
  }

  ghost predicate Complete(s: State, s': State) {
    && s.cb.Filled?
    && var a := s.cb.c.addr;
    && a in s.heap && s.heap[a].gen in s.completions
    && s' == With(s, a, s.heap[a].(done := true))
             .(cb := Idle, completions := s.completions[s.heap[a].gen := s.completions[s.heap[a].gen] + 1])
  }

  /** A signal ends the interruptible wait of an isolate request that is not completed yet. */
  ghost predicate Signal(s: State, s': State, a: nat) {
    && a in s.heap && s.heap[a].phase.Waiting? && s.heap[a].isolate && !s.heap[a].done
    && s' == With(s, a, s.heap[a].(phase := Interrupted)).(events := s.events[s.heap[a].gen := Signalled])
  }

  ghost predicate Wake(s: State, s': State, a: nat) {
    && a in s.heap && s.heap[a].done && (s.heap[a].phase.Waiting? || s.heap[a].phase.Interrupted?)
    && s' == With(s, a, s.heap[a].(phase := Woken(if s.heap[a].phase.Waiting? then 0 else ERESTARTSYS)))
  }

  ghost predicate Dequeue(s: State, s': State, a: nat) {
    && a in s.heap && s.heap[a].phase.Woken?
    && s' == With(s, a, s.heap[a].(phase := Unlisted(s.heap[a].phase.ret))).(listed := s.listed - {a})
  }

  ghost predicate FreeBuffer(s: State, s': State, a: nat) {
    && a in s.heap && s.heap[a].phase.Unlisted?
    && s' == With(s, a, s.heap[a].(phase := Returned(s.heap[a].phase.ret), resp := false))
             .(results := s.results[s.heap[a].gen := s.heap[a].phase.ret])
  }

  /** The caller frees the record once send_sync has returned. */
  ghost predicate FreeRecord(s: State, s': State, a: nat) {
    && a in s.heap && s.heap[a].phase.Returned? && s' == s.(heap := s.heap - {a})
  }

  ghost predicate Next(s: State, s': State) {
    || (exists a, isolate :: Alloc(s, s', a, isolate)) || (exists a :: Enqueue(s, s', a))
    || (exists a :: NoBuffer(s, s', a)) || (exists a :: Submit(s, s', a))
    || (exists a, err :: SubmitFails(s, s', a, err)) || (exists c :: HostDone(s, s', c))
    || Pop(s, s') || Fill(s, s') || Complete(s, s') || (exists a :: Signal(s, s', a))
    || (exists a :: Wake(s, s', a)) || (exists a :: Dequeue(s, s', a))
    || (exists a :: FreeBuffer(s, s', a)) || (exists a :: FreeRecord(s, s', a))
  }

  // ── The invariant ──────────────────────────────────────────────────────────

  predicate HeldByCallback(cb: Callback, c: Cookie) {
    !cb.Idle? && cb.c == c
  }

  /** The descriptor of `c` is with the device, in the used ring or in the callback's hands. */
  predicate Outstanding(s: State, c: Cookie) {
    c in s.device || c in s.used || HeldByCallback(s.cb, c)
  }

  /** An outstanding cookie names a live record of its own use, with its buffer, not completed. */
  predicate Live(s: State, c: Cookie) {
    && c.addr in s.heap && s.heap[c.addr].gen == c.gen
    && s.heap[c.addr].resp && !s.heap[c.addr].done
    && (s.heap[c.addr].phase.Waiting? || s.heap[c.addr].phase.Interrupted?)
  }

  ghost predicate Cookies(s: State) {
    forall c | Outstanding(s, c) :: Live(s, c)
  }

  /** A descriptor is in one place only. */
  ghost predicate OnePlace(s: State) {
    && (forall i | 0 <= i < |s.used| :: s.used[i] !in s.device && !HeldByCallback(s.cb, s.used[i]))
    && (forall i, j | 0 <= i < j < |s.used| :: s.used[i] != s.used[j])
    && (!s.cb.Idle? ==> s.cb.c !in s.device)
  }

  /** What holds of a record by the phase of its thread. */
  predicate RecordOk(i: Inf, listed: bool, count: nat) {
    match i.phase
    case Created => !i.resp && !i.done && !listed && count == 0
    case Listed => i.resp && !i.done && listed && count == 0
    case Waiting => i.resp && listed && count == (if i.done then 1 else 0)
    case Interrupted => i.resp && listed && i.isolate && count == (if i.done then 1 else 0)
    case Woken(ret) => i.resp && i.done && listed && count == 1 && (ret == 0 || ret == ERESTARTSYS)
    case Unlisted(ret) => i.resp && i.done && !listed && count == 1 && (ret == 0 || ret == ERESTARTSYS)
    case Returned(ret) => !i.resp && !listed && count == (if ret == 0 || ret == ERESTARTSYS then 1 else 0)
  }

  ghost predicate Records(s: State) {
    && s.listed <= s.heap.Keys
    && (forall a | a in s.heap ::
          s.heap[a].gen in s.completions && RecordOk(s.heap[a], a in s.listed, s.completions[s.heap[a].gen]))
    && (forall a, b | a in s.heap && b in s.heap && s.heap[a].gen == s.heap[b].gen :: a == b)
  }

  /** A use that returned was completed once if it was submitted, and never otherwise. */
  ghost predicate History(s: State) {
    && (forall g | g in s.completions :: g < s.nextGen && s.completions[g] <= 1)
    && (forall g | g in s.results ::
          g in s.completions && s.completions[g] == (if s.results[g] in {0, ERESTARTSYS} then 1 else 0))
    && (forall a | a in s.heap && s.heap[a].gen in s.results :: s.heap[a].phase.Returned?)
  }

  ghost predicate Inv(s: State) {
    Cookies(s) && OnePlace(s) && Records(s) && History(s)
  }

  // ── Every step keeps it ────────────────────────────────────────────────────

  lemma {:induction false} AllocKeeps(s: State, s': State, a: nat, isolate: bool)
    requires Inv(s) && Alloc(s, s', a, isolate)
    ensures Inv(s')
  {
    forall c | Outstanding(s', c)
      ensures Live(s', c)
    {
      assert Outstanding(s, c) ==> Live(s, c);
    }
  }

  lemma {:induction false} EnqueueKeeps(s: State, s': State, a: nat)
    requires Inv(s) && Enqueue(s, s', a)
    ensures Inv(s')
  {
    forall c | Outstanding(s', c)
      ensures Live(s', c)
    {
      assert Outstanding(s, c) ==> Live(s, c);
    }
  }

  lemma {:induction false} NoBufferKeeps(s: State, s': State, a: nat)
    requires Inv(s) && NoBuffer(s, s', a)
    ensures Inv(s')
  {
    forall c | Outstanding(s', c)
      ensures Live(s', c)
    {
      assert Outstanding(s, c) ==> Live(s, c);
    }
  }

  lemma {:induction false} SubmitKeeps(s: State, s': State, a: nat)
    requires Inv(s) && Submit(s, s', a)
    ensures Inv(s')
  {
    var n := Cookie(a, s.heap[a].gen);
    assert Outstanding(s, n) ==> Live(s, n);
    forall c | Outstanding(s', c)
      ensures Live(s', c)
    {
      assert Outstanding(s, c) ==> Live(s, c);
    }
    forall i | 0 <= i < |s.used|
      ensures s.used[i] != n
    {
      assert s.used[i] == n ==> Outstanding(s, n);
    }
  }

  lemma {:induction false} SubmitFailsKeeps(s: State, s': State, a: nat, err: int)
    requires Inv(s) && SubmitFails(s, s', a, err)
    ensures Inv(s')
  {
    forall c | Outstanding(s', c)
      ensures Live(s', c)
    {
      assert Outstanding(s, c) ==> Live(s, c);
    }
  }

  lemma {:induction false} HostDoneKeeps(s: State, s': State, c: Cookie)
    requires Inv(s) && HostDone(s, s', c)
    ensures Inv(s')
  {
    forall c' | Outstanding(s', c')
      ensures Live(s', c')
    {
      assert Outstanding(s, c') ==> Live(s, c');
    }
  }

  lemma {:induction false} PopKeeps(s: State, s': State)
    requires Inv(s) && Pop(s, s')
    ensures Inv(s')
  {
    forall c | Outstanding(s', c)
      ensures Live(s', c)
    {
      assert Outstanding(s, c) ==> Live(s, c);
    }
  }

  lemma {:induction false} FillKeeps(s: State, s': State)
    requires Inv(s) && Fill(s, s')
    ensures Inv(s')
  {
    forall c | Outstanding(s', c)
      ensures Live(s', c)
    {
      assert Outstanding(s, c) ==> Live(s, c);
    }
  }

  lemma {:induction false} CompleteKeeps(s: State, s': State)
    requires Inv(s) && Complete(s, s')
    ensures Inv(s')
  {
    var n := s.cb.c;
    assert Outstanding(s, n) && Live(s, n);
    forall c | Outstanding(s', c)
      ensures Live(s', c)
    {
      assert Outstanding(s, c) && Live(s, c);
      assert c != n;
    }
  }

  lemma {:induction false} SignalKeeps(s: State, s': State, a: nat)
    requires Inv(s) && Signal(s, s', a)
    ensures Inv(s')
  {
    forall c | Outstanding(s', c)
      ensures Live(s', c)
    {
      assert Outstanding(s, c) ==> Live(s, c);
    }
  }

  lemma {:induction false} WakeKeeps(s: State, s': State, a: nat)
    requires Inv(s) && Wake(s, s', a)
    ensures Inv(s')
  {
    forall c | Outstanding(s', c)
      ensures Live(s', c)
    {
      assert Outstanding(s, c) ==> Live(s, c);
    }
  }

  lemma {:induction false} DequeueKeeps(s: State, s': State, a: nat)
    requires Inv(s) && Dequeue(s, s', a)
    ensures Inv(s')
  {
    forall c | Outstanding(s', c)
      ensures Live(s', c)
    {
      assert Outstanding(s, c) ==> Live(s, c);
    }
  }

  lemma {:induction false} FreeBufferKeeps(s: State, s': State, a: nat)
    requires Inv(s) && FreeBuffer(s, s', a)
    ensures Inv(s')
  {
    forall c | Outstanding(s', c)
      ensures Live(s', c)
    {
      assert Outstanding(s, c) ==> Live(s, c);
    }
  }

  lemma {:induction false} FreeRecordKeeps(s: State, s': State, a: nat)
    requires Inv(s) && FreeRecord(s, s', a)
    ensures Inv(s')
  {
    forall c | Outstanding(s', c)
      ensures Live(s', c)
    {
      assert Outstanding(s, c) ==> Live(s, c);
    }
  }

  lemma {:induction false} NextKeeps(s: State, s': State)
    requires Inv(s) && Next(s, s')
    ensures Inv(s')
  {
    if a, isolate :| Alloc(s, s', a, isolate) {
      AllocKeeps(s, s', a, isolate);
    } else if a :| Enqueue(s, s', a) {
      EnqueueKeeps(s, s', a);
    } else if a :| NoBuffer(s, s', a) {
      NoBufferKeeps(s, s', a);
    } else if a :| Submit(s, s', a) {
      SubmitKeeps(s, s', a);
    } else if a, err :| SubmitFails(s, s', a, err) {
      SubmitFailsKeeps(s, s', a, err);
    } else if c :| HostDone(s, s', c) {
      HostDoneKeeps(s, s', c);
    } else if Pop(s, s') {
      PopKeeps(s, s');
    } else if Fill(s, s') {
      FillKeeps(s, s');
    } else if Complete(s, s') {
      CompleteKeeps(s, s');
    } else {
      ThreadKeeps(s, s');
    }
  }

  /** The submitting thread's steps after submission. */
  lemma {:induction false} ThreadKeeps(s: State, s': State)
    requires Inv(s)
    requires || (exists a :: Signal(s, s', a)) || (exists a :: Wake(s, s', a)) || (exists a :: Dequeue(s, s', a))
             || (exists a :: FreeBuffer(s, s', a)) || (exists a :: FreeRecord(s, s', a))
    ensures Inv(s')
  {
    if a :| Signal(s, s', a) {
      SignalKeeps(s, s', a);
    } else if a :| Wake(s, s', a) {
      WakeKeeps(s, s', a);
    } else if a :| Dequeue(s, s', a) {
      DequeueKeeps(s, s', a);
    } else if a :| FreeBuffer(s, s', a) {
      FreeBufferKeeps(s, s', a);
    } else if a :| FreeRecord(s, s', a) {
      FreeRecordKeeps(s, s', a);
    }
  }

  // ── What a call returns ────────────────────────────────────────────────────

  /** What a use must return, by what befell it. */
  function Expected(events: map<nat, Event>, g: nat): int {
    if g !in events then 0 else
      match events[g]
      case NoMemory => -12
      case Refused(err) => err
      case Signalled => -512
  }

  predicate PhaseOk(p: Phase, events: map<nat, Event>, g: nat) {
    match p
    case Created => g !in events
    case Listed => g !in events
    case Waiting => g !in events
    case Interrupted => g in events && events[g].Signalled?
    case Woken(ret) => ret == Expected(events, g)
    case Unlisted(ret) => ret == Expected(events, g)
    case Returned(ret) => ret == Expected(events, g)
  }

  /** Uses are numbered apart, and one that returned is in no other phase. */
  ghost predicate Numbered(s: State) {
    && (forall a, b | a in s.heap && b in s.heap && s.heap[a].gen == s.heap[b].gen :: a == b)
    && (forall a | a in s.heap :: s.heap[a].gen < s.nextGen)
    && (forall a | a in s.heap && s.heap[a].gen in s.results :: s.heap[a].phase.Returned?)
  }

  ghost predicate Outcomes(s: State) {
    && (forall a | a in s.heap :: PhaseOk(s.heap[a].phase, s.events, s.heap[a].gen))
    && (forall g | g in s.results :: s.results[g] == Expected(s.events, g))
    && (forall g | g in s.events :: g < s.nextGen && EventOk(s.events[g]))
  }

  predicate EventOk(e: Event) {
    e.Refused? ==> e.err != 0 && e.err != ERESTARTSYS
  }

  lemma {:induction false} InvNumbered(s: State)
    requires Inv(s)
    ensures Numbered(s)
  {
  }

  /** A step of one thread: its record changes phase, and only its own use may have an event or a result
      more. */
  ghost predicate OneThread(s: State, s': State, a: nat) {
    && a in s.heap && a in s'.heap && s'.heap == s.heap[a := s'.heap[a]] && s'.heap[a].gen == s.heap[a].gen
    && s'.nextGen == s.nextGen
    && (forall g | g != s.heap[a].gen :: (g in s'.events <==> g in s.events) && (g in s'.results <==> g in s.results))
    && (forall g | g in s.events && g != s.heap[a].gen :: s'.events[g] == s.events[g])
    && (forall g | g in s.results && g != s.heap[a].gen :: s'.results[g] == s.results[g])
  }

  lemma {:induction false} OneThreadOutcomes(s: State, s': State, a: nat)
    requires Numbered(s) && Outcomes(s) && OneThread(s, s', a)
    requires var g := s.heap[a].gen;
             && PhaseOk(s'.heap[a].phase, s'.events, g) && (g in s'.events ==> EventOk(s'.events[g]))
             && (g in s'.results ==> s'.results[g] == Expected(s'.events, g))
    ensures Outcomes(s')
  {
    forall b | b in s'.heap
      ensures PhaseOk(s'.heap[b].phase, s'.events, s'.heap[b].gen)
    {
      if b != a {
        assert s'.heap[b] == s.heap[b] && s.heap[b].gen != s.heap[a].gen;
      }
    }
  }

  lemma {:induction false} AllocOutcomes(s: State, s': State, a: nat, isolate: bool)
    requires Outcomes(s) && Alloc(s, s', a, isolate)
    ensures Outcomes(s')
  {
  }

  lemma {:induction false} EnqueueOutcomes(s: State, s': State, a: nat)
    requires Numbered(s) && Outcomes(s) && Enqueue(s, s', a)
    ensures Outcomes(s')
  {
    OneThreadOutcomes(s, s', a);
  }

  lemma {:induction false} NoBufferOutcomes(s: State, s': State, a: nat)
    requires Numbered(s) && Outcomes(s) && NoBuffer(s, s', a)
    ensures Outcomes(s')
  {
    OneThreadOutcomes(s, s', a);
  }

  lemma {:induction false} SubmitOutcomes(s: State, s': State, a: nat)
    requires Numbered(s) && Outcomes(s) && Submit(s, s', a)
    ensures Outcomes(s')
  {
    OneThreadOutcomes(s, s', a);
  }

  lemma {:induction false} SignalOutcomes(s: State, s': State, a: nat)
    requires Numbered(s) && Outcomes(s) && Signal(s, s', a)
    ensures Outcomes(s')
  {
    OneThreadOutcomes(s, s', a);
  }

  lemma {:induction false} WakeOutcomes(s: State, s': State, a: nat)
    requires Numbered(s) && Outcomes(s) && Wake(s, s', a)
    ensures Outcomes(s')
  {
    OneThreadOutcomes(s, s', a);
  }

  lemma {:induction false} DequeueOutcomes(s: State, s': State, a: nat)
    requires Numbered(s) && Outcomes(s) && Dequeue(s, s', a)
    ensures Outcomes(s')
  {
    OneThreadOutcomes(s, s', a);
  }

  lemma {:induction false} FreeBufferOutcomes(s: State, s': State, a: nat)
    requires Numbered(s) && Outcomes(s) && FreeBuffer(s, s', a)
    ensures Outcomes(s')
  {
    OneThreadOutcomes(s, s', a);
  }

  lemma {:induction false} SubmitFailsOutcomes(s: State, s': State, a: nat, err: int)
    requires Numbered(s) && Outcomes(s) && SubmitFails(s, s', a, err)
    ensures Outcomes(s')
  {
    OneThreadOutcomes(s, s', a);
  }

  lemma {:induction false} HostOutcomes(s: State, s': State)
    requires Outcomes(s)
    requires (exists c :: HostDone(s, s', c)) || Pop(s, s') || Fill(s, s') || Complete(s, s')
    ensures Outcomes(s')
  {
  }

  lemma {:induction false} FreeRecordOutcomes(s: State, s': State, a: nat)
    requires Outcomes(s) && FreeRecord(s, s', a)
    ensures Outcomes(s')
  {
  }

  lemma {:induction false} NextOutcomes(s: State, s': State)
    requires Numbered(s) && Outcomes(s) && Next(s, s')
    ensures Outcomes(s')
  {
    if a, isolate :| Alloc(s, s', a, isolate) {
      AllocOutcomes(s, s', a, isolate);
    } else if a :| Enqueue(s, s', a) {
      EnqueueOutcomes(s, s', a);
    } else if a :| NoBuffer(s, s', a) {
      NoBufferOutcomes(s, s', a);
    } else if a :| Submit(s, s', a) {
      SubmitOutcomes(s, s', a);
    } else if a, err :| SubmitFails(s, s', a, err) {
      SubmitFailsOutcomes(s, s', a, err);
    } else if (exists c :: HostDone(s, s', c)) || Pop(s, s') || Fill(s, s') || Complete(s, s') {
      HostOutcomes(s, s');
    } else if a :| Signal(s, s', a) {
      SignalOutcomes(s, s', a);
    } else if a :| Wake(s, s', a) {
      WakeOutcomes(s, s', a);
    } else if a :| Dequeue(s, s', a) {
      DequeueOutcomes(s, s', a);
    } else if a :| FreeBuffer(s, s', a) {
      FreeBufferOutcomes(s, s', a);
    } else if a :| FreeRecord(s, s', a) {
      FreeRecordOutcomes(s, s', a);
    }
  }

  // ── Whole runs ─────────────────────────────────────────────────────────────

  ghost predicate Init(s: State) {
    s == State(map[], {}, {}, [], Idle, 0, map[], map[], map[])
  }

  ghost predicate IsRun(run: seq<State>) {
    && run != [] && Init(run[0])
    && forall i | 0 < i < |run| :: Next(run[i - 1], run[i])
  }

  lemma {:induction false} RunKeeps(run: seq<State>, i: nat)
    requires IsRun(run) && i < |run|
    ensures Inv(run[i])
  {
    if i > 0 {
      RunKeeps(run, i - 1);
      NextKeeps(run[i - 1], run[i]);
    } else {
      var s := run[0];
      forall c | Outstanding(s, c)
        ensures false
      {
      }
    }
  }

  /** In every run: while a descriptor is with the device, in the used ring or in the callback's
      hands, its record is still the same live record and its response buffer is allocated; a
      descriptor is in one place only; and a request returns 0 or -ERESTARTSYS exactly when it was
      completed, which happens once. */
  lemma {:induction false} NothingFreedEarly(run: seq<State>, i: nat)
    requires IsRun(run) && i < |run|
    ensures var s := run[i];
            && (forall c | Outstanding(s, c) :: Live(s, c)) && OnePlace(s)
            && (forall g | g in s.completions :: s.completions[g] <= 1)
            && (forall g | g in s.results ::
                  g in s.completions && (s.results[g] in {0, ERESTARTSYS} <==> s.completions[g] == 1))
            && (forall a | a in s.heap && s.heap[a].phase.Interrupted? && !s.heap[a].done ::
                  s.heap[a].resp && a in s.listed)
  {
    RunKeeps(run, i);
  }

  lemma {:induction false} RunOutcomes(run: seq<State>, i: nat)
    requires IsRun(run) && i < |run|
    ensures Inv(run[i]) && Outcomes(run[i])
  {
    RunKeeps(run, i);
    if i > 0 {
      RunOutcomes(run, i - 1);
      InvNumbered(run[i - 1]);
      NextOutcomes(run[i - 1], run[i]);
    }
  }

  /** In every run a call returns what happened to it: 0 exactly when it completed and no signal ended its
      wait, -ERESTARTSYS exactly when one did and it completed all the same, -ENOMEM without a buffer and
      the virtqueue's error after a refusal, neither of which was ever completed. */
  lemma {:induction false} ReturnsWhatHappened(run: seq<State>, i: nat, g: nat)
    requires IsRun(run) && i < |run| && g in run[i].results
    ensures var s := run[i];
            && g in s.completions && s.results[g] == Expected(s.events, g)
            && (s.results[g] == 0 <==> s.completions[g] == 1 && g !in s.events)
            && (s.results[g] == -512 <==> s.completions[g] == 1 && g in s.events && s.events[g].Signalled?)
            && (s.completions[g] == 0 <==> g in s.events && !s.events[g].Signalled?)
  {
    RunOutcomes(run, i);
  }

  /** In every run, a step that frees a buffer or a record frees one whose descriptor has come back. */
  lemma {:induction false} FreesComeLast(run: seq<State>, s: State, s': State, a: nat)
    requires IsRun(run) && s == run[|run| - 1] && Next(s, s') && Frees(s, s', a)
    ensures !Outstanding(s, Cookie(a, s.heap[a].gen))
  {
    RunCookies(run, |run| - 1);
    NotOutstanding(s, s', a);
  }

  lemma {:induction false} RunCookies(run: seq<State>, i: nat)
    requires IsRun(run) && i < |run|
    ensures Cookies(run[i])
  {
    RunKeeps(run, i);
  }

  /** The step takes away the record at `a` or its buffer. */
  predicate Frees(s: State, s': State, a: nat) {
    a in s.heap && (a !in s'.heap || (s.heap[a].resp && !s'.heap[a].resp))
  }

  lemma {:induction false} NotOutstanding(s: State, s': State, a: nat)
    requires Cookies(s) && Next(s, s') && Frees(s, s', a)
    ensures !Outstanding(s, Cookie(a, s.heap[a].gen))
  {
    var c := Cookie(a, s.heap[a].gen);
    if Outstanding(s, c) {
      assert Live(s, c);
      LiveStays(s, s', c);
    }
  }

  /** No step takes the record or the buffer of an outstanding descriptor. */
  lemma {:induction false} LiveStays(s: State, s': State, c: Cookie)
    requires Next(s, s') && Live(s, c)
    ensures c.addr in s'.heap && s'.heap[c.addr].resp
  {
    if || (exists a, isolate :: Alloc(s, s', a, isolate)) || (exists a :: Enqueue(s, s', a))
       || (exists a :: NoBuffer(s, s', a)) || (exists a :: Submit(s, s', a))
       || (exists a, err :: SubmitFails(s, s', a, err)) {
      LiveBefore(s, s', c);
    } else if || (exists a :: Signal(s, s', a)) || (exists a :: Wake(s, s', a)) || (exists a :: Dequeue(s, s', a))
              || (exists a :: FreeBuffer(s, s', a)) || (exists a :: FreeRecord(s, s', a)) {
      LiveAfter(s, s', c);
    }
  }

  lemma {:induction false} LiveBefore(s: State, s': State, c: Cookie)
    requires Live(s, c)
    requires || (exists a, isolate :: Alloc(s, s', a, isolate)) || (exists a :: Enqueue(s, s', a))
             || (exists a :: NoBuffer(s, s', a)) || (exists a :: Submit(s, s', a))
             || (exists a, err :: SubmitFails(s, s', a, err))
    ensures c.addr in s'.heap && s'.heap[c.addr].resp
  {
  }

  lemma {:induction false} LiveAfter(s: State, s': State, c: Cookie)
    requires Live(s, c)
    requires || (exists a :: Signal(s, s', a)) || (exists a :: Wake(s, s', a)) || (exists a :: Dequeue(s, s', a))
             || (exists a :: FreeBuffer(s, s', a)) || (exists a :: FreeRecord(s, s', a))
    ensures c.addr in s'.heap && s'.heap[c.addr].resp
  {
  }

  // ── Every wait ends ────────────────────────────────────────────────────────

  /** Every record that waits and is not completed has its descriptor outstanding. */
  ghost predicate Owed(s: State) {
    forall a | a in s.heap && Pending(s.heap[a]) :: Outstanding(s, Cookie(a, s.heap[a].gen))
  }

  predicate Pending(i: Inf) {
    (i.phase.Waiting? || i.phase.Interrupted?) && !i.done
  }

  lemma {:induction false} HostOwed(s: State, s': State)
    requires Owed(s)
    requires (exists c :: HostDone(s, s', c)) || Pop(s, s') || Fill(s, s')
    ensures Owed(s')
  {
    forall a | a in s'.heap && Pending(s'.heap[a])
      ensures Outstanding(s', Cookie(a, s'.heap[a].gen))
    {
      var c := Cookie(a, s.heap[a].gen);
      assert Outstanding(s, c);
      if Pop(s, s') && c in s.used && s.used[0] != c {
        var i :| 0 <= i < |s.used| && s.used[i] == c;
        assert s'.used[i - 1] == c;
      } else if d :| HostDone(s, s', d) {
        assert s'.used[|s.used|] == d;
        if i :| 0 <= i < |s.used| && s.used[i] == c {
          assert s'.used[i] == c;
        }
      }
    }
  }

  lemma {:induction false} CompleteOwed(s: State, s': State)
    requires Owed(s) && Complete(s, s')
    ensures Owed(s')
  {
    forall a | a in s'.heap && Pending(s'.heap[a])
      ensures Outstanding(s', Cookie(a, s'.heap[a].gen))
    {
      assert Outstanding(s, Cookie(a, s.heap[a].gen));
    }
  }

  lemma {:induction false} ThreadOwed(s: State, s': State, a: nat)
    requires Owed(s) && s'.used == s.used && s'.cb == s.cb && s.device <= s'.device
    requires forall b | b in s'.heap && b != a :: b in s.heap && s'.heap[b] == s.heap[b]
    requires a in s'.heap && Pending(s'.heap[a]) ==>
               || Cookie(a, s'.heap[a].gen) in s'.device
               || (a in s.heap && Pending(s.heap[a]) && s'.heap[a].gen == s.heap[a].gen)
    ensures Owed(s')
  {
    forall b | b in s'.heap && Pending(s'.heap[b])
      ensures Outstanding(s', Cookie(b, s'.heap[b].gen))
    {
      assert b in s.heap && Pending(s.heap[b]) ==> Outstanding(s, Cookie(b, s.heap[b].gen));
    }
  }

  lemma {:induction false} AllocOwed(s: State, s': State, a: nat, isolate: bool)
    requires Owed(s) && Alloc(s, s', a, isolate)
    ensures Owed(s')
  {
    ThreadOwed(s, s', a);
  }

  lemma {:induction false} EnqueueOwed(s: State, s': State, a: nat)
    requires Owed(s) && Enqueue(s, s', a)
    ensures Owed(s')
  {
    ThreadOwed(s, s', a);
  }

  lemma {:induction false} NoBufferOwed(s: State, s': State, a: nat)
    requires Owed(s) && NoBuffer(s, s', a)
    ensures Owed(s')
  {
    ThreadOwed(s, s', a);
  }

  lemma {:induction false} SubmitOwed(s: State, s': State, a: nat)
    requires Owed(s) && Submit(s, s', a)
    ensures Owed(s')
  {
    ThreadOwed(s, s', a);
  }

  lemma {:induction false} SubmitFailsOwed(s: State, s': State, a: nat, err: int)
    requires Owed(s) && SubmitFails(s, s', a, err)
    ensures Owed(s')
  {
    ThreadOwed(s, s', a);
  }

  lemma {:induction false} SignalOwed(s: State, s': State, a: nat)
    requires Owed(s) && Signal(s, s', a)
    ensures Owed(s')
  {
    ThreadOwed(s, s', a);
  }

  lemma {:induction false} WakeOwed(s: State, s': State, a: nat)
    requires Owed(s) && Wake(s, s', a)
    ensures Owed(s')
  {
    ThreadOwed(s, s', a);
  }

  lemma {:induction false} DequeueOwed(s: State, s': State, a: nat)
    requires Owed(s) && Dequeue(s, s', a)
    ensures Owed(s')
  {
    ThreadOwed(s, s', a);
  }

  lemma {:induction false} FreeBufferOwed(s: State, s': State, a: nat)
    requires Owed(s) && FreeBuffer(s, s', a)
    ensures Owed(s')
  {
    ThreadOwed(s, s', a);
  }

  lemma {:induction false} FreeRecordOwed(s: State, s': State, a: nat)
    requires Owed(s) && FreeRecord(s, s', a)
    ensures Owed(s')
  {
    ThreadOwed(s, s', a);
  }

  lemma {:induction false} NextOwed(s: State, s': State)
    requires Owed(s) && Next(s, s')
    ensures Owed(s')
  {
    if a, isolate :| Alloc(s, s', a, isolate) {
      AllocOwed(s, s', a, isolate);
    } else if a :| Enqueue(s, s', a) {
      EnqueueOwed(s, s', a);
    } else if a :| NoBuffer(s, s', a) {
      NoBufferOwed(s, s', a);
    } else if a :| Submit(s, s', a) {
      SubmitOwed(s, s', a);
    } else if a, err :| SubmitFails(s, s', a, err) {
      SubmitFailsOwed(s, s', a, err);
    } else if (exists c :: HostDone(s, s', c)) || Pop(s, s') || Fill(s, s') {
      HostOwed(s, s');
    } else if Complete(s, s') {
      CompleteOwed(s, s');
    } else if a :| Signal(s, s', a) {
      SignalOwed(s, s', a);
    } else if a :| Wake(s, s', a) {
      WakeOwed(s, s', a);
    } else if a :| Dequeue(s, s', a) {
      DequeueOwed(s, s', a);
    } else if a :| FreeBuffer(s, s', a) {
      FreeBufferOwed(s, s', a);
    } else if a :| FreeRecord(s, s', a) {
      FreeRecordOwed(s, s', a);
    }
  }

  lemma {:induction false} RunOwed(run: seq<State>, i: nat)
    requires IsRun(run) && i < |run|
    ensures Owed(run[i])
  {
    if i > 0 {
      RunOwed(run, i - 1);
      NextOwed(run[i - 1], run[i]);
    }
  }

  /** What the callback does next when nobody else moves. */
  function CallbackStep(s: State): State {
    match s.cb
    case Idle => if s.used == [] then s else s.(cb := Got(s.used[0]), used := s.used[1..])
    case Got(c) => s.(cb := Filled(c))
    case Filled(c) =>
      if c.addr !in s.heap || s.heap[c.addr].gen !in s.completions then s else
        With(s, c.addr, s.heap[c.addr].(done := true))
        .(cb := Idle, completions := s.completions[s.heap[c.addr].gen := s.completions[s.heap[c.addr].gen] + 1])
  }

  function CallbackRun(s: State, k: nat): State
    decreases k
  {
    if k == 0 then s else CallbackRun(CallbackStep(s), k - 1)
  }

  /** The callback's steps until it has emptied the used ring. */
  function Backlog(s: State): nat {
    3 * |s.used| + match s.cb case Idle => 0 case Got(_) => 2 case Filled(_) => 1
  }

  predicate Finished(s: State, c: Cookie) {
    c.addr in s.heap && s.heap[c.addr].gen == c.gen && s.heap[c.addr].done
  }

  predicate CameBack(s: State, c: Cookie) {
    c in s.used || HeldByCallback(s.cb, c)
  }

  lemma {:induction false} CallbackMoves(s: State, c: Cookie)
    requires Inv(s) && CameBack(s, c)
    ensures var s' := CallbackStep(s);
            Next(s, s') && Backlog(s') < Backlog(s) && (Finished(s', c) || CameBack(s', c))
  {
    match s.cb
    case Idle =>
      CallbackPops(s, c);
    case Got(d) =>
      assert Fill(s, CallbackStep(s));
    case Filled(d) =>
      CallbackCompletes(s, c);
  }

  lemma {:induction false} CallbackPops(s: State, c: Cookie)
    requires s.cb.Idle? && CameBack(s, c)
    ensures var s' := CallbackStep(s);
            Pop(s, s') && Backlog(s') < Backlog(s) && CameBack(s', c)
  {
    var i :| 0 <= i < |s.used| && s.used[i] == c;
    assert i > 0 ==> CallbackStep(s).used[i - 1] == c;
  }

  lemma {:induction false} CallbackCompletes(s: State, c: Cookie)
    requires Inv(s) && s.cb.Filled? && CameBack(s, c)
    ensures var s' := CallbackStep(s);
            Complete(s, s') && Backlog(s') < Backlog(s) && (Finished(s', c) || CameBack(s', c))
  {
    assert Outstanding(s, s.cb.c) && Live(s, s.cb.c);
  }

  lemma {:induction false} CallbackReaches(s: State, c: Cookie)
    requires Inv(s) && CameBack(s, c)
    ensures exists k | 0 <= k <= Backlog(s) :: Finished(CallbackRun(s, k), c)
    decreases Backlog(s)
  {
    var s' := CallbackStep(s);
    CallbackMoves(s, c);
    NextKeeps(s, s');
    if Finished(s', c) {
      assert CallbackRun(s, 1) == CallbackRun(s', 0) == s';
    } else {
      CallbackReaches(s', c);
      var k :| 0 <= k <= Backlog(s') && Finished(CallbackRun(s', k), c);
      assert CallbackRun(s, k + 1) == CallbackRun(s', k);
    }
  }

  /** In every run: a record waits for its completion exactly while its descriptor is outstanding, so no
      wake-up is lost; and once the host has returned it, the callback alone completes it. */
  lemma {:induction false} EveryWaitEnds(run: seq<State>, i: nat, a: nat)
    requires IsRun(run) && i < |run| && a in run[i].heap
    ensures var s := run[i];
            var c := Cookie(a, s.heap[a].gen);
            && (Pending(s.heap[a]) <==> Outstanding(s, c))
            && (Pending(s.heap[a]) && c !in s.device ==>
                  exists k | 0 <= k <= Backlog(s) :: Finished(CallbackRun(s, k), c))
  {
    RunKeeps(run, i);
    RunOwed(run, i);
    var s := run[i];
    var c := Cookie(a, s.heap[a].gen);
    if Outstanding(s, c) {
      assert Live(s, c);
      if c !in s.device {
        CallbackReaches(s, c);
      }
    }
  }
}

/**
  The control fast path: requests and replies on two rings, with the virtqueue behind them.

  The two rings are taken as the FIFO queues they are proved to be; every other step of the
  callers, the lock holder's wait and the isolate's loop is a transition of its own.
 */
module FastPath {
  import opened Bits
  import Ring

  const TRY_PUNT := 1
  /** One less than the number of 32-bit values: zero is never a transaction id. */
  const TXN_SPACE := TWO32 - 1
  const REQ_MIN := 64
  const RESP_MIN := 32

  /** The pre-increment of the 32-bit counter, skipping zero. */
  function NextTxn(c: nat): nat {
    if c + 1 == TWO32 then 1 else c + 1
  }

  /** The id of the k-th published request. */
  function Txn(k: nat): nat {
    k % TXN_SPACE + 1
  }

  lemma {:induction false} TxnSequence(k: nat)
    ensures Txn(0) == NextTxn(0) && Txn(k + 1) == NextTxn(Txn(k)) && 0 < Txn(k) < TWO32
  {
  }

  lemma {:induction false} TxnDistinct(j: nat, k: nat)
    requires j <= k < j + TXN_SPACE
    ensures Txn(j) == Txn(k) <==> j == k
  {
  }

  /** What the wait returns for an accepted reply. */
  function WaitResult(punt: bool, ret: int): int {
    if punt then TRY_PUNT else if ret < 0 then ret else 0
  }

  datatype Req = Req(txn: nat, call: nat, len: nat)
  /** `did` records whether the isolate ran the control; the caller does not see it. */
  datatype Resp = Resp(txn: nat, call: nat, len: nat, punt: bool, did: bool, ret: int)

  datatype Stub = Idle | Acting(punt: bool, did: bool, ret: int) | Replied | Gone
  datatype Waiter = Free | Waits(call: nat, txn: nat)

  /** A control call: waiting on the ring, sent back to the virtqueue, or finished. */
  datatype Call = Waiting | Fallback | Answered(rc: int, did: bool) | GaveUp | Forwarded

  /** What the isolate answered a call. */
  datatype Answer = Answer(punt: bool, ret: int)

  /** `pub` lists the published calls, `ran` every execution on the host; `popped` and `served`
      count requests removed and answered, and `answers` is what the isolate answered. */
  datatype State = State(
    n: nat, next: nat, reqs: seq<Req>, resps: seq<Resp>, stub: Stub, waiter: Waiter,
    calls: map<nat, Call>, pub: seq<nat>, popped: nat, served: nat, ran: multiset<nat>,
    answers: map<nat, Answer>)

  function ReqBytes(q: seq<Req>): nat {
    if q == [] then 0 else q[0].len + ReqBytes(q[1..])
  }

  function RespBytes(q: seq<Resp>): nat {
    if q == [] then 0 else q[0].len + RespBytes(q[1..])
  }

  // ── Steps ──────────────────────────────────────────────────────────────────

  /** The ring is off, the control is not eligible, or there is no room. */
  ghost predicate Decline(s: State, s': State, c: nat) {
    c !in s.calls && s' == s.(calls := s.calls[c := Fallback])
  }

  /** The lock is taken and the request committed. */
  ghost predicate Publish(s: State, s': State, c: nat, len: nat) {
    && s.waiter.Free? && c !in s.calls
    && REQ_MIN <= len && ReqBytes(s.reqs) + len <= s.n
    && var txn := NextTxn(s.next);
    && s' == s.(next := txn, reqs := s.reqs + [Req(txn, c, len)], waiter := Waits(c, txn),
                calls := s.calls[c := Waiting], pub := s.pub + [c])
  }

  /** The isolate runs the oldest request, refuses it, or punts it unexecuted. */
  ghost predicate Act(s: State, s': State, punt: bool, did: bool, ret: int) {
    && s.stub.Idle? && s.reqs != [] && !(punt && did)
    && s' == s.(stub := Acting(punt, did, ret),
                ran := if did then s.ran + multiset{s.reqs[0].call} else s.ran)
  }

  ghost predicate Reply(s: State, s': State, len: nat) {
    && s.stub.Acting? && s.reqs != []
    && RESP_MIN <= len && RespBytes(s.resps) + len <= s.n
    && var Acting(punt, did, ret) := s.stub;
    && s' == s.(stub := Replied, served := s.served + 1,
                answers := s.answers[s.reqs[0].call := Answer(punt, ret)],
                resps := s.resps + [Resp(s.reqs[0].txn, s.reqs[0].call, len, punt, did, ret)])
  }

  ghost predicate PopRequest(s: State, s': State) {
    && s.stub.Replied? && s.reqs != []
    && s' == s.(stub := Idle, reqs := s.reqs[1..], popped := s.popped + 1)
  }

  /** The isolate may exit at any point. */
  ghost predicate Die(s: State, s': State) {
    s' == s.(stub := Gone)
  }

  ghost predicate DropReply(s: State, s': State) {
    && s.waiter.Waits? && s.resps != [] && s.resps[0].txn != s.waiter.txn
    && s' == s.(resps := s.resps[1..])
  }

  ghost predicate AcceptReply(s: State, s': State) {
    && s.waiter.Waits? && s.resps != [] && s.resps[0].txn == s.waiter.txn
    && var r := s.resps[0];
    && var rc := WaitResult(r.punt, r.ret);
    && s' == s.(resps := s.resps[1..], waiter := Free,
                calls := s.calls[s.waiter.call := if rc == TRY_PUNT then Fallback else Answered(rc, r.did)])
  }

  /** The spin limit ran out or the reply ring is malformed: -EIO, no fallback. */
  ghost predicate GiveUp(s: State, s': State) {
    && s.waiter.Waits?
    && s' == s.(waiter := Free, calls := s.calls[s.waiter.call := GaveUp])
  }

  /** The virtqueue path runs a call that came back with TRY_PUNT. */
  ghost predicate Forward(s: State, s': State, c: nat) {
    && c in s.calls && s.calls[c].Fallback?
    && s' == s.(calls := s.calls[c := Forwarded], ran := s.ran + multiset{c})
  }

  ghost predicate Next(s: State, s': State) {
    || (exists c :: Decline(s, s', c)) || (exists c, len :: Publish(s, s', c, len))
    || (exists punt, did, ret :: Act(s, s', punt, did, ret)) || (exists len :: Reply(s, s', len))
    || PopRequest(s, s') || Die(s, s') || DropReply(s, s') || AcceptReply(s, s') || GiveUp(s, s')
    || (exists c :: Forward(s, s', c))
  }

  // ── The invariant ──────────────────────────────────────────────────────────

  /** The request queue is the published requests not yet popped. */
  ghost predicate ReqsOk(pub: seq<nat>, popped: nat, reqs: seq<Req>) {
    && |pub| == popped + |reqs|
    && forall i | 0 <= i < |reqs| ::
         reqs[i].call == pub[popped + i] && reqs[i].txn == Txn(popped + i) && reqs[i].len >= REQ_MIN
  }

  /** The reply queue answers the most recently served requests, in order. */
  ghost predicate RespsOk(pub: seq<nat>, served: nat, resps: seq<Resp>) {
    && |resps| <= served <= |pub|
    && forall i | 0 <= i < |resps| ::
         && resps[i].call == pub[served - |resps| + i] && resps[i].txn == Txn(served - |resps| + i)
         && resps[i].len >= RESP_MIN && !(resps[i].punt && resps[i].did)
  }

  ghost predicate SizesOk(n: nat, reqs: seq<Req>, resps: seq<Resp>) {
    n <= Ring.MAX_CAP && ReqBytes(reqs) <= n && RespBytes(resps) <= n
  }

  ghost predicate StubOk(stub: Stub, popped: nat, served: nat, pub: seq<nat>, ran: multiset<nat>) {
    && popped <= served <= popped + 1 && served <= |pub|
    && (stub.Idle? ==> served == popped)
    && (stub.Acting? ==> served == popped < |pub| && !(stub.punt && stub.did)
                         && ran[pub[served]] == Count(stub.did))
    && (stub.Replied? ==> served == popped + 1)
  }

  function Count(b: bool): nat {
    if b then 1 else 0
  }

  ghost predicate PubOk(next: nat, pub: seq<nat>, calls: map<nat, Call>) {
    && next == (if pub == [] then 0 else Txn(|pub| - 1))
    && (forall i | 0 <= i < |pub| :: pub[i] in calls)
    && (forall i, j | 0 <= i < j < |pub| :: pub[i] != pub[j])
  }

  ghost predicate WaiterOk(waiter: Waiter, pub: seq<nat>, calls: map<nat, Call>) {
    && (waiter.Waits? ==> && pub != [] && waiter.call == pub[|pub| - 1] && waiter.txn == Txn(|pub| - 1)
                          && waiter.call in calls && calls[waiter.call].Waiting?)
    && (forall c | c in calls && calls[c].Waiting? :: waiter.Waits? && waiter.call == c)
  }

  /** A request not yet answered has not run, is not in the isolate's hands, and is still
      waited for or was given up. */
  ghost predicate UnservedOk(stub: Stub, served: nat, pub: seq<nat>, calls: map<nat, Call>, ran: multiset<nat>) {
    forall k | served <= k < |pub| ::
      && pub[k] in calls && (calls[pub[k]].Waiting? || calls[pub[k]].GaveUp?)
      && (k > served || stub.Idle? || stub.Replied? ==> ran[pub[k]] == 0)
  }

  ghost predicate RepliesTrue(resps: seq<Resp>, calls: map<nat, Call>, ran: multiset<nat>) {
    forall i | 0 <= i < |resps| ::
      resps[i].call in calls && calls[resps[i].call].Waiting? ==> ran[resps[i].call] == Count(resps[i].did)
  }

  /** How often a call has run, by what became of it. */
  ghost predicate Accounted(calls: map<nat, Call>, ran: multiset<nat>, c: nat) {
    if c !in calls then ran[c] == 0 else
      match calls[c]
      case Waiting => ran[c] <= 1
      case Fallback => ran[c] == 0
      case Answered(_, did) => ran[c] == Count(did)
      case GaveUp => ran[c] <= 1
      case Forwarded => ran[c] == 1
  }

  ghost predicate Inv(s: State) {
    && ReqsOk(s.pub, s.popped, s.reqs) && RespsOk(s.pub, s.served, s.resps) && SizesOk(s.n, s.reqs, s.resps)
    && StubOk(s.stub, s.popped, s.served, s.pub, s.ran)
    && PubOk(s.next, s.pub, s.calls) && WaiterOk(s.waiter, s.pub, s.calls)
    && UnservedOk(s.stub, s.served, s.pub, s.calls, s.ran) && RepliesTrue(s.resps, s.calls, s.ran)
    && (forall c :: Accounted(s.calls, s.ran, c))
  }

  // ── The reply a caller accepts ─────────────────────────────────────────────

  lemma {:induction false} ReqBytesBound(q: seq<Req>)
    requires forall i | 0 <= i < |q| :: q[i].len >= REQ_MIN
    ensures REQ_MIN * |q| <= ReqBytes(q)
  {
    if q != [] {
      ReqBytesBound(q[1..]);
    }
  }

  lemma {:induction false} RespBytesBound(q: seq<Resp>)
    requires forall i | 0 <= i < |q| :: q[i].len >= RESP_MIN
    ensures RESP_MIN * |q| <= RespBytes(q)
  {
    if q != [] {
      RespBytesBound(q[1..]);
    }
  }

  lemma {:induction false} ReqBytesAppend(q: seq<Req>, r: Req)
    ensures ReqBytes(q + [r]) == ReqBytes(q) + r.len
  {
    if q != [] {
      assert (q + [r])[1..] == q[1..] + [r];
      ReqBytesAppend(q[1..], r);
    }
  }

  lemma {:induction false} RespBytesAppend(q: seq<Resp>, r: Resp)
    ensures RespBytes(q + [r]) == RespBytes(q) + r.len
  {
    if q != [] {
      assert (q + [r])[1..] == q[1..] + [r];
      RespBytesAppend(q[1..], r);
    }
  }

  /** The requests and replies in the rings span far fewer than all transaction ids. */
  lemma {:induction false} WindowIsSmall(s: State)
    requires Inv(s)
    ensures |s.pub| - (s.served - |s.resps|) < TXN_SPACE
  {
    ReqBytesBound(s.reqs);
    RespBytesBound(s.resps);
  }

  /** A matching id means the reply is to the waiting call's own request. */
  lemma {:induction false} AcceptedIsOwn(s: State)
    requires Inv(s) && s.waiter.Waits? && s.resps != []
    ensures s.resps[0].txn == s.waiter.txn <==> s.resps[0].call == s.waiter.call
    ensures s.resps[0].txn == s.waiter.txn ==> |s.resps| == 1 && s.served == |s.pub|
                                               && s.ran[s.waiter.call] == Count(s.resps[0].did)
                                               && (s.resps[0].punt ==> !s.resps[0].did)
  {
    WindowIsSmall(s);
    var j := s.served - |s.resps|;
    assert s.resps[0].call == s.pub[j + 0];
    TxnDistinct(j, |s.pub| - 1);
  }

  // ── Every step keeps the invariant ─────────────────────────────────────────

  lemma {:induction false} DeclineKeeps(s: State, s': State, c: nat)
    requires Inv(s) && Decline(s, s', c)
    ensures Inv(s')
  {
    assert Accounted(s.calls, s.ran, c);
    forall x
      ensures Accounted(s'.calls, s'.ran, x)
    {
      assert Accounted(s.calls, s.ran, x);
    }
  }

  lemma {:induction false} NextIsTxn(next: nat, pub: seq<nat>, calls: map<nat, Call>)
    requires PubOk(next, pub, calls)
    ensures NextTxn(next) == Txn(|pub|)
  {
    if pub != [] {
      TxnSequence(|pub| - 1);
    }
  }

  lemma {:induction false} ReqsAppend(pub: seq<nat>, popped: nat, reqs: seq<Req>, c: nat, len: nat)
    requires ReqsOk(pub, popped, reqs) && len >= REQ_MIN
    ensures ReqsOk(pub + [c], popped, reqs + [Req(Txn(|pub|), c, len)])
  {
  }

  lemma {:induction false} PublishKeeps(s: State, s': State, c: nat, len: nat)
    requires Inv(s) && Publish(s, s', c, len)
    ensures Inv(s')
  {
    NextIsTxn(s.next, s.pub, s.calls);
    ReqsAppend(s.pub, s.popped, s.reqs, c, len);
    ReqBytesAppend(s.reqs, Req(NextTxn(s.next), c, len));
    assert Accounted(s.calls, s.ran, c);
    forall x
      ensures Accounted(s'.calls, s'.ran, x)
    {
      assert Accounted(s.calls, s.ran, x);
    }
  }

  lemma {:induction false} ActKeeps(s: State, s': State, punt: bool, did: bool, ret: int)
    requires Inv(s) && Act(s, s', punt, did, ret)
    ensures Inv(s')
  {
    assert s.reqs[0].call == s.pub[s.popped + 0];
    forall x
      ensures Accounted(s'.calls, s'.ran, x)
    {
      assert Accounted(s.calls, s.ran, x);
    }
  }

  lemma {:induction false} ReplyKeeps(s: State, s': State, len: nat)
    requires Inv(s) && Reply(s, s', len)
    ensures Inv(s')
  {
    assert s.reqs[0].call == s.pub[s.popped + 0];
    RespBytesAppend(s.resps, s'.resps[|s.resps|]);
  }

  lemma {:induction false} PopKeeps(s: State, s': State)
    requires Inv(s) && PopRequest(s, s')
    ensures Inv(s')
  {
  }

  lemma {:induction false} DropKeeps(s: State, s': State)
    requires Inv(s) && DropReply(s, s')
    ensures Inv(s')
  {
  }

  lemma {:induction false} AcceptKeeps(s: State, s': State)
    requires Inv(s) && AcceptReply(s, s')
    ensures Inv(s')
  {
    AcceptedIsOwn(s);
    forall x
      ensures Accounted(s'.calls, s'.ran, x)
    {
      assert Accounted(s.calls, s.ran, x);
    }
  }

  lemma {:induction false} GiveUpKeeps(s: State, s': State)
    requires Inv(s) && GiveUp(s, s')
    ensures Inv(s')
  {
    forall x
      ensures Accounted(s'.calls, s'.ran, x)
    {
      assert Accounted(s.calls, s.ran, x);
    }
  }

  lemma {:induction false} ForwardKeeps(s: State, s': State, c: nat)
    requires Inv(s) && Forward(s, s', c)
    ensures Inv(s')
  {
    forall x
      ensures Accounted(s'.calls, s'.ran, x)
    {
      assert Accounted(s.calls, s.ran, x);
    }
  }

  lemma {:induction false} NextKeeps(s: State, s': State)
    requires Inv(s) && Next(s, s')
    ensures Inv(s')
  {
    if c :| Decline(s, s', c) {
      DeclineKeeps(s, s', c);
    } else if c, len :| Publish(s, s', c, len) {
      PublishKeeps(s, s', c, len);
    } else if punt, did, ret :| Act(s, s', punt, did, ret) {
      ActKeeps(s, s', punt, did, ret);
    } else if len :| Reply(s, s', len) {
      ReplyKeeps(s, s', len);
    } else if PopRequest(s, s') {
      PopKeeps(s, s');
    } else if DropReply(s, s') {
      DropKeeps(s, s');
    } else if AcceptReply(s, s') {
      AcceptKeeps(s, s');
    } else if GiveUp(s, s') {
      GiveUpKeeps(s, s');
    } else if c :| Forward(s, s', c) {
      ForwardKeeps(s, s', c);
    }
  }

  // ── Whole runs ─────────────────────────────────────────────────────────────

  ghost predicate Init(s: State) {
    && s.n <= Ring.MAX_CAP && s.next == 0 && s.reqs == [] && s.resps == [] && s.stub.Idle? && s.waiter.Free?
    && s.calls == map[] && s.pub == [] && s.popped == 0 && s.served == 0 && s.ran == multiset{} && s.answers == map[]
  }

  ghost predicate IsRun(run: seq<State>) {
    && run != [] && Init(run[0])
    && forall i | 0 < i < |run| :: Next(run[i - 1], run[i])
  }

  lemma {:induction false} RunKeeps(run: seq<State>, i: nat)
    requires IsRun(run) && i < |run|
    ensures Inv(run[i])
  {
    if i > 0 {
      RunKeeps(run, i - 1);
      NextKeeps(run[i - 1], run[i]);
    }
  }

  /** In every run, a control runs at most once across the ring and the virtqueue: not at all
      while a fallback is pending, exactly once when forwarded, and exactly as its own reply
      says when answered. */
  lemma {:induction false} AtMostOnce(run: seq<State>, i: nat, c: nat)
    requires IsRun(run) && i < |run|
    ensures var s := run[i];
            && s.ran[c] <= 1
            && (c in s.calls && s.calls[c].Fallback? ==> s.ran[c] == 0)
            && (c in s.calls && s.calls[c].Forwarded? ==> s.ran[c] == 1)
            && (c in s.calls && s.calls[c].Answered? ==> s.ran[c] == Count(s.calls[c].did))
  {
    RunKeeps(run, i);
    assert Accounted(run[i].calls, run[i].ran, c);
  }

  /** In every run, the reply a caller accepts is the reply to its own request, it is the only one
      in the ring, and it is true: PUNT only if the control was not run. */
  lemma {:induction false} RepliesReachTheirCaller(run: seq<State>, i: nat)
    requires IsRun(run) && i < |run| && run[i].waiter.Waits? && run[i].resps != []
    ensures var s := run[i];
            && (s.resps[0].txn == s.waiter.txn <==> s.resps[0].call == s.waiter.call)
            && (s.resps[0].txn == s.waiter.txn ==>
                  |s.resps| == 1 && s.ran[s.waiter.call] == Count(s.resps[0].did)
                  && (WaitResult(s.resps[0].punt, s.resps[0].ret) == TRY_PUNT ==> s.ran[s.waiter.call] == 0))
  {
    RunKeeps(run, i);
    AcceptedIsOwn(run[i]);
  }

  // ── What a call returns ────────────────────────────────────────────────────

  /** The result of an answered call is the isolate's own answer, kept if it is an error and 0 if not. */
  predicate Returns(answers: map<nat, Answer>, c: nat, rc: int) {
    && c in answers && !answers[c].punt
    && (answers[c].ret < 0 ==> rc == answers[c].ret) && (answers[c].ret >= 0 ==> rc == 0)
  }

  /** A call that goes to the virtqueue was not published, or was punted. */
  predicate SentBack(answers: map<nat, Answer>, pub: seq<nat>, c: nat) {
    c in pub ==> c in answers && answers[c].punt
  }

  ghost predicate CallTold(calls: map<nat, Call>, answers: map<nat, Answer>, pub: seq<nat>, c: nat)
    requires c in calls
  {
    && (calls[c].Answered? ==> Returns(answers, c, calls[c].rc))
    && (calls[c].Fallback? || calls[c].Forwarded? ==> SentBack(answers, pub, c))
  }

  ghost predicate CallsTold(s: State) {
    forall c | c in s.calls :: CallTold(s.calls, s.answers, s.pub, c)
  }

  ghost predicate RespsTold(s: State) {
    forall i | 0 <= i < |s.resps| ::
      s.resps[i].call in s.answers && s.answers[s.resps[i].call] == Answer(s.resps[i].punt, s.resps[i].ret)
  }

  lemma {:induction false} PublishTold(s: State, s': State, c: nat, len: nat)
    requires CallsTold(s) && RespsTold(s) && Publish(s, s', c, len)
    ensures CallsTold(s') && RespsTold(s')
  {
    forall x | x in s'.calls
      ensures CallTold(s'.calls, s'.answers, s'.pub, x)
    {
      assert x != c ==> CallTold(s.calls, s.answers, s.pub, x);
    }
  }

  lemma {:induction false} ReplyTold(s: State, s': State, len: nat)
    requires Inv(s) && CallsTold(s) && RespsTold(s) && Reply(s, s', len)
    ensures CallsTold(s') && RespsTold(s')
  {
    var k := s.served;
    assert s.reqs[0].call == s.pub[s.popped + 0];
    assert s.pub[k] in s.calls && (s.calls[s.pub[k]].Waiting? || s.calls[s.pub[k]].GaveUp?);
    forall x | x in s'.calls
      ensures CallTold(s'.calls, s'.answers, s'.pub, x)
    {
      assert CallTold(s.calls, s.answers, s.pub, x);
    }
    forall i | 0 <= i < |s.resps|
      ensures s.resps[i].call != s.pub[k]
    {
      assert s.resps[i].call == s.pub[s.served - |s.resps| + i];
    }
  }

  lemma {:induction false} AcceptTold(s: State, s': State)
    requires Inv(s) && CallsTold(s) && RespsTold(s) && AcceptReply(s, s')
    ensures CallsTold(s') && RespsTold(s')
  {
    AcceptedIsOwn(s);
    var r := s.resps[0];
    assert s.answers[r.call] == Answer(r.punt, r.ret);
    forall x | x in s'.calls
      ensures CallTold(s'.calls, s'.answers, s'.pub, x)
    {
      assert CallTold(s.calls, s.answers, s.pub, x);
    }
  }

  /** A step that answers nothing, publishes nothing and takes no reply to heart. */
  lemma {:induction false} QuietTold(s: State, s': State)
    requires CallsTold(s) && s'.answers == s.answers && s'.pub == s.pub
    requires forall c | c in s'.calls ::
               || (c in s.calls && s'.calls[c] == s.calls[c]) || s'.calls[c].GaveUp?
               || (c !in s.calls && c !in s.pub && s'.calls[c].Fallback?)
               || (c in s.calls && s.calls[c].Fallback? && s'.calls[c].Forwarded?)
    ensures CallsTold(s')
  {
    forall x | x in s'.calls
      ensures CallTold(s'.calls, s'.answers, s'.pub, x)
    {
      assert x in s.calls ==> CallTold(s.calls, s.answers, s.pub, x);
    }
  }

  lemma {:induction false} NextTold(s: State, s': State)
    requires Inv(s) && CallsTold(s) && RespsTold(s) && Next(s, s')
    ensures CallsTold(s') && RespsTold(s')
  {
    if c, len :| Publish(s, s', c, len) {
      PublishTold(s, s', c, len);
    } else if len :| Reply(s, s', len) {
      ReplyTold(s, s', len);
    } else if AcceptReply(s, s') {
      AcceptTold(s, s');
    } else {
      QuietTold(s, s');
    }
  }

  lemma {:induction false} RunTold(run: seq<State>, i: nat)
    requires IsRun(run) && i < |run|
    ensures CallsTold(run[i]) && RespsTold(run[i])
  {
    if i > 0 {
      RunTold(run, i - 1);
      RunKeeps(run, i - 1);
      NextTold(run[i - 1], run[i]);
    }
  }

  /** In every run: an answered call returns what the isolate answered that very call, its error or 0, and
      was not punted; a call on the virtqueue was never published, or the isolate punted it. */
  lemma {:induction false} AnswersReachTheirCaller(run: seq<State>, i: nat, c: nat)
    requires IsRun(run) && i < |run| && c in run[i].calls
    ensures var s := run[i];
            && (s.calls[c].Answered? ==> Returns(s.answers, c, s.calls[c].rc))
            && (s.calls[c].Fallback? || s.calls[c].Forwarded? ==> SentBack(s.answers, s.pub, c))
  {
    RunTold(run, i);
    assert CallTold(run[i].calls, run[i].answers, run[i].pub, c);
  }

  // ── A reply is not missed ──────────────────────────────────────────────────

  /** Once the isolate has answered the waiting call, its reply is the last one in the ring. */
  ghost predicate ReplyThere(s: State) {
    s.waiter.Waits? && s.served == |s.pub| ==> s.resps != [] && s.resps[|s.resps| - 1].call == s.waiter.call
  }

  lemma {:induction false} NextReplyThere(s: State, s': State)
    requires Inv(s) && ReplyThere(s) && Next(s, s')
    ensures ReplyThere(s')
  {
    if len :| Reply(s, s', len) {
      assert s.reqs[0].call == s.pub[s.popped + 0];
    } else if DropReply(s, s') {
      AcceptedIsOwn(s);
    }
  }

  lemma {:induction false} RunReplyThere(run: seq<State>, i: nat)
    requires IsRun(run) && i < |run|
    ensures ReplyThere(run[i])
  {
    if i > 0 {
      RunReplyThere(run, i - 1);
      RunKeeps(run, i - 1);
      NextReplyThere(run[i - 1], run[i]);
    }
  }

  /** Answered calls are the first `served` of those published. */
  ghost predicate AnsweredOk(s: State) {
    s.served <= |s.pub| && forall k | 0 <= k < |s.pub| :: s.pub[k] in s.answers <==> k < s.served
  }

  ghost predicate AnswersPublished(s: State) {
    forall c | c in s.answers :: c in s.pub
  }

  /** The isolate answers the calls in the order in which they were published. */
  ghost predicate InTurn(s: State) {
    && (s.stub.Acting? && s.reqs != [] ==> s.served < |s.pub| && s.reqs[0].call == s.pub[s.served])
    && PubOk(s.next, s.pub, s.calls)
  }

  lemma {:induction false} RunInTurn(run: seq<State>, i: nat)
    requires IsRun(run) && i < |run|
    ensures InTurn(run[i])
  {
    RunKeeps(run, i);
    var s := run[i];
    if s.stub.Acting? && s.reqs != [] {
      assert s.reqs[0].call == s.pub[s.popped + 0];
    }
  }

  lemma {:induction false} NextAnswered(s: State, s': State)
    requires InTurn(s) && AnsweredOk(s) && AnswersPublished(s) && Next(s, s')
    ensures AnsweredOk(s') && AnswersPublished(s')
  {
    if len :| Reply(s, s', len) {
      ReplyAnswers(s, s', len);
    } else if c, len :| Publish(s, s', c, len) {
      PublishAnswers(s, s', c, len);
    }
  }

  lemma {:induction false} ReplyAnswers(s: State, s': State, len: nat)
    requires InTurn(s) && AnsweredOk(s) && AnswersPublished(s) && Reply(s, s', len)
    ensures AnsweredOk(s') && AnswersPublished(s')
  {
  }

  lemma {:induction false} PublishAnswers(s: State, s': State, c: nat, len: nat)
    requires InTurn(s) && AnsweredOk(s) && AnswersPublished(s) && Publish(s, s', c, len)
    ensures AnsweredOk(s') && AnswersPublished(s')
  {
    assert forall k | 0 <= k < |s.pub| :: s'.pub[k] == s.pub[k];
  }

  lemma {:induction false} RunAnswered(run: seq<State>, i: nat)
    requires IsRun(run) && i < |run|
    ensures AnsweredOk(run[i]) && AnswersPublished(run[i])
  {
    if i > 0 {
      RunAnswered(run, i - 1);
      RunInTurn(run, i - 1);
      NextAnswered(run[i - 1], run[i]);
    }
  }

  /** In every run: as long as a call waits, the isolate has answered it exactly when its reply is in the
      ring; replies of others are dropped, its own never is. */
  lemma {:induction false} OwnReplyIsKept(run: seq<State>, i: nat)
    requires IsRun(run) && i < |run| && run[i].waiter.Waits?
    ensures var s := run[i];
            s.waiter.call in s.answers <==> exists k | 0 <= k < |s.resps| :: s.resps[k].call == s.waiter.call
  {
    RunKeeps(run, i);
    RunReplyThere(run, i);
    RunAnswered(run, i);
    RunTold(run, i);
  }
}

/**
  Every interleaving of one producer and one consumer on a shared ring.

  The producer's reserve / fill / commit and the consumer's peek / copy / pop are split
  at every access to shared memory: one load of a counter, one word of a header, one byte
  of a record, one store of a counter.
 */
module RingRun {
  import opened Bits
  import opened Bytes
  import opened Ring
  import opened RingFifo

  /** The producer has nothing reserved, or has made `done` of its byte stores. */
  datatype Producer = Ready | Writing(payload: seq<byte>, plan: Plan, done: nat)

  /** The consumer's place in peek / copy / pop, with what it has read so far. */
  datatype Consumer =
    | Looking
    | GotTail(avail: nat)
    | GotLen(avail: nat, len: nat)
    | Skipping(len: nat)
    | Copying(len: nat, buf: seq<byte>)
    | Corrupt

  /** `sent` and `got` are the payloads committed and the payloads popped, oldest first;
      `rd`, `wr` and `recs` describe the stretch of the stream in flight and drive nothing. */
  datatype State = State(
    mem: seq<byte>, head: nat, tail: nat, prod: Producer, cons: Consumer,
    sent: seq<seq<byte>>, got: seq<seq<byte>>,
    rd: nat, wr: nat, recs: seq<Record>)

  // ── The producer's stores ──────────────────────────────────────────────────

  function StoreCount(p: Plan, payload: seq<byte>): nat {
    match p
    case Refuse => 0
    case Direct(_, _) => 8 + |payload|
    case Wrap(_, _, _) => 16 + |payload|
  }

  /** The address of the k-th byte store. */
  function StoreAddr(p: Plan, payload: seq<byte>, k: nat): nat {
    match p
    case Refuse => 0
    case Direct(off, _) => off + k
    case Wrap(off, _, _) => if k < 8 then off + k else k - 8
  }

  function StoreValue(p: Plan, payload: seq<byte>, k: nat): byte
    requires k < StoreCount(p, payload) && p.rec < TWO32 && (p.Wrap? ==> p.toEnd < TWO32)
  {
    match p
    case Direct(_, rec) => if k < 8 then Header(rec, DATA)[k] else payload[k - 8]
    case Wrap(_, toEnd, rec) =>
      if k < 8 then Header(toEnd, SKIP)[k]
      else if k < 16 then Header(rec, DATA)[k - 8]
      else payload[k - 16]
  }

  // ── Steps ──────────────────────────────────────────────────────────────────

  predicate WfProducer(n: nat, prod: Producer) {
    prod.Writing? ==>
      && PlanFits(n, prod.plan, |prod.payload|) && !prod.plan.Refuse?
      && prod.done <= StoreCount(prod.plan, prod.payload)
  }

  predicate WfConsumer(n: nat, head: nat, cons: Consumer)
    requires n > 0
  {
    match cons
    case Skipping(len) => len <= n && Aligned(len)
    case Copying(len, buf) => 8 <= len && Aligned(len) && Off(head, n) + len <= n && |buf| <= len - 8
    case _ => true
  }

  /** What makes every step well defined. */
  ghost predicate Wf(s: State) {
    && Geometry(|s.mem|)
    && s.head < TWO64 && s.tail < TWO64 && Aligned(s.head) && Aligned(s.tail)
    && WfProducer(|s.mem|, s.prod) && WfConsumer(|s.mem|, s.head, s.cons)
  }

  /** The record a commit publishes, as the bytes now stand. */
  function NewRecord(mem: seq<byte>, wr: nat, p: Plan, payload: nat): Record
    requires PlanFits(|mem|, p, payload) && !p.Refuse?
  {
    Record(wr, if p.Wrap? then wr + p.toEnd else wr, mem[p.Base() + 8..p.Base() + p.rec])
  }

  /** reserve(): one load of the head, then a decision; a refused reservation changes nothing. */
  ghost predicate LoadHead(s: State, s': State, payload: seq<byte>) {
    && Wf(s) && s.prod.Ready? && |payload| < TWO32
    && var p := MakePlan(|s.mem|, s.tail, s.head, |payload|);
    && s' == if p.Refuse? then s else s.(prod := Writing(payload, p, 0))
  }

  ghost predicate StoreByte(s: State, s': State) {
    && Wf(s) && s.prod.Writing? && s.prod.done < StoreCount(s.prod.plan, s.prod.payload)
    && var Writing(payload, p, k) := s.prod;
    && StoreAddr(p, payload, k) < |s.mem|
    && s' == s.(mem := s.mem[StoreAddr(p, payload, k) := StoreValue(p, payload, k)],
                prod := Writing(payload, p, k + 1))
  }

  /** commit(): the release store of the tail. */
  ghost predicate Publish(s: State, s': State) {
    && Wf(s) && s.prod.Writing? && s.prod.done == StoreCount(s.prod.plan, s.prod.payload)
    && var Writing(payload, p, _) := s.prod;
    && s' == s.(tail := Add64(s.tail, p.Total()), prod := Ready, sent := s.sent + [payload],
                wr := s.wr + p.Total(), recs := s.recs + [NewRecord(s.mem, s.wr, p, |payload|)])
  }

  /** peek(): the acquire load of the tail. */
  ghost predicate LoadTail(s: State, s': State) {
    && Wf(s) && s.cons.Looking?
    && var avail := Sub64(s.tail, s.head);
    && s' == s.(cons := if avail == 0 then Looking
                        else if avail < HDR || avail > |s.mem| then Corrupt
                        else GotTail(avail))
  }

  ghost predicate ReadLen(s: State, s': State) {
    && Wf(s) && s.cons.GotTail? && Off(s.head, |s.mem|) + 4 <= |s.mem|
    && s' == s.(cons := GotLen(s.cons.avail, U32(s.mem, Off(s.head, |s.mem|))))
  }

  ghost predicate ReadKind(s: State, s': State) {
    && Wf(s) && s.cons.GotLen? && Off(s.head, |s.mem|) + 8 <= |s.mem|
    && var off := Off(s.head, |s.mem|);
    && var v := Judge(|s.mem|, off, s.cons.avail, s.cons.len, U32(s.mem, off + 4));
    && s' == s.(cons := match v
                        case Malformed => Corrupt
                        case SkipRecord(len) => Skipping(len)
                        case DataRecord(len) => Copying(len, []))
  }

  /** Advancing the head over the wrap padding. */
  ghost predicate SkipPast(s: State, s': State) {
    && Wf(s) && s.cons.Skipping?
    && s' == s.(head := Add64(s.head, s.cons.len), cons := Looking,
                rd := s.rd + s.cons.len, recs := if s.recs == [] then [] else PastSkip(s.recs))
  }

  ghost predicate CopyByte(s: State, s': State) {
    && Wf(s) && s.cons.Copying? && |s.cons.buf| < s.cons.len - 8
    && s' == s.(cons := Copying(s.cons.len, s.cons.buf + [s.mem[Off(s.head, |s.mem|) + 8 + |s.cons.buf|]]))
  }

  /** pop(): the release store of the head. */
  ghost predicate Release(s: State, s': State) {
    && Wf(s) && s.cons.Copying? && |s.cons.buf| == s.cons.len - 8
    && s' == s.(head := Add64(s.head, s.cons.len), cons := Looking, got := s.got + [s.cons.buf],
                rd := s.rd + s.cons.len, recs := if s.recs == [] then [] else s.recs[1..])
  }

  function PastSkip(recs: seq<Record>): seq<Record>
    requires recs != []
  {
    [Record(recs[0].data, recs[0].data, recs[0].pay)] + recs[1..]
  }

  ghost predicate Next(s: State, s': State) {
    || (exists payload :: LoadHead(s, s', payload)) || StoreByte(s, s') || Publish(s, s')
    || LoadTail(s, s') || ReadLen(s, s') || ReadKind(s, s')
    || SkipPast(s, s') || CopyByte(s, s') || Release(s, s')
  }

  // ── The invariant ──────────────────────────────────────────────────────────

  /** `pay` is `orig` followed by less than eight bytes of padding. */
  predicate Padded(pay: seq<byte>, orig: seq<byte>) {
    |pay| < |orig| + 8 && orig <= pay
  }

  /** The counters are the two ends of the stretch in flight, at most one capacity apart. */
  ghost predicate Counters(n: nat, head: nat, tail: nat, rd: nat, wr: nat) {
    && head == Off(rd, TWO64) && tail == Off(wr, TWO64)
    && rd <= wr <= rd + n && Aligned(rd) && Aligned(wr)
  }

  /** Everything sent is either popped or still in flight, in order. */
  ghost predicate Fifo(sent: seq<seq<byte>>, got: seq<seq<byte>>, recs: seq<Record>) {
    && |sent| == |got| + |recs|
    && (forall i | 0 <= i < |got| :: Padded(got[i], sent[i]))
    && (forall i | 0 <= i < |recs| :: Padded(recs[i].pay, sent[|got| + i]))
  }

  /** A reservation lies in the free part of the ring, at the current end of the stream. */
  ghost predicate ReservedFree(n: nat, rd: nat, wr: nat, p: Plan)
    requires n > 0
  {
    !p.Refuse? && p.off == Off(wr, n) && wr + p.Total() <= rd + n
  }

  ghost predicate Written(mem: seq<byte>, p: Plan, payload: seq<byte>, k: nat)
    requires PlanFits(|mem|, p, |payload|) && !p.Refuse? && k <= StoreCount(p, payload) && |mem| < TWO32
  {
    forall j | 0 <= j < k ::
      StoreAddr(p, payload, j) < |mem| && mem[StoreAddr(p, payload, j)] == StoreValue(p, payload, j)
  }

  ghost predicate ProducerInv(mem: seq<byte>, rd: nat, wr: nat, prod: Producer)
    requires 0 < |mem| < TWO32 && WfProducer(|mem|, prod)
  {
    prod.Writing? ==>
      && ReservedFree(|mem|, rd, wr, prod.plan)
      && Written(mem, prod.plan, prod.payload, prod.done)
  }

  /** What the consumer has read so far is what the oldest record says. */
  ghost predicate ConsumerInv(mem: seq<byte>, rd: nat, recs: seq<Record>, cons: Consumer)
    requires |mem| > 0
  {
    match cons
    case Looking => true
    case GotTail(avail) =>
      recs != [] && recs[0].End() <= rd + avail && avail <= |mem|
    case GotLen(avail, len) =>
      && recs != [] && recs[0].End() <= rd + avail && avail <= |mem|
      && Off(rd, |mem|) + 8 <= |mem| && len == U32(mem, Off(rd, |mem|))
    case Skipping(len) => recs != [] && rd + len == recs[0].data && len > 0
    case Copying(len, buf) =>
      && recs != [] && recs[0].data == rd && len == 8 + |recs[0].pay|
      && buf <= recs[0].pay
    case Corrupt => false
  }

  ghost predicate Inv(s: State) {
    && Wf(s) && Counters(|s.mem|, s.head, s.tail, s.rd, s.wr) && Fifo(s.sent, s.got, s.recs)
    && Holds(s.mem, s.rd, s.wr, s.recs)
    && ProducerInv(s.mem, s.rd, s.wr, s.prod) && ConsumerInv(s.mem, s.rd, s.recs, s.cons)
  }

  // ── Producer steps keep it ─────────────────────────────────────────────────

  /** A plan granted against any head not beyond the true one lies in free space. */
  lemma {:induction false} GrantIsFree(n: nat, rd: nat, wr: nat, stale: nat, payload: nat)
    requires Geometry(n) && stale <= rd <= wr <= stale + n && Aligned(wr) && payload < TWO32
    ensures var p := MakePlan(n, Off(wr, TWO64), Off(stale, TWO64), payload);
            !p.Refuse? ==> PlanFits(n, p, payload) && ReservedFree(n, rd, wr, p)
  {
    CounterDistance(stale, wr);
    CounterOffset(wr, n);
    PlanInBounds(n, Off(wr, TWO64), Off(stale, TWO64), payload);
  }

  /** A step that only changes what the producer intends. */
  lemma {:induction false} ProducerOnly(s: State, s': State)
    requires Inv(s) && s' == s.(prod := s'.prod)
    requires WfProducer(|s.mem|, s'.prod) && ProducerInv(s.mem, s.rd, s.wr, s'.prod)
    ensures Inv(s')
  {
  }

  lemma {:induction false} LoadHeadKeeps(s: State, s': State, payload: seq<byte>)
    requires Inv(s) && LoadHead(s, s', payload)
    ensures Inv(s')
  {
    GrantIsFree(|s.mem|, s.rd, s.wr, s.rd, |payload|);
    ProducerOnly(s, s');
  }

  /** The stream position of the k-th store. */
  function StorePos(wr: nat, p: Plan, k: nat): nat {
    if p.Wrap? && k >= 8 then wr + p.toEnd + (k - 8) else wr + k
  }

  /** The k-th store lands on a reserved position. */
  lemma {:induction false} StoreLands(n: nat, rd: nat, wr: nat, p: Plan, payload: seq<byte>, k: nat)
    requires n > 0 && PlanFits(n, p, |payload|) && ReservedFree(n, rd, wr, p) && rd <= wr
    requires k < StoreCount(p, payload)
    ensures StoreAddr(p, payload, k) < n
    ensures StoreAddr(p, payload, k) == Off(StorePos(wr, p, k), n)
    ensures wr <= StorePos(wr, p, k) < rd + n
  {
    if p.Wrap? && k >= 8 {
      OffAdd(wr, p.toEnd, n);
      OffAdd(wr + p.toEnd, k - 8, n);
    } else {
      OffAdd(wr, k, n);
    }
  }

  /** Stores of a reservation leave every byte in flight alone. */
  lemma {:induction false} StoreMissesFlight(n: nat, rd: nat, wr: nat, p: Plan, payload: seq<byte>, k: nat, i: nat)
    requires n > 0 && PlanFits(n, p, |payload|) && ReservedFree(n, rd, wr, p)
    requires k < StoreCount(p, payload) && rd <= i < wr
    ensures StoreAddr(p, payload, k) != Off(i, n)
  {
    StoreLands(n, rd, wr, p, payload, k);
    NoAlias(i, StorePos(wr, p, k), n);
  }

  lemma {:induction false} StoreAgrees(mem: seq<byte>, rd: nat, wr: nat, p: Plan, payload: seq<byte>, k: nat, v: byte)
    requires |mem| > 0 && PlanFits(|mem|, p, |payload|) && ReservedFree(|mem|, rd, wr, p)
    requires k < StoreCount(p, payload) && StoreAddr(p, payload, k) < |mem|
    ensures AgreeOn(mem, mem[StoreAddr(p, payload, k) := v], rd, wr)
  {
    forall i | rd <= i < wr
      ensures StoreAddr(p, payload, k) != Off(i, |mem|)
    {
      StoreMissesFlight(|mem|, rd, wr, p, payload, k, i);
    }
  }

  lemma {:induction false} StoresDistinct(n: nat, p: Plan, payload: seq<byte>, j: nat, k: nat)
    requires PlanFits(n, p, |payload|) && !p.Refuse? && p.Total() <= n
    requires j < k < StoreCount(p, payload)
    ensures StoreAddr(p, payload, j) != StoreAddr(p, payload, k)
  {
  }

  lemma {:induction false} StoreExtends(mem: seq<byte>, p: Plan, payload: seq<byte>, k: nat)
    requires |mem| < TWO32 && PlanFits(|mem|, p, |payload|) && !p.Refuse? && p.Total() <= |mem|
    requires k < StoreCount(p, payload) && StoreAddr(p, payload, k) < |mem| && Written(mem, p, payload, k)
    ensures Written(mem[StoreAddr(p, payload, k) := StoreValue(p, payload, k)], p, payload, k + 1)
  {
    var mem' := mem[StoreAddr(p, payload, k) := StoreValue(p, payload, k)];
    forall j | 0 <= j < k + 1
      ensures StoreAddr(p, payload, j) < |mem| && mem'[StoreAddr(p, payload, j)] == StoreValue(p, payload, j)
    {
      if j < k {
        StoresDistinct(|mem|, p, payload, j, k);
      }
    }
  }

  /** A reader in mid-record does not notice changes outside the bytes in flight. */
  lemma {:induction false} ReaderFrame(
    mem: seq<byte>, mem': seq<byte>, rd: nat, wr: nat, recs: seq<Record>, cons: Consumer)
    requires Holds(mem, rd, wr, recs) && ConsumerInv(mem, rd, recs, cons)
    requires |mem'| == |mem| && AgreeOn(mem, mem', rd, wr)
    ensures ConsumerInv(mem', rd, recs, cons)
  {
    if cons.GotLen? {
      FirstFits(mem, rd, wr, recs);
      HeaderFrame(mem, mem', rd, wr, rd);
    }
  }

  lemma {:induction false} StoreByteKeeps(s: State, s': State)
    requires Inv(s) && StoreByte(s, s')
    ensures Inv(s')
  {
    var Writing(payload, p, k) := s.prod;
    StoreAgrees(s.mem, s.rd, s.wr, p, payload, k, StoreValue(p, payload, k));
    StoreExtends(s.mem, p, payload, k);
    HoldsFrame(s.mem, s'.mem, s.rd, s.wr, s.recs);
    ReaderFrame(s.mem, s'.mem, s.rd, s.wr, s.recs, s.cons);
  }

  /** The oldest record in flight. */
  lemma {:induction false} FirstFits(mem: seq<byte>, rd: nat, wr: nat, recs: seq<Record>)
    requires Holds(mem, rd, wr, recs) && recs != []
    ensures var r := recs[0];
            && r.start == rd && Stored(mem, r) && r.start <= r.data && r.End() <= wr
            && Off(rd, |mem|) + 8 <= |mem| && rd + 8 <= wr
            && (r.data != r.start ==> r.start + 8 <= r.data)
            && Off(Off(rd, TWO64), |mem|) == Off(rd, |mem|)
  {
    assert Stored(mem, recs[0]);
    PlacedBounds(|mem|, recs[0]);
    CounterOffset(rd, |mem|);
  }

  /** The eight header bytes, once written, read back as the header. */
  lemma {:induction false} HeaderBack(mem: seq<byte>, off: nat, len: nat, kind: nat)
    requires off + 8 <= |mem| && len < TWO32 && kind < TWO32
    requires forall j | 0 <= j < 8 :: mem[off + j] == Header(len, kind)[j]
    ensures HeaderIs(mem, off, len, kind)
  {
    var h := Header(len, kind);
    assert mem[off..off + 4] == h[0..0 + 4];
    assert mem[off + 4..off + 4 + 4] == h[4..4 + 4];
    U32Agree(mem, off, h, 0);
    U32Agree(mem, off + 4, h, 4);
  }

  /** Where a granted record goes. */
  lemma {:induction false} PlanPlaced(mem: seq<byte>, rd: nat, wr: nat, p: Plan, payload: nat)
    requires Geometry(|mem|) && PlanFits(|mem|, p, payload) && ReservedFree(|mem|, rd, wr, p)
    requires rd <= wr && Aligned(wr)
    ensures var r := NewRecord(mem, wr, p, payload);
            && Placed(|mem|, r) && Off(r.data, |mem|) == p.Base() && r.End() == wr + p.Total()
            && |r.pay| == p.rec - 8
    ensures p.Wrap? ==> Off(wr, |mem|) == p.off && p.toEnd == |mem| - p.off
  {
    AlignedSum(p.rec, 8);
    if p.Wrap? {
      OffAdd(wr, p.toEnd, |mem|);
      ToEndAligned(wr, |mem|);
    }
  }

  lemma {:induction false} FilledHeader(mem: seq<byte>, p: Plan, payload: seq<byte>)
    requires |mem| < TWO32 && PlanFits(|mem|, p, |payload|) && !p.Refuse?
    requires Written(mem, p, payload, StoreCount(p, payload))
    ensures HeaderIs(mem, p.Base(), p.rec, DATA)
  {
    var skip := if p.Wrap? then 8 else 0;
    forall j | 0 <= j < 8
      ensures mem[p.Base() + j] == Header(p.rec, DATA)[j]
    {
      assert StoreAddr(p, payload, skip + j) == p.Base() + j;
    }
    HeaderBack(mem, p.Base(), p.rec, DATA);
  }

  lemma {:induction false} FilledSkip(mem: seq<byte>, p: Plan, payload: seq<byte>)
    requires |mem| < TWO32 && PlanFits(|mem|, p, |payload|) && p.Wrap?
    requires Written(mem, p, payload, StoreCount(p, payload))
    ensures HeaderIs(mem, p.off, p.toEnd, SKIP)
  {
    forall j | 0 <= j < 8
      ensures mem[p.off + j] == Header(p.toEnd, SKIP)[j]
    {
      assert StoreAddr(p, payload, j) == p.off + j;
    }
    HeaderBack(mem, p.off, p.toEnd, SKIP);
  }

  lemma {:induction false} FilledPayload(mem: seq<byte>, wr: nat, p: Plan, payload: seq<byte>)
    requires |mem| < TWO32 && PlanFits(|mem|, p, |payload|) && !p.Refuse?
    requires Written(mem, p, payload, StoreCount(p, payload))
    ensures Padded(NewRecord(mem, wr, p, |payload|).pay, payload)
  {
    var skip := if p.Wrap? then 16 else 8;
    var pay := NewRecord(mem, wr, p, |payload|).pay;
    forall j | 0 <= j < |payload|
      ensures pay[j] == payload[j]
    {
      assert StoreAddr(p, payload, skip + j) == p.Base() + 8 + j;
    }
  }

  /** Once every store is made, the reserved bytes are a record carrying the payload. */
  lemma {:induction false} FilledRecord(mem: seq<byte>, rd: nat, wr: nat, p: Plan, payload: seq<byte>)
    requires Geometry(|mem|) && PlanFits(|mem|, p, |payload|) && ReservedFree(|mem|, rd, wr, p)
    requires rd <= wr && Aligned(wr) && Written(mem, p, payload, StoreCount(p, payload))
    ensures Stored(mem, NewRecord(mem, wr, p, |payload|))
  {
    PlanPlaced(mem, rd, wr, p, |payload|);
    FilledHeader(mem, p, payload);
    if p.Wrap? {
      FilledSkip(mem, p, payload);
    }
  }

  lemma {:induction false} TotalAligned(n: nat, p: Plan, payload: nat)
    requires Geometry(n) && PlanFits(n, p, payload)
    ensures Aligned(p.Total())
  {
    if p.Wrap? {
      SizeOkMeaning(n);
      AlignedSum(n, p.off);
      AlignedSum(p.toEnd, p.rec);
    }
  }

  lemma {:induction false} AdvancePosition(p: nat, len: nat, n: nat)
    requires Geometry(n) && Aligned(p) && Aligned(len) && len <= n
    ensures Add64(Off(p, TWO64), len) == Off(p + len, TWO64)
    ensures Aligned(p + len) && Aligned(Off(p + len, TWO64))
  {
    CounterAdvance(p, len);
    AlignedSum(p, len);
    CounterOffset(p + len, n);
  }

  /** A filled reservation is the next record of the queue. */
  lemma {:induction false} QueueGrows(
    mem: seq<byte>, rd: nat, wr: nat, recs: seq<Record>, p: Plan, payload: seq<byte>)
    requires Holds(mem, rd, wr, recs) && PlanFits(|mem|, p, |payload|) && ReservedFree(|mem|, rd, wr, p)
    requires rd <= wr && Aligned(wr) && Written(mem, p, payload, StoreCount(p, payload))
    ensures Holds(mem, rd, wr + p.Total(), recs + [NewRecord(mem, wr, p, |payload|)])
    ensures Padded(NewRecord(mem, wr, p, |payload|).pay, payload)
  {
    PlanPlaced(mem, rd, wr, p, |payload|);
    FilledRecord(mem, rd, wr, p, payload);
    FilledPayload(mem, wr, p, payload);
    HoldsAppend(mem, rd, wr, recs, NewRecord(mem, wr, p, |payload|));
  }

  lemma {:induction false} TailMoves(n: nat, head: nat, tail: nat, rd: nat, wr: nat, p: Plan, payload: nat)
    requires Geometry(n) && Counters(n, head, tail, rd, wr) && PlanFits(n, p, payload) && ReservedFree(n, rd, wr, p)
    ensures Counters(n, head, Add64(tail, p.Total()), rd, wr + p.Total())
    ensures Add64(tail, p.Total()) < TWO64 && Aligned(Add64(tail, p.Total()))
  {
    TotalAligned(n, p, payload);
    AdvancePosition(wr, p.Total(), n);
  }

  lemma {:induction false} HeadMoves(n: nat, head: nat, tail: nat, rd: nat, wr: nat, len: nat)
    requires Geometry(n) && Counters(n, head, tail, rd, wr) && Aligned(len) && len <= n && rd + len <= wr
    ensures Counters(n, Add64(head, len), tail, rd + len, wr)
    ensures Add64(head, len) < TWO64 && Aligned(Add64(head, len))
  {
    AdvancePosition(rd, len, n);
  }

  lemma {:induction false} FifoSend(
    sent: seq<seq<byte>>, got: seq<seq<byte>>, recs: seq<Record>, r: Record, payload: seq<byte>)
    requires Fifo(sent, got, recs) && Padded(r.pay, payload)
    ensures Fifo(sent + [payload], got, recs + [r])
  {
    var sent', recs' := sent + [payload], recs + [r];
    forall i | 0 <= i < |recs'|
      ensures Padded(recs'[i].pay, sent'[|got| + i])
    {
      if i < |recs| {
        assert recs'[i] == recs[i] && sent'[|got| + i] == sent[|got| + i];
      }
    }
  }

  /** The queue with one more record, in terms of that record alone. */
  lemma {:induction false} AppendKeeps(s: State, s': State, payload: seq<byte>, r: Record)
    requires Inv(s) && Padded(r.pay, payload)
    requires s' == s.(tail := s'.tail, prod := Ready, sent := s.sent + [payload], wr := s'.wr, recs := s.recs + [r])
    requires Counters(|s.mem|, s.head, s'.tail, s.rd, s'.wr) && s'.tail < TWO64 && Aligned(s'.tail)
    requires Holds(s.mem, s.rd, s'.wr, s.recs + [r])
    ensures Inv(s')
  {
    FifoSend(s.sent, s.got, s.recs, r, payload);
    ReaderAppend(s.mem, s.rd, s.recs, r, s.cons);
  }

  lemma {:induction false} PublishKeeps(s: State, s': State)
    requires Inv(s) && Publish(s, s')
    ensures Inv(s')
  {
    var Writing(payload, p, _) := s.prod;
    QueueGrows(s.mem, s.rd, s.wr, s.recs, p, payload);
    TailMoves(|s.mem|, s.head, s.tail, s.rd, s.wr, p, |payload|);
    AppendKeeps(s, s', payload, NewRecord(s.mem, s.wr, p, |payload|));
  }

  lemma {:induction false} ReaderAppend(mem: seq<byte>, rd: nat, recs: seq<Record>, r: Record, cons: Consumer)
    requires |mem| > 0 && ConsumerInv(mem, rd, recs, cons)
    ensures ConsumerInv(mem, rd, recs + [r], cons)
  {
  }

  // ── Consumer steps keep it ─────────────────────────────────────────────────

  /** A step that only changes what the consumer knows. */
  lemma {:induction false} ReaderOnly(s: State, s': State)
    requires Inv(s) && s' == s.(cons := s'.cons)
    requires WfConsumer(|s.mem|, s.head, s'.cons) && ConsumerInv(s.mem, s.rd, s.recs, s'.cons)
    ensures Inv(s')
  {
  }

  lemma {:induction false} LoadTailKeeps(s: State, s': State)
    requires Inv(s) && LoadTail(s, s')
    ensures Inv(s')
  {
    CounterDistance(s.rd, s.wr);
    if s.recs != [] {
      FirstFits(s.mem, s.rd, s.wr, s.recs);
    }
    ReaderOnly(s, s');
  }

  lemma {:induction false} ReadLenKeeps(s: State, s': State)
    requires Inv(s) && ReadLen(s, s')
    ensures Inv(s')
  {
    FirstFits(s.mem, s.rd, s.wr, s.recs);
    ReaderOnly(s, s');
  }

  /** The checks on the oldest record's header pass. */
  lemma {:induction false} FirstJudged(mem: seq<byte>, r: Record, avail: nat)
    requires Geometry(|mem|) && Stored(mem, r) && r.start <= r.data && r.End() <= r.start + avail
    ensures var off := Off(r.start, |mem|);
            && off + 8 <= |mem|
            && Judge(|mem|, off, avail, U32(mem, off), U32(mem, off + 4))
               == if r.data == r.start then DataRecord(8 + |r.pay|) else SkipRecord(r.data - r.start)
  {
    PlacedBounds(|mem|, r);
    if r.data == r.start {
      AlignedSum(8, |r.pay|);
    } else {
      ToEndAligned(r.start, |mem|);
    }
  }

  lemma {:induction false} ReadKindKeeps(s: State, s': State)
    requires Inv(s) && ReadKind(s, s')
    ensures Inv(s')
  {
    var r := s.recs[0];
    FirstFits(s.mem, s.rd, s.wr, s.recs);
    FirstJudged(s.mem, r, s.cons.avail);
    AlignedSum(8, |r.pay|);
    AlignedSum(r.data, r.start);
    ReaderOnly(s, s');
  }

  lemma {:induction false} SkipPastKeeps(s: State, s': State)
    requires Inv(s) && SkipPast(s, s')
    ensures Inv(s')
  {
    SkippedOver(s.mem, s.rd, s.wr, s.recs, s.cons);
    HeadMoves(|s.mem|, s.head, s.tail, s.rd, s.wr, s.cons.len);
    FifoSkip(s.sent, s.got, s.recs);
    HeadKeeps(s, s', s.got, PastSkip(s.recs));
  }

  /** What is in flight once the skip in front of the oldest record is passed. */
  lemma {:induction false} SkippedOver(mem: seq<byte>, rd: nat, wr: nat, recs: seq<Record>, cons: Consumer)
    requires Holds(mem, rd, wr, recs) && ConsumerInv(mem, rd, recs, cons) && cons.Skipping?
    ensures recs != [] && Holds(mem, rd + cons.len, wr, PastSkip(recs)) && rd + cons.len <= wr
  {
    FirstFits(mem, rd, wr, recs);
    HoldsPastSkip(mem, rd, wr, recs);
  }

  /** The head moved on, in terms of what is then in flight alone. */
  lemma {:induction false} HeadKeeps(s: State, s': State, got: seq<seq<byte>>, recs: seq<Record>)
    requires Inv(s) && s.rd <= s'.rd
    requires s' == s.(head := s'.head, cons := Looking, got := got, rd := s'.rd, recs := recs)
    requires Counters(|s.mem|, s'.head, s.tail, s'.rd, s.wr) && s'.head < TWO64 && Aligned(s'.head)
    requires Holds(s.mem, s'.rd, s.wr, recs) && Fifo(s.sent, got, recs)
    ensures Inv(s')
  {
  }

  lemma {:induction false} FifoSkip(sent: seq<seq<byte>>, got: seq<seq<byte>>, recs: seq<Record>)
    requires Fifo(sent, got, recs) && recs != []
    ensures Fifo(sent, got, PastSkip(recs))
  {
    var recs' := PastSkip(recs);
    forall i | 0 <= i < |recs'|
      ensures Padded(recs'[i].pay, sent[|got| + i])
    {
      assert Padded(recs[i].pay, sent[|got| + i]);
    }
  }

  lemma {:induction false} CopyByteKeeps(s: State, s': State)
    requires Inv(s) && CopyByte(s, s')
    ensures Inv(s')
  {
    FirstFits(s.mem, s.rd, s.wr, s.recs);
    NextByte(s.mem, s.recs[0], |s.cons.buf|);
    ReaderOnly(s, s');
  }

  lemma {:induction false} NextByte(mem: seq<byte>, r: Record, k: nat)
    requires |mem| > 0 && Stored(mem, r) && k < |r.pay|
    ensures Off(r.data, |mem|) + 8 + k < |mem|
    ensures mem[Off(r.data, |mem|) + 8 + k] == r.pay[k]
  {
  }

  lemma {:induction false} ReleaseKeeps(s: State, s': State)
    requires Inv(s) && Release(s, s')
    ensures Inv(s')
  {
    CopiedAll(s.mem, s.rd, s.wr, s.recs, s.cons);
    HeadMoves(|s.mem|, s.head, s.tail, s.rd, s.wr, s.cons.len);
    FifoReceive(s.sent, s.got, s.recs);
    HeadKeeps(s, s', s.got + [s.cons.buf], s.recs[1..]);
  }

  /** A finished copy is the oldest record's payload. */
  lemma {:induction false} CopiedAll(mem: seq<byte>, rd: nat, wr: nat, recs: seq<Record>, cons: Consumer)
    requires Holds(mem, rd, wr, recs) && ConsumerInv(mem, rd, recs, cons)
    requires cons.Copying? && |cons.buf| == cons.len - 8
    ensures recs != [] && cons.buf == recs[0].pay
    ensures Holds(mem, rd + cons.len, wr, recs[1..]) && rd + cons.len <= wr
  {
    RestAfter(mem, rd, wr, recs, cons.len);
  }

  /** What is in flight once the oldest record, of `len` bytes, is released. */
  lemma {:induction false} RestAfter(mem: seq<byte>, rd: nat, wr: nat, recs: seq<Record>, len: nat)
    requires Holds(mem, rd, wr, recs) && recs != [] && recs[0].data == rd && len == 8 + |recs[0].pay|
    ensures Holds(mem, rd + len, wr, recs[1..]) && rd + len <= wr
  {
    FirstFits(mem, rd, wr, recs);
    HoldsRest(mem, rd, wr, recs);
  }

  lemma {:induction false} FifoReceive(sent: seq<seq<byte>>, got: seq<seq<byte>>, recs: seq<Record>)
    requires Fifo(sent, got, recs) && recs != []
    ensures Fifo(sent, got + [recs[0].pay], recs[1..])
  {
    var got', recs' := got + [recs[0].pay], recs[1..];
    assert Padded(recs[0].pay, sent[|got| + 0]);
    forall i | 0 <= i < |recs'|
      ensures Padded(recs'[i].pay, sent[|got'| + i])
    {
      assert Padded(recs[i + 1].pay, sent[|got| + (i + 1)]);
    }
  }

  // ── Whole runs ─────────────────────────────────────────────────────────────

  /** A fresh ring; the counters may start at any aligned value. */
  ghost predicate Init(s: State) {
    && Wf(s) && Counters(|s.mem|, s.head, s.tail, s.rd, s.wr) && s.rd == s.wr && s.prod.Ready? && s.cons.Looking?
    && s.sent == [] && s.got == [] && s.recs == []
  }

  ghost predicate IsRun(run: seq<State>) {
    && run != [] && Init(run[0])
    && forall i | 0 < i < |run| :: Next(run[i - 1], run[i])
  }

  lemma {:induction false} NextKeeps(s: State, s': State)
    requires Inv(s) && Next(s, s')
    ensures Inv(s')
  {
    if StoreByte(s, s') {
      StoreByteKeeps(s, s');
    } else if Publish(s, s') {
      PublishKeeps(s, s');
    } else if LoadTail(s, s') {
      LoadTailKeeps(s, s');
    } else if ReadLen(s, s') {
      ReadLenKeeps(s, s');
    } else if ReadKind(s, s') {
      ReadKindKeeps(s, s');
    } else if SkipPast(s, s') {
      SkipPastKeeps(s, s');
    } else if CopyByte(s, s') {
      CopyByteKeeps(s, s');
    } else if Release(s, s') {
      ReleaseKeeps(s, s');
    } else {
      var payload :| LoadHead(s, s', payload);
      LoadHeadKeeps(s, s', payload);
    }
  }

  lemma {:induction false} RunKeeps(run: seq<State>, i: nat)
    requires IsRun(run) && i < |run|
    ensures Inv(run[i])
  {
    if i > 0 {
      RunKeeps(run, i - 1);
      NextKeeps(run[i - 1], run[i]);
    }
  }

  /** The stores a producer still has to make, all of them, lie inside the region and miss
      every byte in flight. */
  ghost predicate WritesOnlyFree(s: State) {
    s.prod.Writing? ==>
      forall k | 0 <= k < StoreCount(s.prod.plan, s.prod.payload) ::
        && StoreAddr(s.prod.plan, s.prod.payload, k) < |s.mem|
        && forall i | s.rd <= i < s.wr :: StoreAddr(s.prod.plan, s.prod.payload, k) != Off(i, |s.mem|)
  }

  /** The bytes from the head that a consumer in mid-record is about to read. */
  function ReadAhead(c: Consumer): nat {
    match c
    case GotTail(_) => 8
    case GotLen(_, _) => 8
    case Copying(len, _) => len
    case _ => 0
  }

  /** Everything the consumer reads lies inside the region and is in flight. */
  ghost predicate ReadsOnlyPublished(s: State) {
    && |s.mem| > 0 && Off(s.head, |s.mem|) + ReadAhead(s.cons) <= |s.mem|
    && s.rd + ReadAhead(s.cons) <= s.wr
    && forall i | s.rd <= i < s.rd + ReadAhead(s.cons) :: Off(i, |s.mem|) == Off(s.head, |s.mem|) + (i - s.rd)
  }

  lemma {:induction false} WritesAreFree(s: State)
    requires Inv(s)
    ensures WritesOnlyFree(s)
  {
    if s.prod.Writing? {
      var Writing(payload, p, _) := s.prod;
      forall k | 0 <= k < StoreCount(p, payload)
        ensures StoreAddr(p, payload, k) < |s.mem|
        ensures forall i | s.rd <= i < s.wr :: StoreAddr(p, payload, k) != Off(i, |s.mem|)
      {
        StoreLands(|s.mem|, s.rd, s.wr, p, payload, k);
        forall i | s.rd <= i < s.wr
          ensures StoreAddr(p, payload, k) != Off(i, |s.mem|)
        {
          StoreMissesFlight(|s.mem|, s.rd, s.wr, p, payload, k, i);
        }
      }
    }
  }

  lemma {:induction false} ReadsArePublished(s: State)
    requires Inv(s)
    ensures ReadsOnlyPublished(s)
  {
    var n := |s.mem|;
    CounterOffset(s.rd, n);
    if s.recs != [] {
      FirstFits(s.mem, s.rd, s.wr, s.recs);
    }
    forall i | s.rd <= i < s.rd + ReadAhead(s.cons)
      ensures Off(i, n) == Off(s.head, n) + (i - s.rd)
    {
      OffAdd(s.rd, i - s.rd, n);
    }
  }

  /** In every run, whatever the interleaving and wherever the counters wrap: the consumer never
      sees a malformed ring, payloads come out in order and unaltered up to padding, an empty ring
      means nothing was lost, and the two sides never touch the same byte. */
  lemma {:induction false} EveryRunIsFifo(run: seq<State>, i: nat)
    requires IsRun(run) && i < |run|
    ensures var s := run[i];
            && !s.cons.Corrupt?
            && |s.got| <= |s.sent| && (forall k | 0 <= k < |s.got| :: Padded(s.got[k], s.sent[k]))
            && (s.head == s.tail ==> |s.got| == |s.sent|)
            && WritesOnlyFree(s) && ReadsOnlyPublished(s)
  {
    RunKeeps(run, i);
    var s := run[i];
    WritesAreFree(s);
    ReadsArePublished(s);
    CounterDistance(s.rd, s.wr);
    if s.recs != [] {
      FirstFits(s.mem, s.rd, s.wr, s.recs);
    }
  }

  /** The payloads sent and not yet popped. */
  function Queue(s: State): seq<seq<byte>>
    requires |s.got| <= |s.sent|
  {
    s.sent[|s.got|..]
  }

  /** Each step enqueues at the back, dequeues from the front, or leaves the queue alone. */
  ghost predicate QueueStep(s: State, s': State)
    requires |s.got| <= |s.sent| && |s'.got| <= |s'.sent|
  {
    var q, q' := Queue(s), Queue(s');
    || (q' == q && s'.got == s.got)
    || (s.prod.Writing? && q' == q + [s.prod.payload] && s'.got == s.got)
    || (q != [] && q' == q[1..] && |s'.got| == |s.got| + 1 && s'.got[..|s.got|] == s.got
        && Padded(s'.got[|s.got|], q[0]))
  }

  lemma {:induction false} StepRefinesQueue(s: State, s': State)
    requires Inv(s) && Next(s, s')
    ensures |s.got| <= |s.sent| && |s'.got| <= |s'.sent| && QueueStep(s, s')
  {
    if Publish(s, s') {
      assert Queue(s') == Queue(s) + [s.prod.payload];
    } else if Release(s, s') {
      ReleaseQueue(s, s');
    }
  }

  lemma {:induction false} ReleaseQueue(s: State, s': State)
    requires Inv(s) && Release(s, s')
    ensures |s.got| < |s.sent| && QueueStep(s, s')
  {
    var pay := s.recs[0].pay;
    assert s.cons.buf == pay;
    assert Padded(s.recs[0].pay, s.sent[|s.got| + 0]);
    assert Queue(s') == Queue(s)[1..];
  }

  // ── Every payload is delivered ─────────────────────────────────────────────

  ghost predicate ConsumerStep(s: State, s': State) {
    LoadTail(s, s') || ReadLen(s, s') || ReadKind(s, s') || SkipPast(s, s') || CopyByte(s, s') || Release(s, s')
  }

  /** How many steps the consumer still has to make until it has popped record `r`. */
  function Rank(cons: Consumer, rd: nat, r: Record): int {
    var skip := if r.data == rd then 0 else 4;
    match cons
    case Looking => |r.pay| + 4 + skip
    case GotTail(_) => |r.pay| + 3 + skip
    case GotLen(_, _) => |r.pay| + 2 + skip
    case Skipping(_) => |r.pay| + 5
    case Copying(_, buf) => |r.pay| - |buf| + 1
    case Corrupt => 0
  }

  /** A consumer's step pops the oldest record or brings it one step closer. */
  lemma {:induction false} ConsumerAdvances(s: State, s': State)
    requires Inv(s) && s.recs != [] && ConsumerStep(s, s')
    ensures || |s'.got| == |s.got| + 1
            || (&& s'.got == s.got && s'.recs != []
                && Rank(s'.cons, s'.rd, s'.recs[0]) == Rank(s.cons, s.rd, s.recs[0]) - 1)
  {
    FirstFits(s.mem, s.rd, s.wr, s.recs);
    if LoadTail(s, s') {
      CounterDistance(s.rd, s.wr);
    } else if ReadKind(s, s') {
      FirstJudged(s.mem, s.recs[0], s.cons.avail);
    }
  }

  /** The consumer can always go on. */
  lemma {:induction false} ConsumerEnabled(s: State)
    requires Inv(s)
    ensures exists s' :: ConsumerStep(s, s')
  {
    if s.recs != [] {
      FirstFits(s.mem, s.rd, s.wr, s.recs);
      CounterOffset(s.rd, |s.mem|);
    }
    match s.cons
    case Looking =>
      var avail := Sub64(s.tail, s.head);
      var cons := if avail == 0 then Looking else if avail < HDR || avail > |s.mem| then Corrupt else GotTail(avail);
      var s' := s.(cons := cons);
      assert LoadTail(s, s') && ConsumerStep(s, s');
    case GotTail(avail) =>
      var s' := s.(cons := GotLen(avail, U32(s.mem, Off(s.head, |s.mem|))));
      assert ReadLen(s, s') && ConsumerStep(s, s');
    case GotLen(avail, len) =>
      KindEnabled(s);
    case Skipping(len) =>
      var s' := s.(head := Add64(s.head, len), cons := Looking, rd := s.rd + len, recs := PastSkip(s.recs));
      assert SkipPast(s, s') && ConsumerStep(s, s');
    case Copying(len, buf) =>
      CopyEnabled(s);
  }

  lemma {:induction false} KindEnabled(s: State)
    requires Wf(s) && s.cons.GotLen? && Off(s.head, |s.mem|) + 8 <= |s.mem|
    ensures exists s' :: ConsumerStep(s, s')
  {
    var off := Off(s.head, |s.mem|);
    var cons := match Judge(|s.mem|, off, s.cons.avail, s.cons.len, U32(s.mem, off + 4))
                case Malformed => Corrupt
                case SkipRecord(len) => Skipping(len)
                case DataRecord(len) => Copying(len, []);
    var s' := s.(cons := cons);
    assert ReadKind(s, s') && ConsumerStep(s, s');
  }

  lemma {:induction false} CopyEnabled(s: State)
    requires Wf(s) && s.cons.Copying?
    ensures exists s' :: ConsumerStep(s, s')
  {
    var Copying(len, buf) := s.cons;
    if |buf| < len - 8 {
      var next := s.(cons := Copying(len, buf + [s.mem[Off(s.head, |s.mem|) + 8 + |buf|]]));
      assert CopyByte(s, next) && ConsumerStep(s, next);
    } else {
      var next := s.(head := Add64(s.head, len), cons := Looking, got := s.got + [buf], rd := s.rd + len,
                     recs := if s.recs == [] then [] else s.recs[1..]);
      assert Release(s, next) && ConsumerStep(s, next);
    }
  }

  /** The consumer's steps between two states of a run. */
  ghost function ConsumerSteps(run: seq<State>, i: nat, j: nat): nat
    requires i <= j < |run|
    decreases j
  {
    if i == j then 0 else ConsumerSteps(run, i, j - 1) + Moves(run[j - 1], run[j])
  }

  /** The producer does not set the consumer back. */
  lemma {:induction false} ProducerKeepsRank(s: State, s': State)
    requires Inv(s) && s.recs != [] && Next(s, s') && !ConsumerStep(s, s')
    ensures s'.got == s.got && s'.recs != [] && s'.cons == s.cons && s'.rd == s.rd && s'.recs[0] == s.recs[0]
  {
  }

  /** Every step of the run is counted, and nothing popped is taken back. */
  ghost predicate AllCounted(run: seq<State>) {
    forall k | 0 < k < |run| :: Counted(run[k - 1], run[k]) && |run[k - 1].got| <= |run[k].got|
  }

  lemma {:induction false} GotGrows(run: seq<State>, i: nat, j: nat)
    requires AllCounted(run) && i <= j < |run|
    ensures |run[i].got| <= |run[j].got|
    decreases j
  {
    if i < j {
      GotGrows(run, i, j - 1);
    }
  }

  /** The steps the consumer still has to make until the oldest record is popped. */
  function Left(s: State): int {
    if s.recs == [] then 0 else Rank(s.cons, s.rd, s.recs[0])
  }

  lemma {:induction false} StepsCount(run: seq<State>, i: nat, j: nat)
    requires AllCounted(run) && i <= j < |run| && run[i].recs != [] && |run[j].got| == |run[i].got|
    ensures run[j].recs != [] && ConsumerSteps(run, i, j) + Left(run[j]) == Left(run[i])
    decreases j
  {
    if i < j {
      GotGrows(run, i, j - 1);
      StepsCount(run, i, j - 1);
    }
  }

  /** What a step leaves the consumer to do, its own step counted. */
  ghost predicate Counted(s: State, s': State) {
    s.recs != [] && |s'.got| == |s.got| ==>
      s'.recs != [] && Moves(s, s') + Left(s') == Left(s)
  }

  ghost function Moves(s: State, s': State): nat {
    if ConsumerStep(s, s') then 1 else 0
  }

  lemma {:induction false} RankAt(run: seq<State>, j: nat)
    requires IsRun(run) && 0 < j < |run|
    ensures Counted(run[j - 1], run[j]) && |run[j - 1].got| <= |run[j].got|
  {
    PrefixIsRun(run, j);
    RunRank(run[..j], run[j - 1], run[j]);
  }

  lemma {:induction false} RunCounted(run: seq<State>)
    requires IsRun(run)
    ensures AllCounted(run)
  {
    forall j | 0 < j < |run|
      ensures Counted(run[j - 1], run[j]) && |run[j - 1].got| <= |run[j].got|
    {
      RankAt(run, j);
    }
  }

  lemma {:induction false} PrefixIsRun(run: seq<State>, j: nat)
    requires IsRun(run) && 0 < j < |run|
    ensures IsRun(run[..j]) && run[..j][j - 1] == run[j - 1] && Next(run[j - 1], run[j])
  {
    forall k | 0 < k < j
      ensures Next(run[..j][k - 1], run[..j][k])
    {
      assert run[..j][k - 1] == run[k - 1] && run[..j][k] == run[k];
    }
  }

  lemma {:induction false} RunRank(run: seq<State>, s: State, s': State)
    requires IsRun(run) && s == run[|run| - 1] && Next(s, s')
    ensures Counted(s, s') && |s.got| <= |s'.got|
  {
    RunKeeps(run, |run| - 1);
    StepRank(s, s');
    StepRefinesQueue(s, s');
  }

  lemma {:induction false} StepRank(s: State, s': State)
    requires Inv(s) && Next(s, s')
    ensures Counted(s, s')
  {
    if s.recs != [] {
      if ConsumerStep(s, s') {
        ConsumerAdvances(s, s');
      } else {
        ProducerKeepsRank(s, s');
      }
    }
  }

  lemma {:induction false} RankBounds(s: State)
    requires Inv(s) && s.recs != []
    ensures |s.got| < |s.sent|
    ensures 1 <= Rank(s.cons, s.rd, s.recs[0]) <= |s.sent[|s.got|]| + 15
  {
    assert Padded(s.recs[0].pay, s.sent[|s.got| + 0]);
  }

  /** In every run, however the producer's steps fall in between: while a payload is waiting the consumer
      can go on, and by its own next steps, at most fifteen more than the payload has bytes, it has popped
      the oldest payload. */
  lemma {:induction false} EveryPayloadIsDelivered(run: seq<State>, i: nat, j: nat)
    requires IsRun(run) && i <= j < |run| && |run[i].got| < |run[i].sent|
    requires ConsumerSteps(run, i, j) >= |run[i].sent[|run[i].got|]| + 15
    ensures |run[i].got| < |run[j].got| && Padded(run[j].got[|run[i].got|], run[i].sent[|run[i].got|])
    ensures exists s :: ConsumerStep(run[i], s)
  {
    RunKeeps(run, i);
    RunKeeps(run, j);
    ConsumerEnabled(run[i]);
    RunCounted(run);
    GotGrows(run, i, j);
    if |run[j].got| == |run[i].got| {
      StepsCount(run, i, j);
      RankBounds(run[i]);
      RankBounds(run[j]);
    }
    SentKept(run, i, j);
  }

  lemma {:induction false} SentKept(run: seq<State>, i: nat, j: nat)
    requires IsRun(run) && i <= j < |run|
    ensures run[i].sent <= run[j].sent
    decreases j
  {
    if i < j {
      SentKept(run, i, j - 1);
    }
  }
}

/**
  What the bytes between two unbounded stream positions mean: the queue of payloads a
  ring holds.  Position `p` of the stream lives at offset `Off(p, |mem|)`; the 64-bit
  counters are positions reduced modulo 2^64.
 */
module RingFifo {
  import opened Bits
  import opened Bytes
  import opened Ring

  ghost predicate Geometry(n: nat) {
    SizeOk(n) && n <= MAX_CAP
  }

  /** Two stream positions less than a capacity apart never share a byte. */
  lemma {:induction false} NoAlias(p: nat, q: nat, n: nat)
    requires n > 0 && p < q < p + n
    ensures Off(p, n) != Off(q, n)
  {
    OffAdd(p, q - p, n);
  }

  /** A counter kept modulo 2^64 gives the same offset as the stream position. */
  lemma {:induction false} CounterOffset(p: nat, n: nat)
    requires Geometry(n)
    ensures Off(Off(p, TWO64), n) == Off(p, n)
    ensures Aligned(p) ==> Aligned(Off(p, TWO64))
  {
    var c := Off(p, TWO64);
    SizeOkMeaning(n);
    OffIsMod(p, TWO64);
    OffIsMod(p, n);
    OffIsMod(c, n);
    ModMod(p, n, TWO64);
    ModMod(p, 8, TWO64);
    AlignedIsMod(p);
    AlignedIsMod(c);
  }

  lemma {:induction false} ToEndAligned(p: nat, n: nat)
    requires Geometry(n) && Aligned(p)
    ensures Aligned(n - Off(p, n)) && Aligned(p + (n - Off(p, n)))
  {
    HeaderInside(p, n);
    SizeOkMeaning(n);
    AlignedSum(n, Off(p, n));
    AlignedSum(p, n - Off(p, n));
  }

  /** Counter differences are stream distances, also across counter wrap. */
  lemma {:induction false} CounterDistance(h: nat, t: nat)
    requires h <= t < h + TWO64
    ensures Sub64(Off(t, TWO64), Off(h, TWO64)) == t - h
  {
    OffAdd(h, t - h, TWO64);
  }

  lemma {:induction false} CounterAdvance(p: nat, k: nat)
    requires k < TWO64
    ensures Add64(Off(p, TWO64), k) == Off(p + k, TWO64)
  {
    OffAdd(p, k, TWO64);
  }

  // ── The meaning of a stretch of bytes ──────────────────────────────────────

  /** One published record: it starts at stream position `start`, with a skip when its data
      record is elsewhere (`data`), and carries `pay` (padding included). */
  datatype Record = Record(start: nat, data: nat, pay: seq<byte>)
  {
    function End(): nat {
      data + 8 + |pay|
    }
  }

  /** The bytes `bs` are in memory at offset `off`. */
  predicate Window(mem: seq<byte>, off: nat, bs: seq<byte>) {
    off + |bs| <= |mem| && forall j | 0 <= j < |bs| :: bs[j] == mem[off + j]
  }

  /** The header at `off` reads (len, kind). */
  predicate HeaderIs(mem: seq<byte>, off: nat, len: nat, kind: nat) {
    off + 8 <= |mem| && U32(mem, off) == len && U32(mem, off + 4) == kind
  }

  /** The data record starts in place, or at offset zero after a skip to the end. */
  predicate Placed(n: nat, r: Record)
    requires n > 0
  {
    && Aligned(r.start) && Aligned(r.data) && Aligned(|r.pay|)
    && Off(r.data, n) + 8 + |r.pay| <= n
    && (r.data == r.start || (r.data == r.start + (n - Off(r.start, n)) && Off(r.data, n) == 0))
  }

  /** The bytes of `r` are in memory. */
  predicate Stored(mem: seq<byte>, r: Record)
    requires |mem| > 0
  {
    var n := |mem|;
    && Placed(n, r)
    && HeaderIs(mem, Off(r.data, n), 8 + |r.pay|, DATA)
    && Window(mem, Off(r.data, n) + 8, r.pay)
    && (r.data != r.start ==> HeaderIs(mem, Off(r.start, n), n - Off(r.start, n), SKIP))
  }

  /** The records follow one another from `p` to `t`. */
  predicate Chain(recs: seq<Record>, p: nat, t: nat) {
    && (recs == [] ==> p == t)
    && (recs != [] ==> recs[0].start == p && recs[|recs| - 1].End() == t)
    && (forall i | 0 <= i < |recs| :: p <= recs[i].start <= recs[i].data && recs[i].End() <= t)
    && (forall i | 0 < i < |recs| :: recs[i - 1].End() == recs[i].start)
  }

  /** Stream positions [p, t) hold exactly the records `recs`, oldest first. */
  ghost predicate Holds(mem: seq<byte>, p: nat, t: nat, recs: seq<Record>) {
    && Geometry(|mem|) && Chain(recs, p, t)
    && forall i | 0 <= i < |recs| :: Stored(mem, recs[i])
  }

  // ── Framing, growing and shrinking the queue ───────────────────────────────

  ghost predicate AgreeOn(mem: seq<byte>, mem': seq<byte>, p: nat, t: nat)
    requires |mem| > 0 && |mem'| == |mem|
  {
    forall i | p <= i < t :: mem[Off(i, |mem|)] == mem'[Off(i, |mem|)]
  }

  /** Agreement on positions carries over to a stretch of offsets. */
  lemma {:induction false} AgreeSlice(mem: seq<byte>, mem': seq<byte>, p: nat, t: nat, a: nat, k: nat)
    requires |mem| > 0 && |mem'| == |mem| && AgreeOn(mem, mem', p, t)
    requires p <= a && a + k <= t && Off(a, |mem|) + k <= |mem|
    ensures mem[Off(a, |mem|)..Off(a, |mem|) + k] == mem'[Off(a, |mem|)..Off(a, |mem|) + k]
  {
    var n := |mem|;
    var o := Off(a, n);
    var x, x' := mem[o..o + k], mem'[o..o + k];
    forall i | 0 <= i < k
      ensures x[i] == x'[i]
    {
      OffAdd(a, i, n);
      assert mem[Off(a + i, n)] == mem'[Off(a + i, n)];
    }
  }

  lemma {:induction false} HeaderFrame(mem: seq<byte>, mem': seq<byte>, p: nat, t: nat, a: nat)
    requires |mem| > 0 && |mem'| == |mem| && AgreeOn(mem, mem', p, t)
    requires p <= a && a + 8 <= t && Off(a, |mem|) + 8 <= |mem|
    ensures U32(mem, Off(a, |mem|)) == U32(mem', Off(a, |mem|))
    ensures U32(mem, Off(a, |mem|) + 4) == U32(mem', Off(a, |mem|) + 4)
  {
    var o := Off(a, |mem|);
    AgreeSlice(mem, mem', p, t, a, 4);
    U32Agree(mem, o, mem', o);
    OffAdd(a, 4, |mem|);
    AgreeSlice(mem, mem', p, t, a + 4, 4);
    U32Agree(mem, o + 4, mem', o + 4);
  }

  lemma {:induction false} PayloadFrame(mem: seq<byte>, mem': seq<byte>, p: nat, t: nat, a: nat, pay: seq<byte>)
    requires |mem| > 0 && |mem'| == |mem| && AgreeOn(mem, mem', p, t)
    requires p <= a && a + 8 + |pay| <= t && Window(mem, Off(a, |mem|) + 8, pay)
    ensures Window(mem', Off(a, |mem|) + 8, pay)
  {
    var n := |mem|;
    var o := Off(a, n) + 8;
    forall j | 0 <= j < |pay|
      ensures pay[j] == mem'[o + j]
    {
      OffAdd(a, 8 + j, n);
      assert mem[Off(a + (8 + j), n)] == mem'[Off(a + (8 + j), n)];
    }
  }

  /** Where the bytes of a placed record are. */
  lemma {:induction false} PlacedBounds(n: nat, r: Record)
    requires Geometry(n) && Placed(n, r)
    ensures Off(r.start, n) + 8 <= n
    ensures r.data != r.start ==> r.start + 8 <= r.data
    ensures Aligned(r.End())
  {
    HeaderInside(r.start, n);
    AlignedSum(8, |r.pay|);
    AlignedSum(r.data, 8 + |r.pay|);
  }

  /** A record depends only on the bytes of its own positions. */
  lemma {:induction false} StoredFrame(mem: seq<byte>, mem': seq<byte>, r: Record)
    requires Geometry(|mem|) && |mem'| == |mem| && Stored(mem, r)
    requires r.start <= r.data && AgreeOn(mem, mem', r.start, r.End())
    ensures Stored(mem', r)
  {
    var n := |mem|;
    PlacedBounds(n, r);
    HeaderFrame(mem, mem', r.start, r.End(), r.data);
    PayloadFrame(mem, mem', r.start, r.End(), r.data, r.pay);
    if r.data != r.start {
      HeaderFrame(mem, mem', r.start, r.End(), r.start);
    }
  }

  /** Writes outside [p, t) do not disturb the queue. */
  lemma {:induction false} HoldsFrame(mem: seq<byte>, mem': seq<byte>, p: nat, t: nat, recs: seq<Record>)
    requires Holds(mem, p, t, recs) && |mem'| == |mem| && AgreeOn(mem, mem', p, t)
    ensures Holds(mem', p, t, recs)
  {
    forall i | 0 <= i < |recs|
      ensures Stored(mem', recs[i])
    {
      assert AgreeOn(mem, mem', recs[i].start, recs[i].End());
      StoredFrame(mem, mem', recs[i]);
    }
  }

  lemma {:induction false} ChainAppend(recs: seq<Record>, p: nat, t: nat, r: Record)
    requires Chain(recs, p, t) && p <= t == r.start <= r.data
    ensures Chain(recs + [r], p, r.End())
  {
    var recs' := recs + [r];
    forall i | 0 <= i < |recs'|
      ensures p <= recs'[i].start <= recs'[i].data && recs'[i].End() <= r.End()
    {
      assert i < |recs| ==> recs'[i] == recs[i];
    }
    forall i | 0 < i < |recs'|
      ensures recs'[i - 1].End() == recs'[i].start
    {
      assert recs'[i - 1] == recs[i - 1] && (i < |recs| ==> recs'[i] == recs[i]);
    }
  }

  /** Publishing a record at the end. */
  lemma {:induction false} HoldsAppend(mem: seq<byte>, p: nat, t: nat, recs: seq<Record>, r: Record)
    requires Holds(mem, p, t, recs) && p <= t && Stored(mem, r) && r.start == t && t <= r.data
    ensures Holds(mem, p, r.End(), recs + [r])
  {
    ChainAppend(recs, p, t, r);
  }

  lemma {:induction false} ChainOrder(recs: seq<Record>, p: nat, t: nat, i: nat, j: nat)
    requires Chain(recs, p, t) && i < j < |recs|
    ensures recs[i].End() <= recs[j].start
    decreases j
  {
    if i < j - 1 {
      ChainOrder(recs, p, t, i, j - 1);
    }
  }

  lemma {:induction false} ChainRest(recs: seq<Record>, p: nat, t: nat)
    requires Chain(recs, p, t) && recs != []
    ensures Chain(recs[1..], recs[0].End(), t)
  {
    var rest := recs[1..];
    forall i | 0 <= i < |rest|
      ensures recs[0].End() <= rest[i].start
    {
      ChainOrder(recs, p, t, 0, i + 1);
    }
    forall i | 0 < i < |rest|
      ensures rest[i - 1].End() == rest[i].start
    {
      assert recs[i + 1 - 1].End() == recs[i + 1].start;
    }
  }

  lemma {:induction false} ChainCons(r: Record, rest: seq<Record>, t: nat)
    requires Chain(rest, r.End(), t) && r.start <= r.data && r.End() <= t
    ensures Chain([r] + rest, r.start, t)
  {
    var recs := [r] + rest;
    forall i | 0 <= i < |recs|
      ensures r.start <= recs[i].start <= recs[i].data && recs[i].End() <= t
    {
      if i > 0 {
        assert recs[i] == rest[i - 1];
      }
    }
  }

  /** Consuming the oldest record. */
  lemma {:induction false} HoldsRest(mem: seq<byte>, p: nat, t: nat, recs: seq<Record>)
    requires Holds(mem, p, t, recs) && recs != []
    ensures Holds(mem, recs[0].End(), t, recs[1..])
  {
    ChainRest(recs, p, t);
  }

  /** Consuming only the skip in front of the oldest record. */
  lemma {:induction false} HoldsPastSkip(mem: seq<byte>, p: nat, t: nat, recs: seq<Record>)
    requires Holds(mem, p, t, recs) && recs != []
    ensures var r := recs[0];
            Holds(mem, r.data, t, [Record(r.data, r.data, r.pay)] + recs[1..])
  {
    var r := recs[0];
    var r' := Record(r.data, r.data, r.pay);
    ChainRest(recs, p, t);
    ChainCons(r', recs[1..], t);
    assert Stored(mem, r) && Stored(mem, r');
  }

  /** The bytes the records of a queue take, headers included. */
  function QueueBytes(recs: seq<Record>): nat {
    if recs == [] then 0 else 8 + |recs[0].pay| + QueueBytes(recs[1..])
  }

  /** A queue never takes more bytes than the stretch that holds it. */
  lemma {:induction false} QueueFits(mem: seq<byte>, p: nat, t: nat, recs: seq<Record>)
    requires Holds(mem, p, t, recs)
    ensures p + QueueBytes(recs) <= t
    decreases |recs|
  {
    if recs != [] {
      HoldsRest(mem, p, t, recs);
      QueueFits(mem, recs[0].End(), t, recs[1..]);
    }
  }

  // ── What a reservation can have ────────────────────────────────────────────

  /** A place for a payload at the end of the stretch [rd, wr): the record starts there, carries the
      payload and less than eight bytes of padding, and ends before the bytes in flight begin again. */
  predicate FreePlace(n: nat, rd: nat, wr: nat, payload: nat, r: Record)
    requires n > 0
  {
    Placed(n, r) && r.start == wr && payload <= |r.pay| < payload + 8 && r.End() <= rd + n
  }

  /** The padded length is determined. */
  lemma {:induction false} OneLength(payload: nat, pay: nat)
    requires payload <= MAX_CAP && Aligned(pay) && payload <= pay < payload + 8
    ensures 8 + pay == RecordBytes(payload)
  {
    AlignedSum(8, pay);
    AlignedUnique(8 + pay, RecordBytes(payload));
  }

  lemma {:induction false} AlignedUnique(a: nat, b: nat)
    requires Aligned(a) && Aligned(b) && a < b + 8 && b < a + 8
    ensures a == b
  {
    AlignedIsMod(a);
    AlignedIsMod(b);
  }

  /** The place a granted plan takes. */
  function PlaceOf(p: Plan, wr: nat): Record
    requires !p.Refuse? && p.rec >= 8
  {
    Record(wr, if p.Wrap? then wr + p.toEnd else wr, seq(p.rec - 8, _ => 0))
  }

  lemma {:induction false} GrantHasPlace(n: nat, rd: nat, wr: nat, payload: nat)
    requires Geometry(n) && rd <= wr <= rd + n && Aligned(wr) && payload < TWO32
    requires !MakePlan(n, Off(wr, TWO64), Off(rd, TWO64), payload).Refuse?
    ensures var p := MakePlan(n, Off(wr, TWO64), Off(rd, TWO64), payload);
            p.rec >= 8 && FreePlace(n, rd, wr, payload, PlaceOf(p, wr)) && PlaceOf(p, wr).End() == wr + p.Total()
  {
    CounterOffset(wr, n);
    CounterDistance(rd, wr);
    PlanInBounds(n, Off(wr, TWO64), Off(rd, TWO64), payload);
    var p := MakePlan(n, Off(wr, TWO64), Off(rd, TWO64), payload);
    AlignedSum(p.rec, 8);
    if p.Wrap? {
      ToEndAligned(wr, n);
      OffAdd(wr, n - Off(wr, n), n);
    }
  }

  lemma {:induction false} PlaceIsGranted(n: nat, rd: nat, wr: nat, payload: nat, r: Record)
    requires Geometry(n) && rd <= wr <= rd + n && Aligned(wr) && payload < TWO32 && FreePlace(n, rd, wr, payload, r)
    ensures var p := MakePlan(n, Off(wr, TWO64), Off(rd, TWO64), payload);
            !p.Refuse? && wr + p.Total() <= r.End()
  {
    CounterOffset(wr, n);
    CounterDistance(rd, wr);
    OneLength(payload, |r.pay|);
  }

  /** reserve() grants exactly when some place for the record is free, however much is in flight and
      wherever the counters are, and what it takes is the shortest such place. */
  lemma {:induction false} GrantExact(n: nat, rd: nat, wr: nat, payload: nat)
    requires Geometry(n) && rd <= wr <= rd + n && Aligned(wr) && payload < TWO32
    ensures var p := MakePlan(n, Off(wr, TWO64), Off(rd, TWO64), payload);
            && (!p.Refuse? <==> exists r :: FreePlace(n, rd, wr, payload, r))
            && (forall r :: FreePlace(n, rd, wr, payload, r) ==> wr + p.Total() <= r.End())
  {
    var p := MakePlan(n, Off(wr, TWO64), Off(rd, TWO64), payload);
    if !p.Refuse? {
      GrantHasPlace(n, rd, wr, payload);
      assert FreePlace(n, rd, wr, payload, PlaceOf(p, wr));
    }
    forall r | FreePlace(n, rd, wr, payload, r)
      ensures !p.Refuse? && wr + p.Total() <= r.End()
    {
      PlaceIsGranted(n, rd, wr, payload, r);
    }
  }

  // ── Looking at a queue ─────────────────────────────────────────────────────

  /** On a ring that holds a queue, peek() reports empty exactly when the queue is, and otherwise
      returns the oldest payload, past at most one skip. */
  lemma {:induction false} PeekQueue(mem: seq<byte>, p: nat, t: nat, recs: seq<Record>)
    requires Holds(mem, p, t, recs) && Aligned(p) && p <= t <= p + |mem|
    ensures Aligned(Off(p, TWO64))
    ensures recs == [] ==> PeekFrom(mem, Off(p, TWO64), Off(t, TWO64)) == (Empty, Off(p, TWO64))
    ensures recs != [] ==>
              var r := recs[0];
              var o := Off(r.data, |mem|);
              && PeekFrom(mem, Off(p, TWO64), Off(t, TWO64))
                 == (Ok(o + 8, |r.pay|, 8 + |r.pay|), Off(r.data, TWO64))
              && Window(mem, o + 8, r.pay)
  {
    CounterDistance(p, t);
    CounterOffset(p, |mem|);
    if recs != [] {
      PeekRecord(mem, t, recs[0]);
    }
  }

  lemma {:induction false} PeekRecord(mem: seq<byte>, t: nat, r: Record)
    requires Geometry(|mem|) && Stored(mem, r) && r.start <= r.data && r.End() <= t <= r.start + |mem|
    ensures Aligned(Off(r.start, TWO64))
    ensures PeekFrom(mem, Off(r.start, TWO64), Off(t, TWO64))
            == (Ok(Off(r.data, |mem|) + 8, |r.pay|, 8 + |r.pay|), Off(r.data, TWO64))
  {
    PeekData(mem, t, r);
    if r.data != r.start {
      PeekSkip(mem, t, r);
    } else {
      CounterOffset(r.start, |mem|);
    }
  }

  lemma {:induction false} PeekSkip(mem: seq<byte>, t: nat, r: Record)
    requires Geometry(|mem|) && Stored(mem, r) && r.start < r.data && r.End() <= t <= r.start + |mem|
    ensures Aligned(Off(r.start, TWO64))
    ensures PeekFrom(mem, Off(r.start, TWO64), Off(t, TWO64)) == PeekFrom(mem, Off(r.data, TWO64), Off(t, TWO64))
  {
    LookSkip(mem, t, r);
    CounterDistance(r.start, t);
    CounterAdvance(r.start, r.data - r.start);
    PeekFromNext(mem, Off(r.start, TWO64), Off(t, TWO64), r.data - r.start, Off(r.data, TWO64));
  }

  lemma {:induction false} PeekFromNext(mem: seq<byte>, head: nat, tail: nat, len: nat, next: nat)
    requires Geometry(|mem|) && head < TWO64 && tail < TWO64 && next < TWO64
    requires 8 <= Sub64(tail, head) <= |mem| && Look(mem, head, tail) == SkipRecord(len)
    requires len < TWO64 && next == Add64(head, len)
    ensures PeekFrom(mem, head, tail) == PeekFrom(mem, next, tail)
  {
    PeekPastSkip(mem, head, tail, len);
  }

  lemma {:induction false} PeekData(mem: seq<byte>, t: nat, r: Record)
    requires Geometry(|mem|) && Stored(mem, r) && r.End() <= t <= r.data + |mem|
    ensures Aligned(Off(r.data, TWO64))
    ensures PeekFrom(mem, Off(r.data, TWO64), Off(t, TWO64))
            == (Ok(Off(r.data, |mem|) + 8, |r.pay|, 8 + |r.pay|), Off(r.data, TWO64))
  {
    LookData(mem, t, r);
    CounterDistance(r.data, t);
  }

  /** One look at a skip record. */
  lemma {:induction false} LookSkip(mem: seq<byte>, t: nat, r: Record)
    requires Geometry(|mem|) && Stored(mem, r) && r.start < r.data <= t <= r.start + |mem|
    ensures Aligned(Off(r.start, TWO64)) && t - r.start >= 8
    ensures Look(mem, Off(r.start, TWO64), Off(t, TWO64)) == SkipRecord(r.data - r.start)
  {
    var n := |mem|;
    PlacedBounds(n, r);
    CounterDistance(r.start, t);
    CounterOffset(r.start, n);
    AlignedSum(r.data, r.start);
  }

  /** One look at a data record. */
  lemma {:induction false} LookData(mem: seq<byte>, t: nat, r: Record)
    requires Geometry(|mem|) && Stored(mem, r) && r.End() <= t <= r.data + |mem|
    ensures Aligned(Off(r.data, TWO64)) && Off(Off(r.data, TWO64), |mem|) == Off(r.data, |mem|)
    ensures Look(mem, Off(r.data, TWO64), Off(t, TWO64)) == DataRecord(8 + |r.pay|)
  {
    var n := |mem|;
    CounterDistance(r.data, t);
    CounterOffset(r.data, n);
    AlignedSum(8, |r.pay|);
  }
}

/**
  The single-producer / single-consumer byte ring (src/common/nvkvm_ring.h).

  `head` and `tail` are free-running 64-bit byte counters; a record is an 8-byte
  header (`len`, `type`) and a payload, rounded up to a multiple of eight; a record
  that would straddle the end of the data region is preceded by a skip record.
 */
module Ring {
  import opened Bits
  import opened Bytes

  const ALIGN: nat := 8
  const HDR: nat := 8
  const SKIP: nat := 0
  const DATA: nat := 1
  const MAX_CAP: nat := 0x8000_0000  // per-ring bytes are a 32-bit power of two

  /** Unsigned 64-bit subtraction and addition. */
  function Sub64(a: nat, b: nat): (r: nat)
    requires a < TWO64 && b < TWO64
    ensures r < TWO64
  {
    if a >= b then a - b else a + TWO64 - b
  }

  function Add64(a: nat, b: nat): (r: nat)
    requires a < TWO64 && b < TWO64
    ensures r < TWO64
  {
    if a + b < TWO64 then a + b else a + b - TWO64
  }

  // ── Geometry: the masks of the code and the arithmetic they stand for ───────

  predicate SizeOk(n: nat) {
    n >= 64 && IsPow2(n)
  }

  /** Rounding up to the alignment on 32-bit words; the addition may wrap. */
  function RoundUp(x: nat): (r: nat)
    requires x < TWO32
    ensures Aligned(r) && r < TWO32
    ensures x + 7 < TWO32 ==> x <= r < x + 8
  {
    var y := if x + 7 < TWO32 then x + 7 else x + 7 - TWO32;
    AlignedIsMod(y - y % 8);
    y - y % 8
  }

  /** nvkvm_ring_size_ok: the masking test is the power-of-two test. */
  method SizeTest(n: nat) returns (ok: bool)
    ensures ok <==> SizeOk(n)
  {
    if n < 64 {
      return false;
    }
    AndPredecessor(n);
    ok := And(n, n - 1) == 0;
  }

  /** Masking a free-running counter yields its offset in the data region. */
  method Masked(x: nat, n: nat) returns (off: nat)
    requires SizeOk(n)
    ensures off == Off(x, n)
  {
    MaskIsMod(x, n);
    OffIsMod(x, n);
    off := And(x, n - 1);
  }

  /** nvkvm_ring_roundup: (x + 7) & ~7 on 32-bit words. */
  method RoundUpMasked(x: nat) returns (r: nat)
    requires x < TWO32
    ensures r == RoundUp(x)
  {
    var y := if x + 7 < TWO32 then x + 7 else x + 7 - TWO32;
    Pow2Constants();
    AlignMask(y, 0x2000_0000);
    r := And(y, 8 * 0x1FFF_FFFF);
  }

  /** A ring capacity is a multiple of the alignment and divides the counter range. */
  lemma {:induction false} SizeOkMeaning(n: nat)
    requires SizeOk(n)
    ensures Aligned(n) && Aligned(n / 2)
    ensures n <= TWO64 ==> TWO64 % n == 0
  {
    Pow2Constants();
    HalfMultiple(n);
    if n <= TWO64 {
      Pow2Divides(n, TWO64);
    }
  }

  lemma {:induction false} HalfMultiple(n: nat)
    requires SizeOk(n)
    ensures Aligned(n / 2) && Aligned(n)
  {
    assert IsPow2(8);
    Pow2Divides(8, n / 2);
    AlignedIsMod(n / 2);
    AlignedSum(n / 2, n / 2);
    assert n == n / 2 + n / 2;
  }

  // ── Reservation ────────────────────────────────────────────────────────────

  /** What reserve() decides: refuse, write in place, or skip to offset zero. */
  datatype Plan = Refuse | Direct(off: nat, rec: nat) | Wrap(off: nat, toEnd: nat, rec: nat)
  {
    /** The bytes a commit publishes. */
    function Total(): nat {
      match this
      case Refuse => 0
      case Direct(_, rec) => rec
      case Wrap(_, toEnd, rec) => toEnd + rec
    }

    /** Where the data record's header goes. */
    function Base(): nat {
      if Direct? then off else 0
    }
  }

  /** Record length for a payload, in 32-bit arithmetic. */
  function RecordBytes(payload: nat): (rec: nat)
    requires payload < TWO32
    ensures Aligned(rec) && rec < TWO32
    ensures payload <= MAX_CAP ==> 8 + payload <= rec < payload + 16
  {
    RoundUp(if HDR + payload < TWO32 then HDR + payload else HDR + payload - TWO32)
  }

  function MakePlan(n: nat, tail: nat, head: nat, payload: nat): Plan
    requires head < TWO64 && tail < TWO64 && payload < TWO32 && n <= MAX_CAP
  {
    if !SizeOk(n) then Refuse
    else
      var rec := RecordBytes(payload);
      var used := Sub64(tail, head);
      var off := Off(tail, n);
      var toEnd := n - off;
      if rec > n || payload > n then Refuse
      else if rec <= toEnd then
        if Sub64(n, used) < rec then Refuse else Direct(off, rec)
      else
        if Sub64(n, used) < toEnd + rec then Refuse else Wrap(off, toEnd, rec)
  }

  function Header(len: nat, kind: nat): (bs: seq<byte>)
    requires len < TWO32 && kind < TWO32
    ensures |bs| == 8 && U32(bs, 0) == len && U32(bs, 4) == kind
  {
    var bs := U32Bytes(len) + U32Bytes(kind);
    U32Agree(bs, 0, U32Bytes(len), 0);
    U32Agree(bs, 4, U32Bytes(kind), 0);
    bs
  }

  /** A plan that stays inside a data region of `n` bytes with room for `payload`. */
  predicate PlanFits(n: nat, p: Plan, payload: nat) {
    match p
    case Refuse => true
    case Direct(off, rec) => Aligned(off) && Aligned(rec) && 8 + payload <= rec < payload + 16 && off + rec <= n
    case Wrap(off, toEnd, rec) =>
      Aligned(off) && Aligned(rec) && 8 + payload <= rec < payload + 16 && rec <= n
      && 8 <= toEnd && off + toEnd == n && toEnd < rec
  }

  /** Every header and payload byte of the plan lies inside a data region of `n` bytes. */
  predicate Inside(n: nat, p: Plan, payload: nat) {
    match p
    case Refuse => true
    case Direct(off, rec) => 8 + payload <= rec && off + rec <= n
    case Wrap(off, toEnd, rec) => off + 8 <= n && 8 + payload <= rec <= n
  }

  /** The shape every plan has, whatever the counters hold: only a skip header can run off the end. */
  predicate Shaped(n: nat, p: Plan, payload: nat) {
    match p
    case Refuse => true
    case Direct(off, rec) => 8 + payload <= rec < payload + 16 && off + rec <= n
    case Wrap(off, toEnd, rec) => 8 + payload <= rec < payload + 16 && rec <= n && off + toEnd == n && 0 < toEnd < rec
  }

  /** Whatever the two shared counters hold, a granted plan stays inside the data region exactly when
      the tail's offset leaves room for a header; a multiple of eight always does. */
  lemma {:induction false} PlanInBounds(n: nat, tail: nat, head: nat, payload: nat)
    requires head < TWO64 && tail < TWO64 && payload < TWO32 && n <= MAX_CAP
    ensures var p := MakePlan(n, tail, head, payload);
            && Shaped(n, p, payload)
            && (Inside(n, p, payload) <==> p.Refuse? || Off(tail, n) + 8 <= n)
            && (Aligned(tail) ==> PlanFits(n, p, payload))
  {
    if SizeOk(n) && Aligned(tail) {
      HeaderInside(tail, n);
    }
  }

  /** A tail at which every head and every payload are served inside the region, and that its offset
      alone decides. */
  lemma {:induction false} TailSafe(n: nat, tail: nat)
    requires SizeOk(n) && n <= MAX_CAP && tail < TWO64
    ensures (forall head, payload | 0 <= head < TWO64 && 0 <= payload < TWO32 ::
               Inside(n, MakePlan(n, tail, head, payload), payload))
            <==> Off(tail, n) + 8 <= n
  {
    forall head, payload | 0 <= head < TWO64 && 0 <= payload < TWO32
      ensures Off(tail, n) + 8 <= n ==> Inside(n, MakePlan(n, tail, head, payload), payload)
    {
      PlanInBounds(n, tail, head, payload);
    }
    if Off(tail, n) + 8 > n {
      // The smallest record on an empty ring.
      PlanInBounds(n, tail, tail, 0);
      assert !Inside(n, MakePlan(n, tail, tail, 0), 0);
    }
  }

  /** A tail that is no multiple of eight: the skip header ends four bytes past the region. */
  lemma {:induction false} UnalignedTailExample()
    ensures SizeOk(64) && MakePlan(64, 60, 60, 8) == Wrap(60, 4, 16) && !Inside(64, MakePlan(64, 60, 60, 8), 8)
  {
    assert IsPow2(64);
    assert RecordBytes(8) == 16;
  }

  lemma {:induction false} AlignedOffset(x: nat, n: nat)
    requires n > 0 && Aligned(n) && Aligned(x)
    ensures Aligned(Off(x, n))
  {
    OffIsMod(x, n);
    AlignedIsMod(x);
    AlignedIsMod(n);
    ModMod(x, 8, n);
    AlignedIsMod(Off(x, n));
  }

  /** The bytes of `bs` stored at `off` that fall inside the region. */
  function Clip(mem: seq<byte>, off: nat, bs: seq<byte>): (r: seq<byte>)
    requires off <= |mem|
    ensures |r| == |mem|
  {
    Put(mem, off, if off + |bs| <= |mem| then bs else bs[..|mem| - off])
  }

  /** The data region after reserve() wrote its headers. */
  function Reserved(mem: seq<byte>, p: Plan, payload: nat): (r: seq<byte>)
    requires Shaped(|mem|, p, payload) && |mem| <= MAX_CAP
    ensures |r| == |mem|
  {
    match p
    case Refuse => mem
    case Direct(off, rec) => Put(mem, off, Header(rec, DATA))
    case Wrap(off, toEnd, rec) => Put(Clip(mem, off, Header(toEnd, SKIP)), 0, Header(rec, DATA))
  }

  /** The bytes reserve() wrote past the end of the region. */
  function Spill(n: nat, p: Plan): (bs: seq<byte>)
    requires p.Wrap? ==> p.toEnd < TWO32
    ensures bs == [] <==> !(p.Wrap? && p.toEnd < 8)
  {
    if p.Wrap? && p.toEnd < 8 then Header(p.toEnd, SKIP)[p.toEnd..] else []
  }

  /** A reservation on an empty ring is granted at every aligned tail exactly when the
      record is at most half the capacity. */
  lemma {:induction false} EmptyRingGrant(n: nat, payload: nat)
    requires SizeOk(n) && n <= MAX_CAP && payload < TWO32
    ensures (forall tail | 0 <= tail < TWO64 && Aligned(tail) :: !MakePlan(n, tail, tail, payload).Refuse?)
            <==> payload <= n && RecordBytes(payload) <= n / 2
  {
    SizeOkMeaning(n);
    var rec := RecordBytes(payload);
    if payload <= n && rec <= n / 2 {
      forall tail | 0 <= tail < TWO64 && Aligned(tail)
        ensures !MakePlan(n, tail, tail, payload).Refuse?
      {
      }
    } else {
      // Half way round the ring neither side has room for it.
      var tail := n / 2;
      assert Off(tail, n) == tail;
      assert MakePlan(n, tail, tail, payload).Refuse?;
    }
  }

  const REQ_HEADER := 24
  const MAX_PARAM := 256
  const MAX_AUX := 4096

  /** A fast-path record within the size caps always fits an empty ring of 16 KiB or more. */
  lemma {:induction false} FastPathFits(n: nat, tail: nat, param: nat, aux: nat)
    requires SizeOk(n) && 0x4000 <= n <= MAX_CAP && tail < TWO64
    requires param <= MAX_PARAM && aux <= MAX_AUX
    ensures !MakePlan(n, tail, tail, REQ_HEADER + param + aux).Refuse?
  {
    // The record is at most half the ring, so a skip in front of it fits as well.
    assert 2 * RecordBytes(REQ_HEADER + param + aux) <= n;
  }

  // ── Looking at the next record ─────────────────────────────────────────────

  datatype Verdict = Malformed | SkipRecord(len: nat) | DataRecord(len: nat)

  /** The consumer's checks on one header. */
  function Judge(n: nat, off: nat, avail: nat, len: nat, kind: nat): Verdict {
    if len < HDR || !Aligned(len) || len > avail || len > n || off + len > n then Malformed
    else if kind == SKIP then SkipRecord(len)
    else if kind != DATA then Malformed
    else DataRecord(len)
  }

  datatype Peek = Empty | Bad | Ok(pay: nat, len: nat, total: nat)

  /** The consumer's view of the record at `head`. A header that runs off the end of the region is
      malformed, whatever is read for it. */
  function Look(mem: seq<byte>, head: nat, tail: nat): Verdict
    requires SizeOk(|mem|) && |mem| <= MAX_CAP
    requires head < TWO64 && tail < TWO64
  {
    var off := Off(head, |mem|);
    if off + 8 > |mem| then Malformed
    else Judge(|mem|, off, Sub64(tail, head), U32(mem, off), U32(mem, off + 4))
  }

  /** The verdict never depends on what follows the region in memory. */
  lemma {:induction false} LookBeyond(mem: seq<byte>, beyond: seq<byte>, head: nat, tail: nat)
    requires SizeOk(|mem|) && |mem| <= MAX_CAP && |beyond| == 8
    requires head < TWO64 && tail < TWO64
    ensures var off := Off(head, |mem|);
            var all := mem + beyond;
            Judge(|mem|, off, Sub64(tail, head), U32(all, off), U32(all, off + 4)) == Look(mem, head, tail)
  {
    var off := Off(head, |mem|);
    if off + 8 <= |mem| {
      U32Agree(mem + beyond, off, mem, off);
      U32Agree(mem + beyond, off + 4, mem, off + 4);
    }
  }

  /** The result of peek() and the head it leaves, on a fixed tail. */
  function PeekFrom(mem: seq<byte>, head: nat, tail: nat): (r: (Peek, nat))
    requires SizeOk(|mem|) && |mem| <= MAX_CAP
    requires head < TWO64 && tail < TWO64
    decreases Sub64(tail, head)
  {
    var avail := Sub64(tail, head);
    if avail == 0 then (Empty, head)
    else if avail < HDR || avail > |mem| then (Bad, head)
    else
      match Look(mem, head, tail)
      case Malformed => (Bad, head)
      case SkipRecord(len) =>
        Advance(tail, head, len);
        PeekFrom(mem, Add64(head, len), tail)
      case DataRecord(len) => (Ok(Off(head, |mem|) + HDR, len - HDR, len), head)
  }

  lemma {:induction false} HeaderInside(head: nat, n: nat)
    requires SizeOk(n) && Aligned(head)
    ensures Off(head, n) + 8 <= n && Aligned(Off(head, n))
  {
    var o := Off(head, n);
    SizeOkMeaning(n);
    AlignedOffset(head, n);
    AlignedSum(n, o);
    assert Aligned(n - o);
  }

  /** Consuming `len` available bytes leaves that many fewer, also across counter wrap. */
  lemma {:induction false} Advance(tail: nat, head: nat, len: nat)
    requires head < TWO64 && tail < TWO64 && len <= Sub64(tail, head)
    ensures Sub64(tail, Add64(head, len)) == Sub64(tail, head) - len
    ensures Aligned(head) && Aligned(len) ==> Aligned(Add64(head, len))
  {
    AlignedAdd64(head, len);
  }

  lemma {:induction false} AlignedAdd64(a: nat, b: nat)
    requires a < TWO64 && b < TWO64
    ensures Aligned(a) && Aligned(b) ==> Aligned(Add64(a, b))
  {
    AlignedIsMod(a);
    AlignedIsMod(b);
    AlignedIsMod(Add64(a, b));
  }

  /** On any bytes, any tail and any head, peek() only moves the head forward within the available
      window and returns a record inside both the window and the data region; it keeps a head that is a
      multiple of eight so. */
  lemma {:induction false} PeekSafe(mem: seq<byte>, head: nat, tail: nat)
    requires SizeOk(|mem|) && |mem| <= MAX_CAP
    requires head < TWO64 && tail < TWO64
    ensures var (r, h) := PeekFrom(mem, head, tail);
            && (Aligned(head) ==> Aligned(h)) && h < TWO64
            && Sub64(tail, h) <= Sub64(tail, head)
            && (r.Empty? <==> h == tail)
            && (r.Ok? ==> && r.pay == Off(h, |mem|) + HDR && r.pay + r.len <= |mem|
                          && r.total == r.len + HDR && Aligned(r.total)
                          && r.total <= Sub64(tail, h) <= |mem|)
    decreases Sub64(tail, head)
  {
    var avail := Sub64(tail, head);
    if HDR <= avail <= |mem| {
      match Look(mem, head, tail)
      case SkipRecord(len) =>
        Advance(tail, head, len);
        PeekSafe(mem, Add64(head, len), tail);
      case _ =>
    }
  }

  /** The bytes at a head are a record of the type: its header is inside the region and so is the rest,
      its length is a multiple of eight, at least a header, and no more than is available. */
  predicate RecordAt(mem: seq<byte>, head: nat, tail: nat, kind: nat)
    requires |mem| > 0 && head < TWO64 && tail < TWO64
  {
    var n, o, avail := |mem|, Off(head, |mem|), Sub64(tail, head);
    && 8 <= avail <= n && o + 8 <= n
    && U32(mem, o + 4) == kind && 8 <= U32(mem, o) <= avail && U32(mem, o) % 8 == 0 && o + U32(mem, o) <= n
  }

  lemma {:induction false} LookExact(mem: seq<byte>, head: nat, tail: nat)
    requires SizeOk(|mem|) && |mem| <= MAX_CAP && head < TWO64 && tail < TWO64 && 8 <= Sub64(tail, head) <= |mem|
    ensures Look(mem, head, tail).SkipRecord? <==> RecordAt(mem, head, tail, 0)
    ensures Look(mem, head, tail).DataRecord? <==> RecordAt(mem, head, tail, 1)
    ensures Look(mem, head, tail).Malformed? || Look(mem, head, tail).len == U32(mem, Off(head, |mem|))
  {
    var o := Off(head, |mem|);
    if o + 8 <= |mem| {
      AlignedIsMod(U32(mem, o));
    }
  }

  /** On any bytes and counters: peek() stops at the first head that has no skip record. It answers EMPTY
      if nothing is available there, OK with that record exactly if there is a data record, and BAD
      otherwise. */
  lemma {:induction false} PeekExact(mem: seq<byte>, head: nat, tail: nat)
    requires SizeOk(|mem|) && |mem| <= MAX_CAP
    requires head < TWO64 && tail < TWO64
    ensures var (r, h) := PeekFrom(mem, head, tail);
            && h < TWO64 && !RecordAt(mem, h, tail, 0)
            && (r.Empty? <==> h == tail) && (r.Ok? <==> RecordAt(mem, h, tail, 1))
            && (r.Ok? ==> r.pay == Off(h, |mem|) + 8 && r.len == r.total - 8 && r.total == U32(mem, Off(h, |mem|)))
            && (!RecordAt(mem, head, tail, 0) ==> h == head)
            && (RecordAt(mem, head, tail, 0) ==>
                  (r, h) == PeekFrom(mem, Add64(head, U32(mem, Off(head, |mem|))), tail))
    decreases Sub64(tail, head)
  {
    var avail := Sub64(tail, head);
    if 8 <= avail <= |mem| {
      LookExact(mem, head, tail);
      if Look(mem, head, tail).SkipRecord? {
        var len := Look(mem, head, tail).len;
        PeekPastSkip(mem, head, tail, len);
        Advance(tail, head, len);
        PeekExact(mem, Add64(head, len), tail);
      }
    }
  }

  /** Every header peek() reads, at every head it visits, lies inside the region. */
  predicate ReadsInside(mem: seq<byte>, head: nat, tail: nat)
    requires SizeOk(|mem|) && |mem| <= MAX_CAP
    requires head < TWO64 && tail < TWO64
    decreases Sub64(tail, head)
  {
    var avail := Sub64(tail, head);
    HDR <= avail <= |mem| ==>
      && Off(head, |mem|) + 8 <= |mem|
      && match Look(mem, head, tail)
         case SkipRecord(len) =>
           Advance(tail, head, len);
           ReadsInside(mem, Add64(head, len), tail)
         case _ => true
  }

  /** Passing a skip: the rest of peek() is peek() at the next head. */
  lemma {:induction false} PeekPastSkip(mem: seq<byte>, head: nat, tail: nat, len: nat)
    requires SizeOk(|mem|) && |mem| <= MAX_CAP && head < TWO64 && tail < TWO64
    requires HDR <= Sub64(tail, head) <= |mem| && Look(mem, head, tail) == SkipRecord(len)
    ensures HDR <= len <= Sub64(tail, head)
    ensures PeekFrom(mem, head, tail) == PeekFrom(mem, Add64(head, len), tail)
    ensures ReadsInside(mem, head, tail) == ReadsInside(mem, Add64(head, len), tail)
  {
    Advance(tail, head, len);
  }

  /** A read outside the region is the last thing peek() does: it happens exactly when peek() stops with
      BAD at a head that has bytes to offer and no room for a header. */
  lemma {:induction false} OutsideIsBad(mem: seq<byte>, head: nat, tail: nat)
    requires SizeOk(|mem|) && |mem| <= MAX_CAP
    requires head < TWO64 && tail < TWO64
    ensures var (r, h) := PeekFrom(mem, head, tail);
            && h < TWO64
            && (!ReadsInside(mem, head, tail)
                <==> r.Bad? && HDR <= Sub64(tail, h) <= |mem| && Off(h, |mem|) + 8 > |mem|)
    decreases Sub64(tail, head)
  {
    var avail := Sub64(tail, head);
    if HDR <= avail <= |mem| {
      match Look(mem, head, tail)
      case SkipRecord(len) =>
        Advance(tail, head, len);
        OutsideIsBad(mem, Add64(head, len), tail);
      case _ =>
    }
  }

  /** How far the last header position before the end of the region, counted from offset `o` in steps
      of eight, is from that end: 0 when it falls on the end. */
  function Overhang(n: nat, o: nat): nat
    requires o <= n
  {
    (n - o) % 8
  }

  /** The available bytes include a header that starts inside the region and ends past it. */
  predicate Straddles(n: nat, head: nat, tail: nat)
    requires n > 0 && head < TWO64 && tail < TWO64
  {
    var o, avail := Off(head, n), Sub64(tail, head);
    Overhang(n, o) != 0 && avail <= n && n - o - Overhang(n, o) + 8 <= avail
  }

  /** Skipping a record leaves the question where it was. */
  lemma {:induction false} StraddlesStep(n: nat, head: nat, tail: nat, len: nat)
    requires SizeOk(n) && n <= MAX_CAP && head < TWO64 && tail < TWO64
    requires Aligned(len) && HDR <= len <= Sub64(tail, head) <= n && Off(head, n) + len <= n
    requires !Straddles(n, head, tail)
    ensures !Straddles(n, Add64(head, len), tail)
  {
    Advance(tail, head, len);
    OffsetAdvance(n, head, len);
    OverhangStep(n, Off(head, n), len);
  }

  lemma {:induction false} OverhangStep(n: nat, o: nat, len: nat)
    requires SizeOk(n) && Aligned(len) && o + len <= n
    ensures Overhang(n, o + len) == Overhang(n, o) && Overhang(n, 0) == 0
  {
    SizeOkMeaning(n);
    AlignedIsMod(n);
    AlignedIsMod(len);
    EightLess(n - o, len);
  }

  lemma {:induction false} EightLess(x: nat, len: nat)
    requires len % 8 == 0 && len <= x
    ensures (x - len) % 8 == x % 8
  {
  }

  /** The offset of an advanced 64-bit counter. */
  lemma {:induction false} OffsetAdvance(n: nat, head: nat, len: nat)
    requires SizeOk(n) && n <= MAX_CAP && head < TWO64 && len <= n && Off(head, n) + len <= n
    ensures Off(Add64(head, len), n) == if Off(head, n) + len < n then Off(head, n) + len else 0
  {
    OffAdd(head, len, n);
    if head + len >= TWO64 {
      SizeOkMeaning(n);
      OffIsMod(head + len, n);
      OffIsMod(head + len - TWO64, n);
      ModMinus(head + len, n);
    }
  }

  lemma {:induction false} ModMinus(x: nat, n: nat)
    requires n > 0 && TWO64 % n == 0 && x >= TWO64
    ensures (x - TWO64) % n == x % n
  {
    var k := TWO64 / n;
    var q, r := x / n, x % n;
    assert TWO64 == k * n;
    assert x - TWO64 == (q - k) * n + r;
    ModUnique(x - TWO64, n, q - k, r);
  }

  lemma {:induction false} ReadsStayInside(mem: seq<byte>, head: nat, tail: nat)
    requires SizeOk(|mem|) && |mem| <= MAX_CAP
    requires head < TWO64 && tail < TWO64 && !Straddles(|mem|, head, tail)
    ensures ReadsInside(mem, head, tail)
    decreases Sub64(tail, head)
  {
    var avail := Sub64(tail, head);
    if HDR <= avail <= |mem| {
      assert Off(head, |mem|) + 8 <= |mem|;
      match Look(mem, head, tail)
      case SkipRecord(len) =>
        Advance(tail, head, len);
        StraddlesStep(|mem|, head, tail, len);
        ReadsStayInside(mem, Add64(head, len), tail);
      case _ =>
    }
  }

  /** One skip record that leads to the header across the end. */
  function Lure(n: nat, o: nat, len: nat): (mem: seq<byte>)
    requires o + 8 <= n && len < TWO32
    ensures |mem| == n && U32(mem, o) == len && U32(mem, o + 4) == SKIP
  {
    var zeros: seq<byte> := seq(n, _ => 0);
    PutReads(zeros, o, Header(len, SKIP));
    Put(zeros, o, Header(len, SKIP))
  }

  /** A header reads back where it was stored. */
  lemma {:induction false} PutReads(m: seq<byte>, o: nat, h: seq<byte>)
    requires |h| == 8 && o + 8 <= |m|
    ensures U32(Put(m, o, h), o) == U32(h, 0) && U32(Put(m, o, h), o + 4) == U32(h, 4)
  {
    var p := Put(m, o, h);
    PutAt(m, o, h);
    assert p[o..o + 4] == h[0..4];
    assert p[o + 4..o + 8] == h[4..8];
    U32Agree(p, o, h, 0);
    U32Agree(p, o + 4, h, 4);
  }

  lemma {:induction false} StraddleIsRead(n: nat, head: nat, tail: nat) returns (mem: seq<byte>)
    requires SizeOk(n) && n <= MAX_CAP && head < TWO64 && tail < TWO64 && Straddles(n, head, tail)
    ensures |mem| == n && !ReadsInside(mem, head, tail)
  {
    var o := Off(head, n);
    GapParts(n, o);
    var len := n - o - Overhang(n, o);
    if len == 0 {
      mem := seq(n, _ => 0);
      FirstStraddles(mem, head, tail);
    } else {
      mem := Lure(n, o, len);
      LureLeads(mem, head, tail, len);
    }
  }

  /** What is left of the region is whole headers and the overhang. */
  lemma {:induction false} GapParts(n: nat, o: nat)
    requires o <= n
    ensures Overhang(n, o) < 8 && Overhang(n, o) <= n - o && Aligned(n - o - Overhang(n, o))
  {
    AlignedIsMod(n - o - Overhang(n, o));
  }

  lemma {:induction false} FirstStraddles(mem: seq<byte>, head: nat, tail: nat)
    requires SizeOk(|mem|) && |mem| <= MAX_CAP && head < TWO64 && tail < TWO64
    requires HDR <= Sub64(tail, head) <= |mem| && Off(head, |mem|) + 8 > |mem|
    ensures !ReadsInside(mem, head, tail)
  {
  }

  lemma {:induction false} LureLeads(mem: seq<byte>, head: nat, tail: nat, len: nat)
    requires SizeOk(|mem|) && |mem| <= MAX_CAP && head < TWO64 && tail < TWO64
    requires Aligned(len) && 8 <= len && len + 8 <= Sub64(tail, head) <= |mem|
    requires Off(head, |mem|) + len < |mem| < Off(head, |mem|) + len + 8
    requires U32(mem, Off(head, |mem|)) == len && U32(mem, Off(head, |mem|) + 4) == SKIP
    ensures !ReadsInside(mem, head, tail)
  {
    Advance(tail, head, len);
    OffsetAdvance(|mem|, head, len);
    PeekPastSkip(mem, head, tail, len);
  }

  /** Whatever the bytes are, peek() reads inside the region: exactly when no available header straddles
      its end. A head that is a multiple of eight never has one. */
  lemma {:induction false} PeekReadsInside(n: nat, head: nat, tail: nat)
    requires SizeOk(n) && n <= MAX_CAP && head < TWO64 && tail < TWO64
    ensures (forall mem: seq<byte> | |mem| == n :: ReadsInside(mem, head, tail)) <==> !Straddles(n, head, tail)
    ensures Aligned(head) ==> !Straddles(n, head, tail)
  {
    if Straddles(n, head, tail) {
      var mem := StraddleIsRead(n, head, tail);
    } else {
      forall mem: seq<byte> | |mem| == n
        ensures ReadsInside(mem, head, tail)
      {
        ReadsStayInside(mem, head, tail);
      }
    }
    if Aligned(head) {
      AlignedGap(n, head);
    }
  }

  lemma {:induction false} AlignedGap(n: nat, head: nat)
    requires SizeOk(n) && Aligned(head)
    ensures Overhang(n, Off(head, n)) == 0
  {
    HeaderInside(head, n);
    SizeOkMeaning(n);
    AlignedSum(n, Off(head, n));
    AlignedIsMod(n - Off(head, n));
  }

  /** A head that is no multiple of eight: the very first header is read four bytes past the region. */
  lemma {:induction false} UnalignedHeadExample(mem: seq<byte>)
    requires |mem| == 64
    ensures SizeOk(64) && !ReadsInside(mem, 60, 68)
  {
    assert IsPow2(64);
  }

  /** The shared control block and data region. */
  class SharedRing {
    var head: nat
    var tail: nat
    const data: array<byte>

    ghost predicate Valid()
      reads this
    {
      head < TWO64 && tail < TWO64 && data.Length <= MAX_CAP
    }

    constructor (cap: nat)
      requires cap <= MAX_CAP
      ensures Valid() && head == tail == 0 && data.Length == cap && fresh(data)
    {
      head, tail := 0, 0;
      data := new byte[cap](_ => 0);
    }

    /** Stores a header; `spill` is what falls past the end of the region. */
    method StoreHeader(off: nat, len: nat, kind: nat) returns (spill: seq<byte>)
      requires off <= data.Length && len < TWO32 && kind < TWO32
      modifies data
      ensures data[..] == Clip(old(data[..]), off, Header(len, kind))
      ensures spill == if off + 8 <= data.Length then [] else Header(len, kind)[data.Length - off..]
    {
      var h := Header(len, kind);
      var k := if off + 8 <= data.Length then 8 else data.Length - off;
      Store(data, off, h[..k]);
      assert h[..8] == h;
      spill := h[k..];
    }

    /** Writes record headers without publishing; the payload offset, the bytes to commit, and whatever
        went past the end of the region. */
    method Reserve(payload: nat) returns (granted: bool, pay: nat, total: nat, spill: seq<byte>)
      requires Valid() && payload < TWO32
      modifies data
      ensures Valid()
      ensures var p := MakePlan(data.Length, tail, head, payload);
              && granted == !p.Refuse?
              && Shaped(data.Length, p, payload)
              && data[..] == Reserved(old(data[..]), p, payload)
              && spill == Spill(data.Length, p)
              && (spill == [] <==> Inside(data.Length, p, payload))
              && (granted ==> pay == p.Base() + HDR && total == p.Total())
    {
      granted, pay, total, spill := false, 0, 0, [];
      var n := data.Length;
      PlanInBounds(n, tail, head, payload);
      assert Shaped(n, MakePlan(n, tail, head, payload), payload);
      var ok := SizeTest(n);
      if !ok {
        return;
      }
      var rec := RoundUpMasked(if HDR + payload < TWO32 then HDR + payload else HDR + payload - TWO32);
      var used := Sub64(tail, head);
      var off := Masked(tail, n);
      var toEnd := n - off;
      if rec > n || payload > n {
        return;
      }
      if rec <= toEnd {
        if Sub64(n, used) < rec {
          return;
        }
        spill := StoreHeader(off, rec, DATA);
        granted, pay, total := true, off + HDR, rec;
        return;
      }
      if Sub64(n, used) < toEnd + rec {
        return;
      }
      spill := StoreBoth(off, toEnd, rec);
      granted, pay, total := true, HDR, toEnd + rec;
    }

    /** The skip to the end and the record at the start. */
    method StoreBoth(off: nat, toEnd: nat, rec: nat) returns (spill: seq<byte>)
      requires off + toEnd == data.Length && 8 <= data.Length <= MAX_CAP && rec < TWO32
      modifies data
      ensures data[..] == Put(Clip(old(data[..]), off, Header(toEnd, SKIP)), 0, Header(rec, DATA))
      ensures spill == Spill(data.Length, Wrap(off, toEnd, rec))
    {
      spill := StoreHeader(off, toEnd, SKIP);
      var none := StoreHeader(0, rec, DATA);
    }

    method Commit(total: nat)
      requires Valid() && total < TWO64
      modifies `tail
      ensures Valid() && tail == Add64(old(tail), total)
      ensures Aligned(old(tail)) && Aligned(total) ==> Aligned(tail)
    {
      AlignedAdd64(tail, total);
      tail := Add64(tail, total);
    }

    /** Loads a word that may run into `beyond`, the bytes that follow the region. */
    method LoadU32(off: nat, beyond: seq<byte>) returns (v: nat)
      requires off + 4 <= data.Length + |beyond|
      ensures v == U32(data[..] + beyond, off)
    {
      v := U32(data[..] + beyond, off);
    }

    /** Reads the header at the head and checks it against the ring's extent; `inside` says the read
        stayed inside the region. */
    method Inspect(avail: nat, beyond: seq<byte>) returns (v: Verdict, inside: bool)
      requires Valid() && SizeOk(data.Length) && avail == Sub64(tail, head) && |beyond| == 8
      ensures v == Look(data[..], head, tail) && inside == (Off(head, data.Length) + 8 <= data.Length)
    {
      var n := data.Length;
      var off := Masked(head, n);
      inside := off + 8 <= n;
      var len := LoadU32(off, beyond);
      var kind := LoadU32(off + 4, beyond);
      LookBeyond(data[..], beyond, head, tail);
      AlignedIsMod(len);
      if len < HDR || len % ALIGN != 0 || len > avail || len > n || off + len > n {
        v := Malformed;
      } else if kind == SKIP {
        v := SkipRecord(len);
      } else if kind != DATA {
        v := Malformed;
      } else {
        v := DataRecord(len);
      }
    }

    /** The next record; `inside` says every header read stayed inside the region. */
    method PeekRecord(beyond: seq<byte>) returns (r: Peek, inside: bool)
      requires Valid() && |beyond| == 8
      modifies `head
      ensures Valid()
      ensures !SizeOk(data.Length) ==> r.Bad? && head == old(head) && inside
      ensures SizeOk(data.Length) ==>
                (r, head) == PeekFrom(data[..], old(head), tail) && inside == ReadsInside(data[..], old(head), tail)
    {
      var n := data.Length;
      inside := true;
      var ok := SizeTest(n);
      if !ok {
        return Bad, true;
      }
      while true
        invariant Valid() && inside
        invariant PeekFrom(data[..], old(head), tail) == PeekFrom(data[..], head, tail)
        invariant ReadsInside(data[..], old(head), tail) == ReadsInside(data[..], head, tail)
        decreases Sub64(tail, head)
      {
        var avail := Sub64(tail, head);
        if avail == 0 {
          return Empty, true;
        }
        if avail < HDR || avail > n {
          return Bad, true;
        }
        var v;
        v, inside := Inspect(avail, beyond);
        match v
        case Malformed => return Bad, inside;
        case SkipRecord(len) =>
          PeekPastSkip(data[..], head, tail, len);
          Advance(tail, head, len);
          head := Add64(head, len);
        case DataRecord(len) =>
          var off := Masked(head, n);
          return Ok(off + HDR, len - HDR, len), true;
      }
    }

    method Pop(total: nat)
      requires Valid() && total < TWO64
      modifies `head
      ensures Valid() && head == Add64(old(head), total)
      ensures Aligned(old(head)) && Aligned(total) ==> Aligned(head)
    {
      AlignedAdd64(head, total);
      head := Add64(head, total);
    }

    method HasWork() returns (b: bool)
      requires Valid()
      ensures b <==> Sub64(tail, head) != 0
    {
      b := tail != head;
    }
  }
}

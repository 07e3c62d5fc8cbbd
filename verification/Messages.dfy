/**
  The records the fast path puts on the rings: a header of six words, the parameters and the inner
  parameters. The ring returns a payload with up to seven bytes of padding behind it.
 */
module Messages {
  import opened Bits
  import opened Bytes

  const HEADER := 24
  const MAX_PARAM := 256
  const MAX_AUX := 4096
  const RESP_PUNT := 1
  const TRY_PUNT := 1

  /** The six words in front. */
  datatype Head = Head(a: nat, b: nat, c: nat, d: nat, e: nat, f: nat)

  predicate WordsFit(h: Head) {
    h.a < TWO32 && h.b < TWO32 && h.c < TWO32 && h.d < TWO32 && h.e < TWO32 && h.f < TWO32
  }

  function HeadBytes(h: Head): (bs: seq<byte>)
    requires WordsFit(h)
    ensures |bs| == HEADER
  {
    U32Bytes(h.a) + U32Bytes(h.b) + U32Bytes(h.c) + U32Bytes(h.d) + U32Bytes(h.e) + U32Bytes(h.f)
  }

  function ReadHead(m: seq<byte>): Head
    requires |m| >= HEADER
  {
    Head(U32(m, 0), U32(m, 4), U32(m, 8), U32(m, 12), U32(m, 16), U32(m, 20))
  }

  /** A word stored anywhere reads back. */
  lemma {:induction false} WordAt(pre: seq<byte>, v: nat, post: seq<byte>)
    requires v < TWO32
    ensures U32(pre + U32Bytes(v) + post, |pre|) == v
  {
    var m := pre + U32Bytes(v) + post;
    assert m[|pre|..|pre| + 4] == U32Bytes(v) == U32Bytes(v)[0..0 + 4];
    U32Agree(m, |pre|, U32Bytes(v), 0);
  }

  lemma {:induction false} HeadRoundTrip(h: Head, rest: seq<byte>)
    requires WordsFit(h)
    ensures ReadHead(HeadBytes(h) + rest) == h
  {
    var a, b, c, d, e, f := U32Bytes(h.a), U32Bytes(h.b), U32Bytes(h.c), U32Bytes(h.d), U32Bytes(h.e), U32Bytes(h.f);
    var m := HeadBytes(h) + rest;
    assert m == [] + a + (b + c + d + e + f + rest);
    WordAt([], h.a, b + c + d + e + f + rest);
    assert m == a + b + (c + d + e + f + rest);
    WordAt(a, h.b, c + d + e + f + rest);
    assert m == (a + b) + c + (d + e + f + rest);
    WordAt(a + b, h.c, d + e + f + rest);
    LastWords(a + b + c, h.d, h.e, h.f, rest);
    assert m == a + b + c + d + e + f + rest;
  }

  lemma {:induction false} LastWords(pre: seq<byte>, x: nat, y: nat, z: nat, rest: seq<byte>)
    requires x < TWO32 && y < TWO32 && z < TWO32
    ensures var m := pre + U32Bytes(x) + U32Bytes(y) + U32Bytes(z) + rest;
            U32(m, |pre|) == x && U32(m, |pre| + 4) == y && U32(m, |pre| + 8) == z
  {
    var d, e, f := U32Bytes(x), U32Bytes(y), U32Bytes(z);
    var m := pre + d + e + f + rest;
    assert m == pre + d + (e + f + rest);
    WordAt(pre, x, e + f + rest);
    assert m == (pre + d) + e + (f + rest);
    WordAt(pre + d, y, f + rest);
    assert m == (pre + d + e) + f + rest;
    WordAt(pre + d + e, z, rest);
  }

  // ── Requests ───────────────────────────────────────────────────────────────

  datatype Request = Request(txn: nat, handle: nat, cmd: nat, profile: nat, param: seq<byte>, aux: seq<byte>)

  predicate RequestFits(r: Request) {
    && r.txn < TWO32 && r.handle < TWO32 && r.cmd < TWO32 && r.profile < TWO32
    && |r.param| <= MAX_PARAM && |r.aux| <= MAX_AUX
  }

  function RequestBytes(r: Request): seq<byte>
    requires RequestFits(r)
  {
    HeadBytes(Head(r.txn, r.handle, r.cmd, |r.param|, |r.aux|, r.profile)) + r.param + r.aux
  }

  /** What the isolate makes of a record: nothing of a runt, a refusal of sizes that exceed the caps or
      the record, and otherwise the request. */
  datatype Read = Runt | TooLarge(txn: nat) | Accepted(r: Request)

  function ReadRequest(pay: seq<byte>): Read {
    if |pay| < HEADER then Runt else
      var h := ReadHead(pay);
      if h.d > MAX_PARAM || h.e > MAX_AUX || HEADER + h.d + h.e > |pay| then TooLarge(h.a)
      else Accepted(Request(h.a, h.b, h.c, h.f, pay[HEADER..HEADER + h.d], pay[HEADER + h.d..HEADER + h.d + h.e]))
  }

  /** A request within the caps reaches the isolate unchanged, whatever padding the ring added. */
  lemma {:induction false} RequestRoundTrip(r: Request, pad: seq<byte>)
    requires RequestFits(r)
    ensures ReadRequest(RequestBytes(r) + pad) == Accepted(r)
  {
    var h := Head(r.txn, r.handle, r.cmd, |r.param|, |r.aux|, r.profile);
    var hb := HeadBytes(h);
    var pay := RequestBytes(r) + pad;
    assert pay == hb + (r.param + r.aux + pad);
    HeadRoundTrip(h, r.param + r.aux + pad);
    Parts(hb, r.param, r.aux, pad);
  }

  lemma {:induction false} Parts(a: seq<byte>, b: seq<byte>, c: seq<byte>, d: seq<byte>)
    ensures var m := a + b + c + d;
            m[|a|..|a| + |b|] == b && m[|a| + |b|..|a| + |b| + |c|] == c && |m| == |a| + |b| + |c| + |d|
  {
  }

  lemma {:induction false} WordBack(m: seq<byte>, off: nat)
    requires off + 4 <= |m|
    ensures U32(m, off) < TWO32 && U32Bytes(U32(m, off)) == m[off..off + 4]
  {
    LEBound(m, off, 4);
    assert Pow256(4) == TWO32;
    LEReadBack(m, off, 4);
  }

  lemma {:induction false} HeadBack(m: seq<byte>)
    requires |m| >= HEADER
    ensures WordsFit(ReadHead(m)) && HeadBytes(ReadHead(m)) == m[..HEADER]
  {
    WordBack(m, 0);
    WordBack(m, 4);
    WordBack(m, 8);
    WordBack(m, 12);
    WordBack(m, 16);
    WordBack(m, 20);
    Cuts(m);
  }

  lemma {:induction false} Cuts(m: seq<byte>)
    requires |m| >= HEADER
    ensures m[0..4] + m[4..8] + m[8..12] + m[12..16] + m[16..20] + m[20..24] == m[..HEADER]
  {
  }

  /** The isolate accepts exactly the records that begin with some request within the caps, and reads
      that request. */
  lemma {:induction false} AcceptedIsSent(pay: seq<byte>, r: Request)
    ensures ReadRequest(pay) == Accepted(r) <==> RequestFits(r) && RequestBytes(r) <= pay
  {
    if RequestFits(r) && RequestBytes(r) <= pay {
      RequestRoundTrip(r, pay[|RequestBytes(r)|..]);
      assert RequestBytes(r) + pay[|RequestBytes(r)|..] == pay;
    }
    if ReadRequest(pay) == Accepted(r) {
      HeadBack(pay);
      assert pay[..HEADER] + r.param + r.aux == pay[..HEADER + |r.param| + |r.aux|];
    }
  }

  // ── Replies ────────────────────────────────────────────────────────────────

  datatype Reply = Reply(txn: nat, ret: int, status: nat, flags: nat, param: seq<byte>, aux: seq<byte>)

  predicate ReplyFits(r: Reply) {
    && r.txn < TWO32 && -0x8000_0000 <= r.ret < 0x8000_0000 && r.status < TWO32 && r.flags < TWO32
    && |r.param| <= MAX_PARAM && |r.aux| <= MAX_AUX
  }

  function ReplyBytes(r: Reply): seq<byte>
    requires ReplyFits(r)
  {
    HeadBytes(ReplyHead(r)) + r.param + r.aux
  }

  function ReplyHead(r: Reply): (h: Head)
    requires ReplyFits(r)
    ensures WordsFit(h)
  {
    Head(r.txn, Word(r.ret), r.status, |r.param|, |r.aux|, r.flags)
  }

  /** A signed value as the 32-bit word on the ring. */
  function Word(ret: int): nat
    requires -0x8000_0000 <= ret < 0x8000_0000
  {
    ret % TWO32
  }

  function Signed(v: nat): int {
    if v < 0x8000_0000 then v else v - TWO32
  }

  /** What the caller makes of a record while it waits for `txn`: not its own, or its result with the
      two buffers as they then are. */
  datatype Outcome = NotOurs | Result(rc: int, param: seq<byte>, aux: seq<byte>)

  /** The first `|x|` bytes of a buffer replaced. */
  function Over(buf: seq<byte>, x: seq<byte>): seq<byte>
    requires |x| <= |buf|
  {
    x + buf[|x|..]
  }

  function Accept(pay: seq<byte>, txn: nat, param: seq<byte>, aux: seq<byte>): Outcome {
    if |pay| < HEADER || ReadHead(pay).a != txn then NotOurs else
      var h := ReadHead(pay);
      if h.f % 2 == RESP_PUNT then Result(TRY_PUNT, param, aux) else
        Result(if Signed(h.b) < 0 then Signed(h.b) else 0,
               Brought(param, pay, HEADER, h.d), Brought(aux, pay, HEADER + h.d, h.e))
  }

  /** The caller's buffer after the `n` bytes at `off` of the record were meant for it. */
  function Brought(buf: seq<byte>, pay: seq<byte>, off: nat, n: nat): seq<byte> {
    if 0 < n <= |buf| && off + n <= |pay| then Over(buf, pay[off..off + n]) else buf
  }

  /** What came back for a buffer replaces its front, unless it is longer than the buffer. */
  function Returned(buf: seq<byte>, x: seq<byte>): seq<byte> {
    if |x| <= |buf| then Over(buf, x) else buf
  }

  /** The reply to a request brings back exactly what the isolate put in it: the front of each buffer
      is replaced by what came back for it, a refusal leaves both alone, and every other caller's wait
      passes the record over. */
  lemma {:induction false} ReplyRoundTrip(r: Reply, pad: seq<byte>, param: seq<byte>, aux: seq<byte>)
    requires ReplyFits(r)
    ensures Accept(ReplyBytes(r) + pad, r.txn, param, aux)
            == if r.flags % 2 == 1 then Result(TRY_PUNT, param, aux)
               else Result(if r.ret < 0 then r.ret else 0, Returned(param, r.param), Returned(aux, r.aux))
    ensures forall txn :: txn != r.txn ==> Accept(ReplyBytes(r) + pad, txn, param, aux) == NotOurs
  {
    ReplyParts(r, pad);
    SignedWord(r.ret);
    AcceptParts(ReplyBytes(r) + pad, ReplyHead(r), r.param, r.aux, param, aux);
  }

  lemma {:induction false} SignedWord(ret: int)
    requires -0x8000_0000 <= ret < 0x8000_0000
    ensures Word(ret) < TWO32 && Signed(Word(ret)) == ret
  {
  }

  lemma {:induction false} ReplyParts(r: Reply, pad: seq<byte>)
    requires ReplyFits(r)
    ensures var pay, n := ReplyBytes(r) + pad, HEADER + |r.param|;
            && n + |r.aux| <= |pay| && ReadHead(pay) == ReplyHead(r)
            && pay[HEADER..n] == r.param && pay[n..n + |r.aux|] == r.aux
  {
    var hb := HeadBytes(ReplyHead(r));
    var pay := ReplyBytes(r) + pad;
    assert pay == hb + (r.param + r.aux + pad);
    HeadRoundTrip(ReplyHead(r), r.param + r.aux + pad);
    Parts(hb, r.param, r.aux, pad);
  }

  lemma {:induction false} AcceptParts(
    pay: seq<byte>, h: Head, x: seq<byte>, y: seq<byte>, param: seq<byte>, aux: seq<byte>)
    requires HEADER + |x| + |y| <= |pay| && ReadHead(pay) == h && h.d == |x| && h.e == |y| && h.b < TWO32
    requires pay[HEADER..HEADER + |x|] == x && pay[HEADER + |x|..HEADER + |x| + |y|] == y
    ensures Accept(pay, h.a, param, aux)
            == if h.f % 2 == 1 then Result(TRY_PUNT, param, aux)
               else Result(if Signed(h.b) < 0 then Signed(h.b) else 0, Returned(param, x), Returned(aux, y))
  {
    BroughtIs(param, pay, HEADER, x);
    BroughtIs(aux, pay, HEADER + |x|, y);
  }

  lemma {:induction false} BroughtIs(buf: seq<byte>, pay: seq<byte>, off: nat, x: seq<byte>)
    requires off + |x| <= |pay| && pay[off..off + |x|] == x
    ensures Brought(buf, pay, off, |x|) == Returned(buf, x)
  {
    assert Over(buf, []) == buf;
  }

  /** Whatever a record says, the caller's buffers keep their lengths, and every byte in them is the
      caller's own or the record's. */
  lemma {:induction false} AcceptIsSafe(pay: seq<byte>, txn: nat, param: seq<byte>, aux: seq<byte>)
    requires Accept(pay, txn, param, aux).Result?
    ensures var Result(rc, param', aux') := Accept(pay, txn, param, aux);
            && IsFor(pay, txn) && (rc <= 0 || rc == TRY_PUNT)
            && |param'| == |param| && |aux'| == |aux|
            && (forall i | 0 <= i < |param| :: param'[i] == param[i] || param'[i] in pay)
            && (forall i | 0 <= i < |aux| :: aux'[i] == aux[i] || aux'[i] in pay)
            && (rc == TRY_PUNT ==> param' == param && aux' == aux)
  {
    var h := ReadHead(pay);
    BroughtIsSafe(param, pay, HEADER, h.d);
    BroughtIsSafe(aux, pay, HEADER + h.d, h.e);
  }

  lemma {:induction false} BroughtIsSafe(buf: seq<byte>, pay: seq<byte>, off: nat, n: nat)
    ensures var b := Brought(buf, pay, off, n);
            |b| == |buf| && forall i | 0 <= i < |buf| :: b[i] == buf[i] || b[i] in pay
  {
    var b := Brought(buf, pay, off, n);
    forall i | 0 <= i < |buf|
      ensures b[i] == buf[i] || b[i] in pay
    {
      if 0 < n <= |buf| && off + n <= |pay| && i < n {
        assert b[i] == pay[off + i];
      }
    }
  }

  const EIO := -5

  /** The record carries the id. */
  predicate IsFor(pay: seq<byte>, txn: nat) {
    |pay| >= HEADER && ReadHead(pay).a == txn
  }

  /** None of the first `k` records is for the id. */
  predicate PassedOver(records: seq<seq<byte>>, txn: nat, k: nat)
    requires k <= |records|
  {
    forall i | 0 <= i < k :: !IsFor(records[i], txn)
  }

  /** The wait: records are taken off the reply ring, in order, until one is ours. `records` are those
      that arrive before the spin limit; `taken` is how many were removed. */
  method WaitReply(records: seq<seq<byte>>, txn: nat, param: seq<byte>, aux: seq<byte>)
    returns (rc: int, param': seq<byte>, aux': seq<byte>, taken: nat)
    ensures taken <= |records|
    ensures || (taken == |records| && rc == EIO && param' == param && aux' == aux && PassedOver(records, txn, taken))
            || (&& taken > 0 && Accept(records[taken - 1], txn, param, aux) == Result(rc, param', aux')
                && PassedOver(records, txn, taken - 1))
  {
    rc, param', aux', taken := EIO, param, aux, 0;
    while taken < |records|
      invariant taken <= |records| && rc == EIO && param' == param && aux' == aux
      invariant PassedOver(records, txn, taken)
    {
      var o := Accept(records[taken], txn, param, aux);
      taken := taken + 1;
      if o.Result? {
        rc, param', aux' := o.rc, o.param, o.aux;
        return;
      }
    }
  }
}

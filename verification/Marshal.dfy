/**
  Forwarding a control whose parameters point at lists in the caller's memory.

  The guest appends the lists to a copy of the parameters, the isolate points the driver at the
  appended copies, and the guest copies everything back. A driver is any function from the
  parameters, pointer fields aside, and the list contents to new parameters and new contents; it
  leaves the pointer fields alone.
 */
module Marshal {
  import opened Bits
  import opened Bytes

  const EINVAL := -22
  const ENOMEM := -12
  const ENOSPC := -28
  const EFAULT := -14
  const MAX_PARAMS := 0x1_0000
  const MAX_LIST := 0x1_0000
  const MAX_CHANNELS := 4096
  const CHANNEL_PARAMS := 24

  /** Bytes per list element of a control with an embedded list, 0 for every other control. */
  function EntrySize(cmd: nat): nat {
    if cmd in {0x00410110, 0x00801104, 0x20800802, 0x20801201, 0x20801301, 0x20801802} then 8
    else if cmd in {0x20800123, 0x00800201} then 4
    else if cmd in {0x00801102, 0x00801301, 0x00801401, 0x00801701, 0x00801b01, 0x00801c02} then 1
    else 0
  }

  /** The isolate's own table, which has to agree with the guest's. */
  const ISOLATE_SIZES: map<nat, nat> := map[
    0x00410110 := 8, 0x00801104 := 8, 0x20800802 := 8, 0x20801201 := 8, 0x20801301 := 8, 0x20801802 := 8,
    0x20800123 := 4, 0x00800201 := 4,
    0x00801102 := 1, 0x00801301 := 1, 0x00801401 := 1, 0x00801701 := 1, 0x00801b01 := 1, 0x00801c02 := 1
  ]

  function IsolateEntrySize(cmd: nat): nat {
    if cmd in ISOLATE_SIZES then ISOLATE_SIZES[cmd] else 0
  }

  /** The guest and the isolate take the same controls for list controls, with the same elements. */
  lemma {:induction false} TablesAgree(cmd: nat)
    ensures IsolateEntrySize(cmd) == EntrySize(cmd)
  {
  }

  // ── Buffers ────────────────────────────────────────────────────────────────

  function Zeros(n: nat): seq<byte> {
    seq(n, _ => 0)
  }

  lemma {:induction false} PutFront(p: seq<byte>, d: seq<byte>, off: nat, x: seq<byte>)
    requires off + |x| <= |p|
    ensures Put(p + d, off, x) == Put(p, off, x) + d
  {
    PutAt(p + d, off, x);
    PutAt(p, off, x);
  }

  lemma {:induction false} PutBack(p: seq<byte>, d: seq<byte>, x: seq<byte>)
    requires |x| == |d|
    ensures Put(p + d, |p|, x) == p + x
  {
    PutAt(p + d, |p|, x);
  }

  lemma {:induction false} PutFirst(p: seq<byte>, d: seq<byte>, x: seq<byte>)
    requires |x| == |p|
    ensures Put(p + d, 0, x) == x + d
  {
    PutAt(p + d, 0, x);
  }

  lemma {:induction false} PutTwice(m: seq<byte>, off: nat, x: seq<byte>, y: seq<byte>)
    requires off + |x| <= |m| && |y| == |x|
    ensures Put(Put(m, off, x), off, y) == Put(m, off, y)
  {
    PutAt(m, off, x);
    PutAt(m, off, y);
    PutAt(Put(m, off, x), off, y);
  }

  lemma {:induction false} PutSame(m: seq<byte>, off: nat, n: nat, x: seq<byte>)
    requires off + n <= |m| && x == m[off..off + n]
    ensures Put(m, off, x) == m
  {
    PutAt(m, off, x);
  }

  /** Stores to disjoint places commute. */
  lemma {:induction false} PutApart(m: seq<byte>, a: nat, x: seq<byte>, b: nat, y: seq<byte>)
    requires a + |x| <= |m| && b + |y| <= |m| && (a + |x| <= b || b + |y| <= a)
    ensures Put(Put(m, a, x), b, y) == Put(Put(m, b, y), a, x)
  {
    PutAt(m, a, x);
    PutAt(m, b, y);
    PutAt(Put(m, a, x), b, y);
    PutAt(Put(m, b, y), a, x);
  }

  // ── One list ───────────────────────────────────────────────────────────────

  type Driver = (seq<byte>, seq<byte>) -> (seq<byte>, seq<byte>)

  /** The driver writes parameters and lists of the sizes it was given. */
  ghost predicate Sized(drv: Driver) {
    forall p, d :: |drv(p, d).0| == |p| && |drv(p, d).1| == |d|
  }

  /** Parameters with the pointer field cleared. */
  function Blank(p: seq<byte>): seq<byte>
    requires |p| >= 16
  {
    Put(p, 8, Zeros(8))
  }

  /** `p'` with the pointer field of `p`. */
  function Keep(p': seq<byte>, p: seq<byte>): seq<byte>
    requires |p'| == |p| >= 16
  {
    Put(p', 8, p[8..16])
  }

  /** The driver run on memory `m`, with parameters at `a` and the list at `l`. */
  function InPlace(drv: Driver, m: seq<byte>, a: nat, size: nat, l: nat, bytes: nat): seq<byte>
    requires 16 <= size && a + size <= |m| && l + bytes <= |m| && Sized(drv)
  {
    var p := m[a..a + size];
    var (p', d) := drv(Blank(p), m[l..l + bytes]);
    Put(Put(m, a, Keep(p', p)), l, d)
  }

  function Count(m: seq<byte>, a: nat): nat
    requires a + 4 <= |m|
  {
    U32(m, a)
  }

  function Pointer(m: seq<byte>, a: nat): nat
    requires a + 8 <= |m|
  {
    LE(m, a, 8)
  }

  /** The guest's test that there is a list to stage. */
  predicate Staged(m: seq<byte>, a: nat, size: nat) {
    size >= 16 && a + size <= |m| && 0 < Count(m, a) <= MAX_LIST && Pointer(m, a + 8) != 0
  }

  /** The isolate: recover where the list starts, point the driver at it with the address bytes
      `ptr`, clear the pointer again. Without room for a list the driver gets no pointer at all. */
  function Serve(drv: Driver, aux: seq<byte>, size: nat, entry: nat, ptr: seq<byte>): seq<byte>
    requires 16 <= size <= |aux| && Sized(drv) && |ptr| == 8
  {
    var bytes := Count(aux, 0) * entry;
    if 0 < bytes < |aux| && |aux| - bytes >= 16 then
      var base := |aux| - bytes;
      Put(InPlace(drv, Put(aux, 8, ptr), 0, size, base, bytes), 8, Zeros(8))
    else
      InPlace(drv, Put(aux, 8, Zeros(8)), 0, size, 0, 0)
  }

  /** The guest's copy-back to a list at `l`: list, pointer, parameters. */
  function CopyBack(m: seq<byte>, a: nat, size: nat, l: nat, bytes: nat, aux: seq<byte>): seq<byte>
    requires size >= 16 && a + size <= |m| && size <= |aux| && l + bytes <= |m|
  {
    var m' := if |aux| >= size + bytes then Put(m, l, aux[size..size + bytes]) else m;
    Put(m', a, Put(aux[..size], 8, m[a + 8..a + 16]))
  }

  lemma {:induction false} CountBlank(p: seq<byte>, d: seq<byte>)
    requires |p| >= 16
    ensures Count(Blank(p) + d, 0) == Count(p, 0)
  {
    PutAt(p, 8, Zeros(8));
    assert (Blank(p) + d)[0..4] == p[0..4];
    U32Agree(Blank(p) + d, 0, p, 0);
  }

  lemma {:induction false} CountSlice(m: seq<byte>, a: nat, size: nat)
    requires size >= 16 && a + size <= |m|
    ensures Count(m[a..a + size], 0) == Count(m, a)
  {
    assert m[a..a + size][0..4] == m[a..a + 4];
    U32Agree(m[a..a + size], 0, m, a);
  }

  /** What the isolate sends back for staged parameters `p` and list `d`: the driver's results for
      the same inputs, with the pointer cleared. */
  lemma {:induction false} ServeStaged(drv: Driver, p: seq<byte>, d: seq<byte>, entry: nat, x: seq<byte>)
    requires |x| == 8 && |p| >= 16 && |d| == Count(p, 0) * entry > 0 && Sized(drv)
    ensures var (p', d') := drv(Blank(p), d);
            |p'| == |p| && |d'| == |d| && Serve(drv, Blank(p) + d, |p|, entry, x) == Blank(p') + d'
  {
    var q := Put(p, 8, x);
    CountBlank(p, d);
    PutFront(Blank(p), d, 8, x);
    PutTwice(p, 8, Zeros(8), x);
    assert Put(Blank(p) + d, 8, x) == q + d;
    InPlaceStaged(drv, q, d);
    PutTwice(p, 8, x, Zeros(8));
    assert Blank(q) == Blank(p);
    var (p', d') := drv(Blank(p), d);
    PutFront(Keep(p', q), d', 8, Zeros(8));
    PutTwice(p', 8, q[8..16], Zeros(8));
  }

  lemma {:induction false} InPlaceStaged(drv: Driver, q: seq<byte>, d: seq<byte>)
    requires |q| >= 16 && Sized(drv)
    ensures var (p', d') := drv(Blank(q), d);
            |p'| == |q| && |d'| == |d| && InPlace(drv, q + d, 0, |q|, |q|, |d|) == Keep(p', q) + d'
  {
    var (p', d') := drv(Blank(q), d);
    var k := Keep(p', q);
    assert (q + d)[0..|q|] == q && (q + d)[|q|..|q| + |d|] == d;
    assert InPlace(drv, q + d, 0, |q|, |q|, |d|) == Put(Put(q + d, 0, k), |q|, d');
    PutFirst(q, d, k);
    PutBack(k, d, d');
  }

  lemma {:induction false} CopyBackStaged(
    m: seq<byte>, a: nat, size: nat, l: nat, p': seq<byte>, d': seq<byte>)
    requires size >= 16 && a + size <= |m| && |p'| == size && l + |d'| <= |m|
    ensures CopyBack(m, a, size, l, |d'|, Blank(p') + d') == Put(Put(m, l, d'), a, Keep(p', m[a..a + size]))
  {
    var aux := Blank(p') + d';
    assert aux[size..size + |d'|] == d' && aux[..size] == Blank(p');
    SliceSlice(m, a, size, 8, 16);
    PutTwice(p', 8, Zeros(8), m[a + 8..a + 16]);
  }

  lemma {:induction false} SliceSlice(m: seq<byte>, a: nat, n: nat, i: nat, j: nat)
    requires i <= j <= n && a + n <= |m|
    ensures m[a..a + n][i..j] == m[a + i..a + j]
  {
    var x, y := m[a..a + n][i..j], m[a + i..a + j];
    forall k | 0 <= k < j - i
      ensures x[k] == y[k]
    {
      assert x[k] == m[a..a + n][i + k] == m[a + (i + k)];
    }
  }

  /** Where the caller's parameters and list are, and that they do not overlap. */
  ghost predicate Layout(m: seq<byte>, a: nat, size: nat, entry: nat, l: nat, bytes: nat) {
    && size >= 16 && a + size <= |m| && l == Pointer(m, a + 8) && bytes == Count(m, a) * entry > 0
    && l + bytes <= |m| && (l + bytes <= a || a + size <= l)
  }

  /** Staging, serving and copying back changes the caller's memory exactly as running the driver
      on it would. */
  lemma {:induction false} ListMeaning(
    drv: Driver, m: seq<byte>, a: nat, size: nat, entry: nat, l: nat, bytes: nat, ptr: seq<byte>)
    requires Layout(m, a, size, entry, l, bytes) && Sized(drv) && |ptr| == 8
    ensures var aux := Serve(drv, Blank(m[a..a + size]) + m[l..l + bytes], size, entry, ptr);
            && size <= |aux| && CopyBack(m, a, size, l, bytes, aux) == InPlace(drv, m, a, size, l, bytes)
  {
    var p, d := m[a..a + size], m[l..l + bytes];
    CountSlice(m, a, size);
    ServeStaged(drv, p, d, entry, ptr);
    CopyBackMeaning(drv, m, a, size, l, bytes, Serve(drv, Blank(p) + d, size, entry, ptr));
  }

  /** The copy-back stores the driver's results as the driver itself would. */
  lemma {:induction false} CopyBackMeaning(
    drv: Driver, m: seq<byte>, a: nat, size: nat, l: nat, bytes: nat, aux: seq<byte>)
    requires size >= 16 && a + size <= |m| && l + bytes <= |m| && (l + bytes <= a || a + size <= l) && Sized(drv)
    requires var (p', d') := drv(Blank(m[a..a + size]), m[l..l + bytes]);
             |p'| == size && aux == Blank(p') + d'
    ensures size <= |aux| && CopyBack(m, a, size, l, bytes, aux) == InPlace(drv, m, a, size, l, bytes)
  {
    var p := m[a..a + size];
    var (p', d') := drv(Blank(p), m[l..l + bytes]);
    var k := Keep(p', p);
    assert InPlace(drv, m, a, size, l, bytes) == Put(Put(m, a, k), l, d');
    CopyBackStaged(m, a, size, l, p', d');
    assert bytes == |d'|;
    assert CopyBack(m, a, size, l, bytes, aux) == Put(Put(m, l, d'), a, k);
    PutApart(m, a, k, l, d');
  }

  /** Copying an unserved request back changes nothing: a refusal for size leaves memory as it was. */
  lemma {:induction false} RefusalChangesNothing(m: seq<byte>, a: nat, size: nat, l: nat, bytes: nat)
    requires size >= 16 && a + size <= |m| && l + bytes <= |m|
    ensures CopyBack(m, a, size, l, bytes, Blank(m[a..a + size]) + m[l..l + bytes]) == m
  {
    var p := m[a..a + size];
    var d := m[l..l + bytes];
    CopyBackStaged(m, a, size, l, p, d);
    PutSame(p, 8, 8, p[8..16]);
    PutSame(m, l, bytes, d);
    PutSame(m, a, size, p);
  }

  // ── Lists that are not staged ──────────────────────────────────────────────

  /** The isolate takes the tail of the parameters for the list. */
  predicate Wired(size: nat, count: nat, entry: nat) {
    0 < count * entry < size && size - count * entry >= 16
  }

  /** Parameters sent without a list come back as the driver leaves them when it has none, and with no
      pointer, unless the isolate takes their tail for the list. */
  lemma {:induction false} PlainServed(drv: Driver, p: seq<byte>, entry: nat, ptr: seq<byte>)
    requires |p| >= 16 && |ptr| == 8 && Sized(drv) && !Wired(|p|, Count(p, 0), entry)
    ensures var p' := drv(Blank(p), []).0;
            |p'| == |p| && Serve(drv, p, |p|, entry, ptr) == Blank(p')
  {
    var q, p' := Blank(p), drv(Blank(p), []).0;
    assert q[0..|q|] == q && q[0..0] == [];
    PutTwice(p, 8, Zeros(8), Zeros(8));
    assert Blank(q) == q;
    PutAt(p, 8, Zeros(8));
    assert q[8..16] == Zeros(8);
    assert Keep(p', q) == Blank(p');
    PutFirst(q, [], Blank(p'));
    assert q + [] == q && Blank(p') + [] == Blank(p');
    NoStore(Blank(p'), 0);
  }

  lemma {:induction false} NoStore(m: seq<byte>, off: nat)
    requires off <= |m|
    ensures Put(m, off, []) == m
  {
    PutAt(m, off, []);
  }

  /** Forwarding parameters that have no list does what the driver in place would do. */
  ghost predicate PlainSame(drv: Driver, m: seq<byte>, a: nat, size: nat, entry: nat, ptr: seq<byte>)
    requires 16 <= size && a + size <= |m| && |ptr| == 8 && Sized(drv)
  {
    var aux := Serve(drv, m[a..a + size], size, entry, ptr);
    |aux| == size && Put(m, a, aux) == InPlace(drv, m, a, size, a, 0)
  }

  /** A caller that passes no elements or no list: forwarding does what every driver in place would do
      exactly when there is no pointer to lose and the isolate does not take the tail of the parameters
      for the list. */
  lemma {:induction false} PlainMeaning(m: seq<byte>, a: nat, size: nat, entry: nat, ptr: seq<byte>)
    requires 16 <= size && a + size <= |m| && |ptr| == 8 && (Count(m, a) == 0 || Pointer(m, a + 8) == 0)
    ensures (forall drv: Driver | Sized(drv) :: PlainSame(drv, m, a, size, entry, ptr))
            <==> Pointer(m, a + 8) == 0 && !Wired(size, Count(m, a), entry)
  {
    CountSlice(m, a, size);
    if Pointer(m, a + 8) != 0 {
      assert Sized(Idle);
      PointerLost(m, a, size, entry, ptr);
    } else if Wired(size, Count(m, a), entry) {
      assert Sized(Flip);
      TailTaken(m, a, size, entry, ptr);
    } else {
      forall drv: Driver | Sized(drv)
        ensures PlainSame(drv, m, a, size, entry, ptr)
      {
        PlainKept(drv, m, a, size, entry, ptr);
      }
    }
  }

  lemma {:induction false} PlainKept(drv: Driver, m: seq<byte>, a: nat, size: nat, entry: nat, ptr: seq<byte>)
    requires 16 <= size && a + size <= |m| && |ptr| == 8 && Sized(drv)
    requires Pointer(m, a + 8) == 0 && !Wired(size, Count(m, a), entry)
    ensures PlainSame(drv, m, a, size, entry, ptr)
  {
    var p := m[a..a + size];
    CountSlice(m, a, size);
    PlainServed(drv, p, entry, ptr);
    NoPointer(m, a, size);
    assert m[a..a + 0] == [];
    NoStore(Put(m, a, Blank(drv(Blank(p), []).0)), a);
  }

  lemma {:induction false} NoPointer(m: seq<byte>, a: nat, size: nat)
    requires 16 <= size && a + size <= |m| && Pointer(m, a + 8) == 0
    ensures m[a..a + size][8..16] == Zeros(8)
  {
    var p := m[a..a + size];
    ZeroBytes(m, a + 8, 8);
    forall i | 8 <= i < 16
      ensures p[i] == 0
    {
      assert p[i] == m[a + i];
    }
  }

  lemma {:induction false} ZeroBytes(m: seq<byte>, off: nat, k: nat)
    requires off + k <= |m|
    ensures LE(m, off, k) == 0 <==> forall i | off <= i < off + k :: m[i] == 0
    decreases k
  {
    if k > 0 {
      ZeroBytes(m, off + 1, k - 1);
    }
  }

  /** A driver that changes nothing, and one that changes every byte of its list. */
  function Idle(p: seq<byte>, d: seq<byte>): (seq<byte>, seq<byte>) {
    (p, d)
  }

  function Flip(p: seq<byte>, d: seq<byte>): (seq<byte>, seq<byte>) {
    (p, seq(|d|, i requires 0 <= i < |d| => 255 - d[i]))
  }

  lemma {:induction false} PointerLost(m: seq<byte>, a: nat, size: nat, entry: nat, ptr: seq<byte>)
    requires 16 <= size && a + size <= |m| && |ptr| == 8 && Sized(Idle)
    requires Pointer(m, a + 8) != 0 && Count(m, a) == 0
    ensures !PlainSame(Idle, m, a, size, entry, ptr)
  {
    var p := m[a..a + size];
    CountSlice(m, a, size);
    PlainServed(Idle, p, entry, ptr);
    PutTwice(p, 8, Zeros(8), Zeros(8));
    ZeroBytes(m, a + 8, 8);
    var i :| a + 8 <= i < a + 16 && m[i] != 0;
    PutIndex(m, a, Blank(p), i);
    PutIndex(p, 8, Zeros(8), i - a);
    IdleInPlace(m, a, size);
  }

  lemma {:induction false} IdleInPlace(m: seq<byte>, a: nat, size: nat)
    requires 16 <= size && a + size <= |m| && Sized(Idle)
    ensures InPlace(Idle, m, a, size, a, 0) == m
  {
    var p := m[a..a + size];
    assert m[a..a + 0] == [];
    PutTwice(p, 8, Zeros(8), p[8..16]);
    PutSame(p, 8, 8, p[8..16]);
    PutSame(m, a, size, p);
    NoStore(m, a);
  }

  lemma {:induction false} TailTaken(m: seq<byte>, a: nat, size: nat, entry: nat, ptr: seq<byte>)
    requires 16 <= size && a + size <= |m| && |ptr| == 8 && Sized(Flip) && Sized(Idle)
    requires Wired(size, Count(m, a), entry)
    ensures !PlainSame(Flip, m, a, size, entry, ptr)
  {
    var p := m[a..a + size];
    CountSlice(m, a, size);
    TailFlipped(p, entry, ptr);
    FlipInPlace(m, a, size);
    Changed(m, a, p, Serve(Flip, p, size, entry, ptr));
  }

  lemma {:induction false} Changed(m: seq<byte>, a: nat, p: seq<byte>, aux: seq<byte>)
    requires |p| > 0 && a + |p| <= |m| && p == m[a..a + |p|] && |aux| == |p| && aux[|p| - 1] == 255 - p[|p| - 1]
    ensures Put(m, a, aux) != m
  {
    var i := |p| - 1;
    PutIndex(m, a, aux, a + i);
    assert p[i] == m[a + i];
  }

  lemma {:induction false} FlipInPlace(m: seq<byte>, a: nat, size: nat)
    requires 16 <= size && a + size <= |m| && Sized(Flip) && Sized(Idle)
    ensures InPlace(Flip, m, a, size, a, 0) == m
  {
    assert m[a..a + 0] == [];
    assert Flip(Blank(m[a..a + size]), []) == Idle(Blank(m[a..a + size]), []);
    IdleInPlace(m, a, size);
  }

  lemma {:induction false} TailFlipped(p: seq<byte>, entry: nat, ptr: seq<byte>)
    requires |p| >= 16 && |ptr| == 8 && Sized(Flip) && Wired(|p|, Count(p, 0), entry)
    ensures var aux := Serve(Flip, p, |p|, entry, ptr);
            |aux| == |p| && aux[|p| - 1] == 255 - p[|p| - 1]
  {
    var q, bytes, i := Put(p, 8, ptr), Count(p, 0) * entry, |p| - 1;
    var base := |p| - bytes;
    assert q[0..|p|] == q;
    LastOf(q, base, bytes);
    var k, d := Keep(Blank(q), q), Flip(Blank(q), q[base..base + bytes]).1;
    var e := Put(Put(q, 0, k), base, d);
    PutIndex(e, 8, Zeros(8), i);
    PutIndex(Put(q, 0, k), base, d, i);
    PutIndex(p, 8, ptr, i);
  }

  lemma {:induction false} LastOf(q: seq<byte>, base: nat, bytes: nat)
    requires base + bytes == |q| && bytes > 0
    ensures var d := Flip([], q[base..base + bytes]).1;
            |d| == bytes && d[bytes - 1] == 255 - q[|q| - 1]
  {
  }

  /** More elements than the cap allows: the driver is not shown the list, and the pointer is lost. */
  lemma {:induction false} OverCap(drv: Driver, m: seq<byte>, a: nat, size: nat, entry: nat, ptr: seq<byte>)
    requires 16 <= size <= MAX_PARAMS && a + size <= |m| && |ptr| == 8 && Sized(drv) && entry > 0
    requires Count(m, a) > MAX_LIST
    ensures Serve(drv, m[a..a + size], size, entry, ptr) == Blank(drv(Blank(m[a..a + size]), []).0)
  {
    CountSlice(m, a, size);
    ManyElements(size, Count(m, a), entry);
    PlainServed(drv, m[a..a + size], entry, ptr);
  }

  lemma {:induction false} ManyElements(size: nat, count: nat, entry: nat)
    requires entry > 0 && count >= size
    ensures !Wired(size, count, entry)
  {
    assert count * entry >= count;
  }

  // ── Two lists: the channel list ────────────────────────────────────────────

  type Driver2 = (seq<byte>, seq<byte>, seq<byte>) -> (seq<byte>, seq<byte>, seq<byte>)

  ghost predicate Sized2(drv: Driver2) {
    forall p, d, e :: |drv(p, d, e).0| == |p| && |drv(p, d, e).1| == |d| && |drv(p, d, e).2| == |e|
  }

  function Blank2(p: seq<byte>): seq<byte>
    requires |p| >= 24
  {
    Put(p, 8, Zeros(16))
  }

  function Keep2(p': seq<byte>, p: seq<byte>): seq<byte>
    requires |p'| == |p| >= 24
  {
    Put(p', 8, p[8..24])
  }

  /** The driver run on memory `m`, with parameters at `a` and its two lists at `l` and `r`. */
  ghost function InPlace2(drv: Driver2, m: seq<byte>, a: nat, size: nat, l: nat, r: nat, bytes: nat): seq<byte>
    requires 24 <= size && a + size <= |m| && l + bytes <= |m| && r + bytes <= |m| && Sized2(drv)
  {
    var p := m[a..a + size];
    var (p', d, e) := drv(Blank2(p), m[l..l + bytes], m[r..r + bytes]);
    Put(Put(Put(m, a, Keep2(p', p)), l, d), r, e)
  }

  predicate Staged2(m: seq<byte>, a: nat, size: nat) {
    && size >= 24 && a + size <= |m| && 0 < Count(m, a) <= MAX_CHANNELS
    && Pointer(m, a + 8) != 0 && Pointer(m, a + 16) != 0
  }

  /** The isolate takes the lists to start 24 bytes in, whatever the size of the parameters. */
  ghost function Serve2(drv: Driver2, aux: seq<byte>, size: nat, ptrs: seq<byte>): seq<byte>
    requires 24 <= size <= |aux| && Sized2(drv) && |ptrs| == 16
  {
    var bytes := Count(aux, 0) * 4;
    if 0 < Count(aux, 0) <= MAX_CHANNELS && |aux| >= CHANNEL_PARAMS + 2 * bytes then
      Put(InPlace2(drv, Put(aux, 8, ptrs), 0, size, CHANNEL_PARAMS, CHANNEL_PARAMS + bytes, bytes), 8, Zeros(16))
    else
      InPlace2(drv, Put(aux, 8, Zeros(16)), 0, size, 0, 0, 0)
  }

  function CopyBack2(m: seq<byte>, a: nat, size: nat, l: nat, r: nat, bytes: nat, aux: seq<byte>): seq<byte>
    requires size >= 24 && a + size <= |m| && size <= |aux| && l + bytes <= |m| && r + bytes <= |m|
  {
    var m' := if |aux| >= size + 2 * bytes
              then Put(Put(m, l, aux[size..size + bytes]), r, aux[size + bytes..size + 2 * bytes]) else m;
    Put(m', a, Put(aux[..size], 8, m[a + 8..a + 24]))
  }

  /** Parameters and lists as the caller laid them out, none overlapping another. */
  ghost predicate Layout2(m: seq<byte>, a: nat, size: nat, l: nat, r: nat, bytes: nat) {
    && Staged2(m, a, size) && l == Pointer(m, a + 8) && r == Pointer(m, a + 16) && bytes == Count(m, a) * 4
    && l + bytes <= |m| && r + bytes <= |m|
    && (l + bytes <= a || a + size <= l) && (r + bytes <= a || a + size <= r) && (l + bytes <= r || r + bytes <= l)
  }

  /** What the guest sends. */
  function Stage2(m: seq<byte>, a: nat, size: nat, l: nat, r: nat, bytes: nat): seq<byte>
    requires size >= 24 && a + size <= |m| && l + bytes <= |m| && r + bytes <= |m|
  {
    Blank2(m[a..a + size]) + m[l..l + bytes] + m[r..r + bytes]
  }

  lemma {:induction false} CountBlank2(p: seq<byte>, d: seq<byte>)
    requires |p| >= 24
    ensures Count(Blank2(p) + d, 0) == Count(p, 0)
  {
    PutAt(p, 8, Zeros(16));
    assert (Blank2(p) + d)[0..4] == p[0..4];
    U32Agree(Blank2(p) + d, 0, p, 0);
  }

  lemma {:induction false} InPlaceStaged2(drv: Driver2, q: seq<byte>, d: seq<byte>, e: seq<byte>)
    requires |q| >= 24 && |d| == |e| && Sized2(drv)
    ensures var (p', d', e') := drv(Blank2(q), d, e);
            InPlace2(drv, q + d + e, 0, |q|, |q|, |q| + |d|, |d|) == Keep2(p', q) + d' + e'
  {
    var m := q + d + e;
    var (p', d', e') := drv(Blank2(q), d, e);
    var k := Keep2(p', q);
    ThreeParts(q, d, e);
    assert m[0..|q|] == q;
    assert InPlace2(drv, m, 0, |q|, |q|, |q| + |d|, |d|) == Put(Put(Put(m, 0, k), |q|, d'), |q| + |d|, e');
    PutFirst(q, d + e, k);
    assert m == q + (d + e) && k + (d + e) == k + d + e;
    PutMiddle(k, d, e, d');
    PutBack(k + d', e, e');
  }

  lemma {:induction false} PutMiddle(p: seq<byte>, d: seq<byte>, e: seq<byte>, x: seq<byte>)
    requires |x| == |d|
    ensures Put(p + d + e, |p|, x) == p + x + e
  {
    PutAt(p + d + e, |p|, x);
  }

  lemma {:induction false} ServeStaged2(drv: Driver2, p: seq<byte>, d: seq<byte>, e: seq<byte>, x: seq<byte>)
    requires |p| == CHANNEL_PARAMS && |d| == |e| == Count(p, 0) * 4 && 0 < Count(p, 0) <= MAX_CHANNELS
    requires Sized2(drv) && |x| == 16
    ensures var (p', d', e') := drv(Blank2(p), d, e);
            |p'| == |p| && Serve2(drv, Blank2(p) + d + e, |p|, x) == Blank2(p') + d' + e'
  {
    var aux, q := Blank2(p) + d + e, Put(p, 8, x);
    var bytes := |d|;
    assert aux == Blank2(p) + (d + e);
    CountBlank2(p, d + e);
    Rewire2(p, Zeros(16), x, d, e);
    assert Serve2(drv, aux, |p|, x) == Put(InPlace2(drv, q + d + e, 0, |p|, |p|, |p| + bytes, bytes), 8, Zeros(16));
    InPlaceStaged2(drv, q, d, e);
    PutTwice(p, 8, x, Zeros(16));
    assert Blank2(q) == Blank2(p);
    var (p', d', e') := drv(Blank2(p), d, e);
    Rewire2(p', q[8..24], Zeros(16), d', e');
  }

  /** Replacing the pointers in front of two lists. */
  lemma {:induction false} Rewire2(p: seq<byte>, x: seq<byte>, y: seq<byte>, d: seq<byte>, e: seq<byte>)
    requires |p| >= 24 && |x| == |y| == 16
    ensures Put(Put(p, 8, x) + d + e, 8, y) == Put(p, 8, y) + d + e
  {
    PutTwice(p, 8, x, y);
    PutFront(Put(p, 8, x), d + e, 8, y);
    assert Put(p, 8, x) + (d + e) == Put(p, 8, x) + d + e;
    assert Put(p, 8, y) + (d + e) == Put(p, 8, y) + d + e;
  }

  lemma {:induction false} ThreeParts(p: seq<byte>, d: seq<byte>, e: seq<byte>)
    requires |d| == |e|
    ensures var m := p + d + e;
            m[..|p|] == p && m[|p|..|p| + |d|] == d && m[|p| + |d|..|p| + 2 * |d|] == e
  {
  }

  lemma {:induction false} CopyBackParts(
    m: seq<byte>, a: nat, size: nat, l: nat, r: nat, p: seq<byte>, d: seq<byte>, e: seq<byte>)
    requires size >= 24 && a + size <= |m| && |p| == size && |d| == |e| && l + |d| <= |m| && r + |d| <= |m|
    ensures CopyBack2(m, a, size, l, r, |d|, p + d + e)
            == Put(Put(Put(m, l, d), r, e), a, Put(p, 8, m[a + 8..a + 24]))
  {
    ThreeParts(p, d, e);
  }

  lemma {:induction false} CopyBackStaged2(
    m: seq<byte>, a: nat, size: nat, l: nat, r: nat, p': seq<byte>, d': seq<byte>, e': seq<byte>)
    requires size >= 24 && a + size <= |m| && |p'| == size && |d'| == |e'| && l + |d'| <= |m| && r + |d'| <= |m|
    ensures CopyBack2(m, a, size, l, r, |d'|, Blank2(p') + d' + e')
            == Put(Put(Put(m, l, d'), r, e'), a, Keep2(p', m[a..a + size]))
  {
    CopyBackParts(m, a, size, l, r, Blank2(p'), d', e');
    SliceSlice(m, a, size, 8, 24);
    PutTwice(p', 8, Zeros(16), m[a + 8..a + 24]);
  }

  /** Parameters first or last makes no difference to three stores apart from one another. */
  lemma {:induction false} PutThree(
    m: seq<byte>, a: nat, k: seq<byte>, l: nat, d: seq<byte>, r: nat, e: seq<byte>)
    requires a + |k| <= |m| && l + |d| <= |m| && r + |e| <= |m|
    requires (l + |d| <= a || a + |k| <= l) && (r + |e| <= a || a + |k| <= r)
    ensures Put(Put(Put(m, a, k), l, d), r, e) == Put(Put(Put(m, l, d), r, e), a, k)
  {
    PutApart(m, a, k, l, d);
    PutApart(Put(m, l, d), a, k, r, e);
  }

  /** With 24 bytes of parameters, forwarding the channel list changes the caller's memory exactly
      as running the driver on it would. */
  lemma {:induction false} ChannelListMeaning(
    drv: Driver2, m: seq<byte>, a: nat, l: nat, r: nat, bytes: nat, ptrs: seq<byte>)
    requires Layout2(m, a, CHANNEL_PARAMS, l, r, bytes) && Sized2(drv) && |ptrs| == 16
    ensures var aux := Serve2(drv, Stage2(m, a, CHANNEL_PARAMS, l, r, bytes), CHANNEL_PARAMS, ptrs);
            && CHANNEL_PARAMS <= |aux|
            && CopyBack2(m, a, CHANNEL_PARAMS, l, r, bytes, aux) == InPlace2(drv, m, a, CHANNEL_PARAMS, l, r, bytes)
  {
    var size := CHANNEL_PARAMS;
    var p, d, e := m[a..a + size], m[l..l + bytes], m[r..r + bytes];
    CountSlice(m, a, size);
    ServeStaged2(drv, p, d, e, ptrs);
    assert Stage2(m, a, size, l, r, bytes) == Blank2(p) + d + e;
    CopyBackMeaning2(drv, m, a, size, l, r, bytes, Serve2(drv, Stage2(m, a, size, l, r, bytes), size, ptrs));
  }

  lemma {:induction false} CopyBackMeaning2(
    drv: Driver2, m: seq<byte>, a: nat, size: nat, l: nat, r: nat, bytes: nat, aux: seq<byte>)
    requires size >= 24 && a + size <= |m| && l + bytes <= |m| && r + bytes <= |m| && Sized2(drv)
    requires (l + bytes <= a || a + size <= l) && (r + bytes <= a || a + size <= r)
    requires var (p', d', e') := drv(Blank2(m[a..a + size]), m[l..l + bytes], m[r..r + bytes]);
             |p'| == size && aux == Blank2(p') + d' + e'
    ensures size <= |aux| && CopyBack2(m, a, size, l, r, bytes, aux) == InPlace2(drv, m, a, size, l, r, bytes)
  {
    var p := m[a..a + size];
    var (p', d', e') := drv(Blank2(p), m[l..l + bytes], m[r..r + bytes]);
    var k := Keep2(p', p);
    assert InPlace2(drv, m, a, size, l, r, bytes) == Put(Put(Put(m, a, k), l, d'), r, e');
    CopyBackStaged2(m, a, size, l, r, p', d', e');
    assert bytes == |d'|;
    assert CopyBack2(m, a, size, l, r, bytes, aux) == Put(Put(Put(m, l, d'), r, e'), a, k);
    PutThree(m, a, k, l, d', r, e');
  }

  lemma {:induction false} RefusalChangesNothing2(m: seq<byte>, a: nat, size: nat, l: nat, r: nat, bytes: nat)
    requires size >= 24 && a + size <= |m| && l + bytes <= |m| && r + bytes <= |m|
    ensures CopyBack2(m, a, size, l, r, bytes, Blank2(m[a..a + size]) + m[l..l + bytes] + m[r..r + bytes]) == m
  {
    CopyBackOwn(m, a, size, l, r, bytes, m[a..a + size], m[l..l + bytes], m[r..r + bytes]);
  }

  lemma {:induction false} CopyBackOwn(
    m: seq<byte>, a: nat, size: nat, l: nat, r: nat, bytes: nat, p: seq<byte>, d: seq<byte>, e: seq<byte>)
    requires size >= 24 && |d| == |e| == bytes && |p| == size
    requires l + bytes <= |m| && forall i | 0 <= i < |d| :: d[i] == m[l + i]
    requires r + bytes <= |m| && forall i | 0 <= i < |e| :: e[i] == m[r + i]
    requires a + size <= |m| && forall i | 0 <= i < |p| :: p[i] == m[a + i]
    ensures CopyBack2(m, a, size, l, r, bytes, Blank2(p) + d + e) == m
  {
    assert m[a..a + size] == p;
    CopyBackStaged2(m, a, size, l, r, p, d, e);
    KeepOwn(p, p);
    PutOwn(m, l, d, r, e, a, p);
  }

  lemma {:induction false} KeepOwn(p: seq<byte>, q: seq<byte>)
    requires |p| >= 24 && p == q
    ensures Keep2(p, q) == p
  {
  }

  /** Storing what is already there. */
  lemma {:induction false} PutOwn(m: seq<byte>, l: nat, d: seq<byte>, r: nat, e: seq<byte>, a: nat, p: seq<byte>)
    requires l + |d| <= |m| && forall i | 0 <= i < |d| :: d[i] == m[l + i]
    requires r + |e| <= |m| && forall i | 0 <= i < |e| :: e[i] == m[r + i]
    requires a + |p| <= |m| && forall i | 0 <= i < |p| :: p[i] == m[a + i]
    ensures Put(Put(Put(m, l, d), r, e), a, p) == m
  {
    assert Put(m, l, d) == m;
    assert Put(m, r, e) == m;
  }

  // ── Channel lists with longer parameters ───────────────────────────────────

  /** A driver that fills the first list with one byte and leaves the rest. */
  function Fill(v: byte): Driver2 {
    (p, d, e) => (p, seq(|d|, _ => v), e)
  }

  /** The last of three stores that covers a byte decides it. */
  lemma {:induction false} PutThreeIndex(
    m: seq<byte>, a: nat, k: seq<byte>, l: nat, d: seq<byte>, r: nat, e: seq<byte>, i: nat)
    requires a + |k| <= |m| && l + |d| <= |m| && r + |e| <= |m| && i < |m|
    ensures Put(Put(Put(m, a, k), l, d), r, e)[i]
            == if r <= i < r + |e| then e[i - r] else if l <= i < l + |d| then d[i - l]
               else if a <= i < a + |k| then k[i - a] else m[i]
  {
    PutIndex(m, a, k, i);
    PutIndex(Put(m, a, k), l, d, i);
    PutIndex(Put(Put(m, a, k), l, d), r, e, i);
  }

  lemma {:induction false} FillSized(v: byte)
    ensures Sized2(Fill(v))
  {
  }

  /** The fill driver in place, on a byte past the parameters. */
  lemma {:induction false} FillInPlace(m: seq<byte>, a: nat, size: nat, l: nat, r: nat, bytes: nat, v: byte, i: nat)
    requires 24 <= size && a + size <= |m| && l + bytes <= |m| && r + bytes <= |m| && i < |m|
    requires l + bytes <= r || r + bytes <= l
    requires l <= i < l + bytes || a + size <= i
    ensures Sized2(Fill(v))
    ensures InPlace2(Fill(v), m, a, size, l, r, bytes)[i] == if l <= i < l + bytes then v else m[i]
  {
    FillSized(v);
    var p := m[a..a + size];
    var k := Keep2(Blank2(p), p);
    var d, e := seq(bytes, _ => v), m[r..r + bytes];
    assert InPlace2(Fill(v), m, a, size, l, r, bytes) == Put(Put(Put(m, a, k), l, d), r, e);
    PutThreeIndex(m, a, k, l, d, r, e, i);
  }

  /** Serving with `bytes` bytes in each list. */
  lemma {:induction false} ServeAt(drv: Driver2, aux: seq<byte>, size: nat, ptrs: seq<byte>, bytes: nat)
    requires 24 <= size <= |aux| && Sized2(drv) && |ptrs| == 16
    requires bytes == Count(aux, 0) * 4 && 0 < Count(aux, 0) <= MAX_CHANNELS && |aux| >= CHANNEL_PARAMS + 2 * bytes
    ensures Serve2(drv, aux, size, ptrs)
            == Put(InPlace2(drv, Put(aux, 8, ptrs), 0, size, CHANNEL_PARAMS, CHANNEL_PARAMS + bytes, bytes),
                   8, Zeros(16))
  {
  }

  /** Past the parameters, and past where the isolate takes the first list to be, the fill driver
      changes nothing. */
  lemma {:induction false} ServedTail(aux: seq<byte>, size: nat, ptrs: seq<byte>, bytes: nat, v: byte, i: nat)
    requires CHANNEL_PARAMS <= size <= |aux| && |ptrs| == 16
    requires bytes == Count(aux, 0) * 4 && 0 < Count(aux, 0) <= MAX_CHANNELS && |aux| >= CHANNEL_PARAMS + 2 * bytes
    requires size <= i < |aux| && CHANNEL_PARAMS + bytes <= i
    ensures Sized2(Fill(v))
    ensures |Serve2(Fill(v), aux, size, ptrs)| == |aux| && Serve2(Fill(v), aux, size, ptrs)[i] == aux[i]
  {
    var w := Put(aux, 8, ptrs);
    FillSized(v);
    ServeAt(Fill(v), aux, size, ptrs, bytes);
    PutIndex(aux, 8, ptrs, i);
    FillInPlace(w, 0, size, CHANNEL_PARAMS, CHANNEL_PARAMS + bytes, bytes, v, i);
    PutIndex(InPlace2(Fill(v), w, 0, size, CHANNEL_PARAMS, CHANNEL_PARAMS + bytes, bytes), 8, Zeros(16), i);
  }

  /** The last byte of the first list, as staged. */
  lemma {:induction false} StagedTail(m: seq<byte>, a: nat, size: nat, l: nat, r: nat, bytes: nat)
    requires size >= 24 && a + size <= |m| && 0 < bytes && l + bytes <= |m| && r + bytes <= |m|
    ensures var aux := Stage2(m, a, size, l, r, bytes);
            |aux| == size + 2 * bytes && aux[size + bytes - 1] == m[l + bytes - 1] && Count(aux, 0) == Count(m, a)
  {
    var p, d, e := m[a..a + size], m[l..l + bytes], m[r..r + bytes];
    CountSlice(m, a, size);
    CountBlank2(p, d + e);
    assert Blank2(p) + d + e == Blank2(p) + (d + e);
  }

  /** The copy-back, byte by byte. */
  lemma {:induction false} CopyBackIndex(
    m: seq<byte>, a: nat, size: nat, l: nat, r: nat, bytes: nat, aux: seq<byte>, d: seq<byte>, e: seq<byte>, i: nat)
    requires size >= 24 && a + size <= |m| && |aux| == size + 2 * bytes && l + bytes <= |m| && r + bytes <= |m|
    requires d == aux[size..size + bytes] && e == aux[size + bytes..size + 2 * bytes]
    requires i < |m| && !(a <= i < a + size) && !(r <= i < r + bytes)
    ensures CopyBack2(m, a, size, l, r, bytes, aux)[i] == if l <= i < l + bytes then d[i - l] else m[i]
  {
    var k := Put(aux[..size], 8, m[a + 8..a + 24]);
    assert CopyBack2(m, a, size, l, r, bytes, aux) == Put(Put(Put(m, l, d), r, e), a, k);
    PutThreeIndex(m, l, d, r, e, a, k, i);
  }

  lemma {:induction false} CopyBackTail(m: seq<byte>, a: nat, size: nat, l: nat, r: nat, bytes: nat, aux: seq<byte>)
    requires size >= 24 && a + size <= |m| && |aux| == size + 2 * bytes && 0 < bytes
    requires l + bytes <= |m| && r + bytes <= |m|
    requires (l + bytes <= a || a + size <= l) && (l + bytes <= r || r + bytes <= l)
    ensures CopyBack2(m, a, size, l, r, bytes, aux)[l + bytes - 1] == aux[size + bytes - 1]
  {
    var d, e := aux[size..size + bytes], aux[size + bytes..size + 2 * bytes];
    assert d[bytes - 1] == aux[size + bytes - 1];
    CopyBackIndex(m, a, size, l, r, bytes, aux, d, e, l + bytes - 1);
  }

  lemma {:induction false} DiffersByTail(
    m: seq<byte>, a: nat, size: nat, l: nat, r: nat, bytes: nat, aux: seq<byte>, v: byte)
    requires size >= 24 && a + size <= |m| && |aux| == size + 2 * bytes && 0 < bytes && Sized2(Fill(v))
    requires l + bytes <= |m| && r + bytes <= |m|
    requires (l + bytes <= a || a + size <= l) && (l + bytes <= r || r + bytes <= l)
    requires aux[size + bytes - 1] != v
    ensures CopyBack2(m, a, size, l, r, bytes, aux) != InPlace2(Fill(v), m, a, size, l, r, bytes)
  {
    var x, y := CopyBack2(m, a, size, l, r, bytes, aux), InPlace2(Fill(v), m, a, size, l, r, bytes);
    assert x[l + bytes - 1] == aux[size + bytes - 1] by {
      CopyBackTail(m, a, size, l, r, bytes, aux);
    }
    assert y[l + bytes - 1] == v by {
      FillInPlace(m, a, size, l, r, bytes, v, l + bytes - 1);
    }
  }

  /** Forwarding ends with other memory than running the driver in place. */
  ghost predicate Differs(drv: Driver2, m: seq<byte>, a: nat, size: nat, l: nat, r: nat, bytes: nat, ptrs: seq<byte>)
    requires 24 <= size && a + size <= |m| && l + bytes <= |m| && r + bytes <= |m| && |ptrs| == 16
  {
    && Sized2(drv)
    && var aux := Serve2(drv, Stage2(m, a, size, l, r, bytes), size, ptrs);
    && size <= |aux| && CopyBack2(m, a, size, l, r, bytes, aux) != InPlace2(drv, m, a, size, l, r, bytes)
  }

  /** With more than 24 bytes of parameters, every caller's memory has a driver for which forwarding
      the channel list differs from running it in place: the last entry is not brought back. */
  lemma {:induction false} ChannelListDiffers(
    m: seq<byte>, a: nat, size: nat, l: nat, r: nat, bytes: nat, ptrs: seq<byte>)
    requires Layout2(m, a, size, l, r, bytes) && size > CHANNEL_PARAMS && |ptrs| == 16
    ensures exists drv: Driver2 :: Differs(drv, m, a, size, l, r, bytes, ptrs)
  {
    var v: byte := if m[l + bytes - 1] == 7 then 8 else 7;
    var staged := Stage2(m, a, size, l, r, bytes);
    StagedTail(m, a, size, l, r, bytes);
    ServedTail(staged, size, ptrs, bytes, v, size + bytes - 1);
    DiffersByTail(m, a, size, l, r, bytes, Serve2(Fill(v), staged, size, ptrs), v);
    assert Differs(Fill(v), m, a, size, l, r, bytes, ptrs);
  }

  // ── The ioctl path ─────────────────────────────────────────────────────────

  /** Returns after which nothing is copied back. */
  predicate NoCopyBack(ret: int) {
    ret == ENOMEM || ret == ENOSPC || ret == EFAULT
  }

  /** What became of a forwarded call: it was not sent for want of an id or of memory, it was sent and
      given up (no slot, a refused descriptor, or a signal during the wait), or it came back. */
  datatype Transport = NotSent(err: int) | Lost(err: int) | Returned(status: int)

  /** The isolate's results reach the caller. */
  predicate Served(mem: nat, size: nat, l: nat, bytes: nat, slot: nat, room: bool, t: Transport) {
    && size <= MAX_PARAMS && room && l + bytes <= mem && size + bytes <= slot
    && t.Returned? && !NoCopyBack(t.status)
  }

  /** What the call returns. */
  function ListResult(mem: nat, size: nat, l: nat, bytes: nat, slot: nat, room: bool, t: Transport): int {
    if size > MAX_PARAMS then EINVAL
    else if !room then ENOMEM
    else if l + bytes > mem then EFAULT
    else if t.NotSent? then t.err
    else if size + bytes > slot then EINVAL
    else if t.Lost? then t.err
    else t.status
  }

  /** The calling process's memory. */
  class Caller {
    var mem: seq<byte>

    method CopyFromUser(addr: nat, n: nat) returns (fault: bool, data: seq<byte>)
      ensures fault <==> addr + n > |mem|
      ensures !fault ==> data == mem[addr..addr + n]
    {
      fault := addr + n > |mem|;
      data := if fault then [] else mem[addr..addr + n];
    }

    method CopyToUser(addr: nat, data: seq<byte>) returns (fault: bool)
      modifies this
      ensures fault <==> addr + |data| > |old(mem)|
      ensures mem == if fault then old(mem) else Put(old(mem), addr, data)
    {
      fault := addr + |data| > |mem|;
      if !fault {
        mem := Put(mem, addr, data);
      }
    }

    /** The copy-back for a list control, as the guest does it: a list that can no longer be written is
        passed over, the parameters are returned all the same. */
    method Return(a: nat, size: nat, entry: nat, aux: seq<byte>) returns (fault: bool)
      requires size >= 16 && a + size <= |mem| && size <= |aux|
      modifies this
      ensures !fault
      ensures var l, bytes := Pointer(old(mem), a + 8), Count(old(mem), a) * entry;
              if Count(old(mem), a) == 0 || l == 0 then mem == Put(old(mem), a, aux[..size])
              else if l + bytes <= |old(mem)| then mem == CopyBack(old(mem), a, size, l, bytes, aux)
              else mem == Put(old(mem), a, Put(aux[..size], 8, old(mem)[a + 8..a + 16]))
    {
      var f, orig := CopyFromUser(a, 16);
      CountSlice(mem, a, 16);
      PointerSlice(mem, a, 16);
      if Count(orig, 0) > 0 && Pointer(orig, 8) != 0 {
        SliceSlice(mem, a, 16, 8, 16);
        fault := ReturnList(a, size, Pointer(orig, 8), Count(orig, 0) * entry, orig[8..16], aux);
      } else {
        fault := CopyToUser(a, aux[..size]);
      }
    }

    method ReturnList(a: nat, size: nat, l: nat, bytes: nat, pointer: seq<byte>, aux: seq<byte>) returns (fault: bool)
      requires size >= 16 && a + size <= |mem| && size <= |aux| && pointer == mem[a + 8..a + 16]
      modifies this
      ensures !fault
      ensures if l + bytes <= |old(mem)| then mem == CopyBack(old(mem), a, size, l, bytes, aux)
              else mem == Put(old(mem), a, Put(aux[..size], 8, pointer))
    {
      if |aux| >= size + bytes {
        var f := CopyToUser(l, aux[size..size + bytes]);
      }
      fault := CopyToUser(a, Put(aux[..size], 8, pointer));
    }

    /** A control with an embedded list, forwarded. It ends as the driver in place would exactly when it
        was staged, fitted its slot, and came back with a status after which results are copied; in every
        other case memory is as it was, whether or not the driver ran. */
    method ListControl(drv: Driver, cmd: nat, a: nat, size: nat, slot: nat, ptr: seq<byte>, room: bool, t: Transport)
      returns (ret: int)
      requires Staged(mem, a, size) && EntrySize(cmd) > 0 && Sized(drv) && |ptr| == 8
      modifies this
      ensures var l, bytes := Pointer(old(mem), a + 8), Count(old(mem), a) * EntrySize(cmd);
              && ret == ListResult(|old(mem)|, size, l, bytes, slot, room, t)
              && (!Served(|old(mem)|, size, l, bytes, slot, room, t) ==> mem == old(mem))
              && (Served(|old(mem)|, size, l, bytes, slot, room, t)
                  && Layout(old(mem), a, size, EntrySize(cmd), l, bytes) ==>
                    mem == InPlace(drv, old(mem), a, size, l, bytes))
              && (Layout(old(mem), a, size, EntrySize(cmd), l, bytes)
                  && InPlace(drv, old(mem), a, size, l, bytes) != old(mem) ==>
                    (mem == InPlace(drv, old(mem), a, size, l, bytes)
                     <==> Served(|old(mem)|, size, l, bytes, slot, room, t)))
    {
      if size > MAX_PARAMS {
        return EINVAL;
      }
      var entry := EntrySize(cmd);
      var f, p := CopyFromUser(a, size);
      CountSlice(mem, a, size);
      PointerSlice(mem, a, size);
      var l, bytes := Pointer(p, 8), Count(p, 0) * entry;
      if !room {
        return ENOMEM;
      }
      var list;
      f, list := CopyFromUser(l, bytes);
      if f {
        return EFAULT;
      }
      ret := Forward(drv, cmd, a, size, entry, l, bytes, Blank(p) + list, slot, ptr, t);
    }

    /** A control with an embedded list. A list of up to 65536 elements is staged, and the call ends as the
        driver in place would, exactly when it came back; otherwise the parameters go alone. */
    method Control(drv: Driver, cmd: nat, a: nat, size: nat, slot: nat, ptr: seq<byte>, room: bool, t: Transport)
      returns (ret: int)
      requires size >= 16 && EntrySize(cmd) > 0 && Sized(drv) && |ptr| == 8
      modifies this
      ensures size > MAX_PARAMS ==> ret == EINVAL && mem == old(mem)
      ensures size <= MAX_PARAMS && a + size > |old(mem)| ==> ret == EFAULT && mem == old(mem)
      ensures size <= MAX_PARAMS && a + size <= |old(mem)| ==>
                var l, count := Pointer(old(mem), a + 8), Count(old(mem), a);
                var bytes := count * EntrySize(cmd);
                if 0 < count <= MAX_LIST && l != 0 then
                  && ret == ListResult(|old(mem)|, size, l, bytes, slot, room, t)
                  && (!Served(|old(mem)|, size, l, bytes, slot, room, t) ==> mem == old(mem))
                  && (Served(|old(mem)|, size, l, bytes, slot, room, t)
                      && Layout(old(mem), a, size, EntrySize(cmd), l, bytes) ==>
                        mem == InPlace(drv, old(mem), a, size, l, bytes))
                else
                  && ret == ListResult(|old(mem)|, size, 0, 0, slot, true, t)
                  && mem == if Served(|old(mem)|, size, 0, 0, slot, true, t)
                            then Put(old(mem), a, Serve(drv, old(mem)[a..a + size], size, EntrySize(cmd), ptr))
                            else old(mem)
    {
      if size > MAX_PARAMS {
        return EINVAL;
      }
      var f, p := CopyFromUser(a, size);
      if f {
        return EFAULT;
      }
      CountSlice(mem, a, size);
      PointerSlice(mem, a, size);
      if Count(p, 0) > 0 && Count(p, 0) <= MAX_LIST && Pointer(p, 8) != 0 {
        ret := ListControl(drv, cmd, a, size, slot, ptr, room, t);
      } else {
        ret := PlainControl(drv, cmd, a, size, slot, ptr, t);
      }
    }

    /** A control with an embedded list that is not staged: the parameters are sent as they are, and
        whatever came back for them is copied out. */
    method PlainControl(drv: Driver, cmd: nat, a: nat, size: nat, slot: nat, ptr: seq<byte>, t: Transport)
      returns (ret: int)
      requires size >= 16 && a + size <= |mem| && !Staged(mem, a, size) && Sized(drv) && |ptr| == 8
      modifies this
      ensures ret == ListResult(|old(mem)|, size, 0, 0, slot, true, t)
      ensures var aux := Serve(drv, old(mem)[a..a + size], size, EntrySize(cmd), ptr);
              mem == if Served(|old(mem)|, size, 0, 0, slot, true, t) then Put(old(mem), a, aux) else old(mem)
    {
      if size > MAX_PARAMS {
        return EINVAL;
      }
      var f, aux := CopyFromUser(a, size);
      PutSame(mem, a, size, aux);
      if t.NotSent? {
        ret := t.err;
      } else if |aux| > slot {
        ret := EINVAL;
      } else if t.Lost? {
        ret := t.err;
      } else {
        ret := t.status;
        TablesAgree(cmd);
        aux := Serve(drv, aux, size, IsolateEntrySize(cmd), ptr);
      }
      if ret != ENOMEM && ret != ENOSPC && ret != EFAULT {
        f := CopyToUser(a, aux);
      }
    }

    /** The staged buffer sent, and whatever came back for it copied out. */
    method Forward(drv: Driver, cmd: nat, a: nat, size: nat, entry: nat, l: nat, bytes: nat, staged: seq<byte>,
                   slot: nat, ptr: seq<byte>, t: Transport)
      returns (ret: int)
      requires Staged(mem, a, size) && Sized(drv) && |ptr| == 8 && size <= MAX_PARAMS && entry == EntrySize(cmd)
      requires l == Pointer(mem, a + 8) && bytes == Count(mem, a) * entry && l + bytes <= |mem|
      requires staged == Blank(mem[a..a + size]) + mem[l..l + bytes]
      modifies this
      ensures ret == ListResult(|old(mem)|, size, l, bytes, slot, true, t)
      ensures !Served(|old(mem)|, size, l, bytes, slot, true, t) ==> mem == old(mem)
      ensures Served(|old(mem)|, size, l, bytes, slot, true, t) && Layout(old(mem), a, size, entry, l, bytes) ==>
                mem == InPlace(drv, old(mem), a, size, l, bytes)
    {
      ghost var m := mem;
      var aux := staged;
      RefusalChangesNothing(m, a, size, l, bytes);
      if t.NotSent? {
        ret := t.err;
      } else if |aux| > slot {
        ret := EINVAL;
      } else if t.Lost? {
        ret := t.err;
      } else {
        ret := t.status;
        TablesAgree(cmd);
        aux := Serve(drv, aux, size, IsolateEntrySize(cmd), ptr);
      }
      if ret != ENOMEM && ret != ENOSPC && ret != EFAULT {
        var f := Return(a, size, entry, aux);
      }
      if Layout(m, a, size, entry, l, bytes) {
        ListMeaning(drv, m, a, size, entry, l, bytes, ptr);
      }
    }
  }

  lemma {:induction false} PointerSlice(m: seq<byte>, a: nat, size: nat)
    requires size >= 16 && a + size <= |m|
    ensures Pointer(m[a..a + size], 8) == Pointer(m, a + 8)
  {
    SliceSlice(m, a, size, 8, 8 + 8);
    LEAgree(m[a..a + size], 8, m, a + 8, 8);
  }
}

/**
  Process ids and descriptors inside the inner parameters of a control: tagged or swapped in place on
  the way out, put back in place in the response.
 */
module InnerFields {
  import opened Bits
  import opened Bytes
  import opened Fields
  import opened Options

  // ── Process ids ────────────────────────────────────────────────────────────

  const PID_LIST := 8
  const PID_STRIDE := 72
  const PID_MAX := 200

  function PidOff(i: nat): nat {
    PID_LIST + i * PID_STRIDE
  }

  /** How many process ids, from the i-th on, are looked at in a query of `size` bytes for `count`, by one
      who wants `need` bytes of each entry. */
  function PidCount(size: nat, count: nat, need: nat, i: nat): (n: nat)
    requires i <= PID_MAX
    ensures i <= n <= PID_MAX && (n > i ==> PidOff(n - 1) + need <= size)
    decreases PID_MAX - i
  {
    if i < PID_MAX && i < count && PidOff(i) + need <= size then PidCount(size, count, need, i + 1) else i
  }

  /** Exactly the entries that are asked for, allowed and long enough are looked at. */
  lemma {:induction false} PidCountExact(size: nat, count: nat, need: nat, i: nat, k: nat)
    requires i <= PID_MAX && i <= k
    ensures k < PidCount(size, count, need, i) <==> k < PID_MAX && k < count && PidOff(k) + need <= size
    decreases PID_MAX - i
  {
    if i < PID_MAX && i < count && PidOff(i) + need <= size && i < k {
      PidCountExact(size, count, need, i + 1, k);
    }
  }

  /** The tag for a process id: its isolate's id with the top bit, or 0 for a stranger. */
  function Tag(pid: nat, isolates: map<nat, nat>): (t: nat)
    ensures t < TWO32
  {
    if pid in isolates && isolates[pid] != 0 then 0x8000_0000 + isolates[pid] % 0x8000_0000 else 0
  }

  /** The fields of the first `k` entries replaced, in turn, by `xs`. */
  function PutPids(m: seq<byte>, xs: seq<seq<byte>>, k: nat): (r: seq<byte>)
    requires k <= |xs| && (forall i | 0 <= i < k :: |xs[i]| == 4) && (k > 0 ==> PidOff(k - 1) + 4 <= |m|)
    ensures |r| == |m|
  {
    if k == 0 then m else Put(PutPids(m, xs, k - 1), PidOff(k - 1), xs[k - 1])
  }

  /** The process-id field that byte `i` belongs to, or -1. */
  function PidEntry(i: nat): int {
    if i >= PID_LIST && (i - PID_LIST) % PID_STRIDE < 4 then (i - PID_LIST) / PID_STRIDE else -1
  }

  lemma {:induction false} PutPidsAt(m: seq<byte>, xs: seq<seq<byte>>, k: nat, i: nat)
    requires k <= |xs| && (forall j | 0 <= j < |xs| :: |xs[j]| == 4) && (k > 0 ==> PidOff(k - 1) + 4 <= |m|) && i < |m|
    ensures PutPids(m, xs, k)[i]
            == if 0 <= PidEntry(i) < k then xs[PidEntry(i)][(i - PID_LIST) % PID_STRIDE] else m[i]
  {
    if k > 0 {
      PutPidsAt(m, xs, k - 1, i);
      PutIndex(PutPids(m, xs, k - 1), PidOff(k - 1), xs[k - 1], i);
      PidEntryAt(i, k - 1);
    }
  }

  lemma {:induction false} PidEntryAt(i: nat, k: nat)
    ensures PidOff(k) <= i < PidOff(k) + 4 <==> PidEntry(i) == k
    ensures PidEntry(i) == k ==> (i - PID_LIST) % PID_STRIDE == i - PidOff(k)
  {
  }

  /** `save` holds the process ids of the first entries of the query. */
  ghost predicate Originals(aux: seq<byte>, save: seq<seq<byte>>) {
    forall i | 0 <= i < |save| ::
      |save[i]| == 4 && PidOff(i) + 4 <= |aux| && save[i] == aux[PidOff(i)..PidOff(i) + 4]
  }

  lemma {:induction false} OriginalsGrow(aux: seq<byte>, save: seq<seq<byte>>)
    requires Originals(aux, save) && PidOff(|save|) + 4 <= |aux|
    ensures Originals(aux, save + [aux[PidOff(|save|)..PidOff(|save|) + 4]])
  {
  }

  /** The four bytes that replace the i-th process id. */
  function TagAt(aux: seq<byte>, isolates: map<nat, nat>, i: nat): (x: seq<byte>)
    requires PidOff(i) + 4 <= |aux|
    ensures |x| == 4
  {
    U32Bytes(Tag(U32(aux, PidOff(i)), isolates))
  }

  /** The tags of the first `k` process ids of the query. */
  function Tags(aux: seq<byte>, isolates: map<nat, nat>, k: nat): (xs: seq<seq<byte>>)
    requires k > 0 ==> PidOff(k - 1) + 4 <= |aux|
    ensures |xs| == k && forall i | 0 <= i < k :: |xs[i]| == 4 && xs[i] == TagAt(aux, isolates, i)
  {
    seq(k, i requires 0 <= i < k => TagAt(aux, isolates, i))
  }

  /** How many process ids a query has; none if it is too short or there is no memory to save them. */
  function Tagged(aux: seq<byte>, memory: bool): (n: nat)
    ensures n > 0 ==> PidOff(n - 1) + 4 <= |aux|
  {
    if |aux| < 12 || !memory then 0 else PidCount(|aux|, U32(aux, 0), 4, 0)
  }

  /** Tags every process id of the query in place and keeps the originals; `isolates` gives the isolate
      of each process the caller can see. */
  method TagPids(aux: array<byte>, isolates: map<nat, nat>, memory: bool) returns (save: seq<seq<byte>>)
    modifies aux
    ensures |save| == Tagged(old(aux[..]), memory) && Originals(old(aux[..]), save)
    ensures aux[..] == PutPids(old(aux[..]), Tags(old(aux[..]), isolates, |save|), |save|)
  {
    save := [];
    if aux.Length >= 12 && memory {
      var count := U32(aux[..], 0);
      ghost var n := PidCount(aux.Length, count, 4, 0);
      save := TagAll(aux, isolates, count, aux[..], n, Tags(aux[..], isolates, n));
    }
  }

  method TagAll(aux: array<byte>, isolates: map<nat, nat>, count: nat,
                ghost was: seq<byte>, ghost n: nat, ghost tags: seq<seq<byte>>)
    returns (save: seq<seq<byte>>)
    requires aux[..] == was && n == PidCount(|was|, count, 4, 0) && tags == Tags(was, isolates, n)
    modifies aux
    ensures |save| == n && Originals(was, save) && aux[..] == PutPids(was, tags, n)
  {
    save := [];
    while |save| < PID_MAX && |save| < count && PidOff(|save|) + 4 <= aux.Length
      invariant |save| <= n && n == PidCount(|was|, count, 4, |save|) && Originals(was, save)
      invariant aux[..] == PutPids(was, tags, |save|)
      decreases PID_MAX - |save|
    {
      save := TagNext(aux, isolates, save, was, tags);
    }
  }

  /** The step for one process id. */
  method TagNext(aux: array<byte>, isolates: map<nat, nat>, save: seq<seq<byte>>,
                 ghost was: seq<byte>, ghost tags: seq<seq<byte>>)
    returns (save': seq<seq<byte>>)
    requires |save| < |tags| && (forall j | 0 <= j < |tags| :: |tags[j]| == 4) && PidOff(|save|) + 4 <= |was|
    requires tags[|save|] == TagAt(was, isolates, |save|)
    requires aux[..] == PutPids(was, tags, |save|) && Originals(was, save)
    modifies aux
    ensures |save'| == |save| + 1 && Originals(was, save') && aux[..] == PutPids(was, tags, |save'|)
  {
    var i := |save|;
    var off := PidOff(i);
    UntaggedYet(was, tags, i);
    OriginalsGrow(was, save);
    save' := save + [aux[..][off..off + 4]];
    U32Agree(aux[..], off, was, off);
    Store(aux, off, U32Bytes(Tag(U32(aux[..], off), isolates)));
  }

  /** A process id is still the caller's when its turn comes. */
  lemma {:induction false} UntaggedYet(aux: seq<byte>, tags: seq<seq<byte>>, k: nat)
    requires k < |tags| && (forall j | 0 <= j < |tags| :: |tags[j]| == 4) && PidOff(k) + 4 <= |aux|
    ensures PutPids(aux, tags, k)[PidOff(k)..PidOff(k) + 4] == aux[PidOff(k)..PidOff(k) + 4]
  {
    forall i | PidOff(k) <= i < PidOff(k) + 4
      ensures PutPids(aux, tags, k)[i] == aux[i]
    {
      PidEntryAt(i, k);
      PutPidsAt(aux, tags, k, i);
    }
  }

  /** A field put by index reads back. */
  lemma {:induction false} PutPidsWord(m: seq<byte>, xs: seq<seq<byte>>, n: nat, k: nat, v: nat)
    requires n <= |xs| && (forall j | 0 <= j < |xs| :: |xs[j]| == 4) && (n > 0 ==> PidOff(n - 1) + 4 <= |m|)
    requires PidOff(k) + 4 <= |m| && v < TWO32 && (k < n ==> xs[k] == U32Bytes(v))
    ensures U32(PutPids(m, xs, n), PidOff(k)) == if k < n then v else U32(m, PidOff(k))
  {
    var out, off := PutPids(m, xs, n), PidOff(k);
    forall i | off <= i < off + 4
      ensures out[i] == if k < n then xs[k][i - off] else m[i]
    {
      PidEntryAt(i, k);
      PutPidsAt(m, xs, n, i);
    }
    if k < n {
      assert out[off..off + 4] == xs[k][0..4];
      U32Agree(out, off, xs[k], 0);
    } else {
      assert out[off..off + 4] == m[off..off + 4];
      U32Agree(out, off, m, off);
    }
  }

  /** What leaves the guest: each process id of the query as its isolate's tag, 0 for a process the
      caller cannot see, and every other byte as it was. */
  lemma {:induction false} TaggedQuery(aux: seq<byte>, isolates: map<nat, nat>, n: nat, k: nat)
    requires k < n && PidOff(n - 1) + 4 <= |aux| && PidOff(k) + 4 <= |aux|
    ensures var out := PutPids(aux, Tags(aux, isolates, n), n);
            && U32(out, PidOff(k)) == Tag(U32(aux, PidOff(k)), isolates)
            && forall i | 0 <= i < |aux| && !(0 <= PidEntry(i) < n) :: out[i] == aux[i]
  {
    var tags := Tags(aux, isolates, n);
    var out := PutPids(aux, tags, n);
    PutPidsWord(aux, tags, n, k, Tag(U32(aux, PidOff(k)), isolates));
    forall i | 0 <= i < |aux| && !(0 <= PidEntry(i) < n)
      ensures out[i] == aux[i]
    {
      PutPidsAt(aux, tags, n, i);
    }
  }

  // ── Process ids on the host ────────────────────────────────────────────────

  /** The device's table of isolates has this many slots; it gives out ids below that. */
  const ISOLATE_MAX := 4096

  /** The process of an isolate that is alive, 0 if there is none. */
  function HostPid(alive: map<nat, nat>, iso: nat): nat {
    if 0 < iso < ISOLATE_MAX && iso in alive then alive[iso] else 0
  }

  ghost predicate PidsFit(alive: map<nat, nat>) {
    forall iso | iso in alive :: alive[iso] < 0x8000_0000
  }

  /** What the device makes of a process-id field: the process of the isolate it is tagged with, else 0. */
  function Untag(v: nat, alive: map<nat, nat>): nat {
    if v / 0x8000_0000 % 2 == 1 then HostPid(alive, v % 0x8000_0000) else 0
  }

  function UntagAt(aux: seq<byte>, alive: map<nat, nat>, i: nat): (x: seq<byte>)
    requires PidOff(i) + 4 <= |aux| && PidsFit(alive)
    ensures |x| == 4
  {
    U32Bytes(Untag(U32(aux, PidOff(i)), alive))
  }

  function Untags(aux: seq<byte>, alive: map<nat, nat>, k: nat): (xs: seq<seq<byte>>)
    requires PidsFit(alive) && (k > 0 ==> PidOff(k - 1) + 4 <= |aux|)
    ensures |xs| == k && forall i | 0 <= i < k :: |xs[i]| == 4 && xs[i] == UntagAt(aux, alive, i)
  {
    seq(k, i requires 0 <= i < k => UntagAt(aux, alive, i))
  }

  /** How many entries the device resolves: it wants the whole of each. */
  function Whole(aux: seq<byte>): (n: nat)
    ensures n > 0 ==> PidOff(n - 1) + PID_STRIDE <= |aux|
  {
    if |aux| < 4 then 0 else PidCount(|aux|, U32(aux, 0), PID_STRIDE, 0)
  }

  /** The device resolves the tags of every whole entry in place. */
  method UntagPids(aux: array<byte>, alive: map<nat, nat>)
    requires PidsFit(alive)
    modifies aux
    ensures aux[..] == PutPids(old(aux[..]), Untags(old(aux[..]), alive, Whole(old(aux[..]))), Whole(old(aux[..])))
  {
    if aux.Length < PID_LIST + PID_STRIDE {
      return;
    }
    var count := U32(aux[..], 0);
    ghost var n := Whole(aux[..]);
    UntagAll(aux, alive, count, aux[..], n, Untags(aux[..], alive, n));
  }

  method UntagAll(aux: array<byte>, alive: map<nat, nat>, count: nat,
                  ghost was: seq<byte>, ghost n: nat, ghost pids: seq<seq<byte>>)
    requires PidsFit(alive) && aux[..] == was && n == PidCount(|was|, count, PID_STRIDE, 0)
    requires pids == Untags(was, alive, n)
    modifies aux
    ensures aux[..] == PutPids(was, pids, n)
  {
    var i := 0;
    while i < PID_MAX && i < count && PidOff(i) + PID_STRIDE <= aux.Length
      invariant i <= n && n == PidCount(|was|, count, PID_STRIDE, i)
      invariant aux[..] == PutPids(was, pids, i)
      decreases PID_MAX - i
    {
      UntagNext(aux, alive, i, was, pids);
      i := i + 1;
    }
  }

  method UntagNext(aux: array<byte>, alive: map<nat, nat>, i: nat, ghost was: seq<byte>, ghost pids: seq<seq<byte>>)
    requires PidsFit(alive) && i < |pids| && (forall j | 0 <= j < |pids| :: |pids[j]| == 4) && PidOff(i) + 4 <= |was|
    requires pids[i] == UntagAt(was, alive, i) && aux[..] == PutPids(was, pids, i)
    modifies aux
    ensures aux[..] == PutPids(was, pids, i + 1)
  {
    var off := PidOff(i);
    UntaggedYet(was, pids, i);
    U32Agree(aux[..], off, was, off);
    Store(aux, off, U32Bytes(Untag(U32(aux[..], off), alive)));
  }

  /** Tagging and resolving are inverse: the device finds the isolate the guest meant. */
  lemma {:induction false} TagRoundTrip(pid: nat, isolates: map<nat, nat>, alive: map<nat, nat>)
    requires pid in isolates ==> isolates[pid] < 0x8000_0000
    ensures Untag(Tag(pid, isolates), alive) == if pid in isolates then HostPid(alive, isolates[pid]) else 0
    ensures Tag(pid, isolates) == 0 <==> pid !in isolates || isolates[pid] == 0
  {
  }

  /** Whatever is in a query, the driver is asked about nobody but isolates: an entry that is no tag, or
      the tag of no living isolate, becomes 0. */
  lemma {:induction false} OnlyIsolatesAreAsked(aux: seq<byte>, alive: map<nat, nat>, k: nat)
    requires PidsFit(alive) && k < Whole(aux)
    ensures PidOff(k) + 4 <= |aux|
    ensures var v := U32(aux, PidOff(k));
            U32(PutPids(aux, Untags(aux, alive, Whole(aux)), Whole(aux)), PidOff(k))
            == if v < 0x8000_0000 then 0 else HostPid(alive, v - 0x8000_0000)
  {
    var v := U32(aux, PidOff(k));
    LEBound(aux, PidOff(k), 4);
    assert Pow256(4) == TWO32;
    PutPidsWord(aux, Untags(aux, alive, Whole(aux)), Whole(aux), k, Untag(v, alive));
  }

  /** The first word, which is the number of entries, is no process id. */
  lemma {:induction false} CountKept(m: seq<byte>, xs: seq<seq<byte>>, n: nat)
    requires n <= |xs| && (forall j | 0 <= j < |xs| :: |xs[j]| == 4) && (n > 0 ==> PidOff(n - 1) + 4 <= |m|) && |m| >= 4
    ensures U32(PutPids(m, xs, n), 0) == U32(m, 0)
  {
    var out := PutPids(m, xs, n);
    forall i | 0 <= i < 4
      ensures out[i] == m[i]
    {
      PutPidsAt(m, xs, n, i);
    }
    assert out[0..4] == m[0..4];
    U32Agree(out, 0, m, 0);
  }

  /** What the driver is asked for each process id of a query, through guest and device: the process of
      the isolate that serves it, 0 if the caller cannot see it or its isolate is gone; but for an entry
      that is cut short the device does not resolve the guest's tag. */
  lemma {:induction false} DriverIsAsked(aux: seq<byte>, isolates: map<nat, nat>, alive: map<nat, nat>, k: nat)
    requires PidsFit(alive) && (forall p | p in isolates :: isolates[p] < ISOLATE_MAX)
    requires |aux| >= 12 && k < PID_MAX && k < U32(aux, 0) && PidOff(k) + 4 <= |aux|
    ensures var pid, n := U32(aux, PidOff(k)), Tagged(aux, true);
            var out := PutPids(aux, Tags(aux, isolates, n), n);
            var seen := PutPids(out, Untags(out, alive, Whole(out)), Whole(out));
            U32(seen, PidOff(k)) == if PidOff(k) + PID_STRIDE > |aux| then Tag(pid, isolates)
                                    else if pid in isolates then HostPid(alive, isolates[pid])
                                    else 0
  {
    var pid, n := U32(aux, PidOff(k)), Tagged(aux, true);
    PidCountExact(|aux|, U32(aux, 0), 4, 0, k);
    var tags := Tags(aux, isolates, n);
    var out := PutPids(aux, tags, n);
    PutPidsWord(aux, tags, n, k, Tag(pid, isolates));
    CountKept(aux, tags, n);
    PidCountExact(|out|, U32(out, 0), PID_STRIDE, 0, k);
    TagRoundTrip(pid, isolates, alive);
    PutPidsWord(out, Untags(out, alive, Whole(out)), Whole(out), k, Untag(U32(out, PidOff(k)), alive));
  }

  /** Puts the originals back into the response. */
  method RestorePids(aux: array<byte>, save: seq<seq<byte>>)
    requires forall i | 0 <= i < |save| :: |save[i]| == 4
    requires |save| > 0 ==> PidOff(|save| - 1) + 4 <= aux.Length
    modifies aux
    ensures aux[..] == PutPids(old(aux[..]), save, |save|)
  {
    for i := 0 to |save|
      invariant aux[..] == PutPids(old(aux[..]), save, i)
    {
      Store(aux, PidOff(i), save[i]);
    }
  }

  /** Whatever the host answers, every process id the caller asked about comes back as the caller
      wrote it, and every other byte is the host's. */
  lemma {:induction false} PidRoundTrip(aux: seq<byte>, host: seq<byte>, save: seq<seq<byte>>, memory: bool, i: nat)
    requires |aux| == |host| && |save| == Tagged(aux, memory) && i < |aux| && Originals(aux, save)
    ensures PutPids(host, save, |save|)[i] == if 0 <= PidEntry(i) < Tagged(aux, memory) then aux[i] else host[i]
  {
    PutPidsAt(host, save, |save|, i);
    if 0 <= PidEntry(i) < |save| {
      var k := PidEntry(i);
      PidEntryAt(i, k);
      assert save[k][i - PidOff(k)] == aux[PidOff(k)..PidOff(k) + 4][i - PidOff(k)];
    }
  }

  // ── Descriptors in the inner parameters ────────────────────────────────────

  const EXPORT_OBJECT := 0x3d05
  const IMPORT_OBJECT := 0x3d06
  const REGISTER_SURFACE := 17
  const USE_FD := 4
  const PLANE0 := 16
  const PLANE_STRIDE := 32
  const PLANES := 3

  /** A four-byte field and what the caller had in it. */
  datatype Field = Field(off: nat, x: seq<byte>)

  ghost predicate FieldsOf(aux: seq<byte>, fs: seq<Field>) {
    forall i | 0 <= i < |fs| :: |fs[i].x| == 4 && fs[i].off + 4 <= |aux| && fs[i].x == aux[fs[i].off..fs[i].off + 4]
  }

  predicate InField(fs: seq<Field>, i: nat) {
    exists j | 0 <= j < |fs| :: fs[j].off <= i < fs[j].off + 4
  }

  function PutFields(m: seq<byte>, fs: seq<Field>, k: nat): (r: seq<byte>)
    requires k <= |fs| && forall i | 0 <= i < |fs| :: |fs[i].x| == 4 && fs[i].off + 4 <= |m|
    ensures |r| == |m|
  {
    if k == 0 then m else Put(PutFields(m, fs, k - 1), fs[k - 1].off, fs[k - 1].x)
  }

  function PlaneOff(k: nat): nat {
    PLANE0 + k * PLANE_STRIDE
  }

  /** What leaves in a descriptor field: the token of a descriptor that is at least `least` and has
      one, and otherwise what is there. */
  function Outgoing(m: seq<byte>, off: nat, least: int, f: Files): nat
    requires off + 4 <= |m|
  {
    if S32(m, off) >= least && S32(m, off) in f.handle then f.handle[S32(m, off)] else U32(m, off)
  }

  /** One descriptor swapped for its token, if it has one. */
  function Swapped(m: seq<byte>, off: nat, least: int, f: Files): (r: seq<byte>)
    requires off + 4 <= |m| && TokensFit(f)
    ensures |r| == |m|
  {
    if S32(m, off) >= least && S32(m, off) in f.handle then Put(m, off, U32Bytes(f.handle[S32(m, off)])) else m
  }

  lemma {:induction false} SwappedIs(m: seq<byte>, off: nat, least: int, f: Files)
    requires off + 4 <= |m| && TokensFit(f)
    ensures U32(Swapped(m, off, least, f), off) == Outgoing(m, off, least, f)
    ensures forall i | 0 <= i < |m| && !(off <= i < off + 4) :: Swapped(m, off, least, f)[i] == m[i]
  {
    if S32(m, off) >= least && S32(m, off) in f.handle {
      U32Put(m, off, f.handle[S32(m, off)]);
      PutAt(m, off, U32Bytes(f.handle[S32(m, off)]));
    }
  }

  method SwapOne(aux: array<byte>, off: nat, least: int, f: Files)
    requires off + 4 <= aux.Length && TokensFit(f)
    modifies aux
    ensures aux[..] == Swapped(old(aux[..]), off, least, f)
  {
    var fd := S32(aux[..], off);
    if fd >= least && fd in f.handle {
      Store(aux, off, U32Bytes(f.handle[fd]));
    }
  }

  /** The descriptor of an exported or imported object: its place in the control's parameters. */
  function ObjectFd(control: nat, size: nat): Option<nat> {
    if control == EXPORT_OBJECT && size >= 20 then Some(16)
    else if control == IMPORT_OBJECT && size >= 4 then Some(0)
    else None
  }

  /** Swaps the descriptor of an export or import control and keeps what the caller had there. */
  method SwapObject(control: nat, aux: array<byte>, f: Files) returns (fs: seq<Field>)
    requires TokensFit(f)
    modifies aux
    ensures FieldsOf(old(aux[..]), fs)
    ensures match ObjectFd(control, aux.Length)
            case None => fs == [] && aux[..] == old(aux[..])
            case Some(off) => |fs| == 1 && fs[0].off == off && aux[..] == Swapped(old(aux[..]), off, 0, f)
  {
    fs := [];
    if control == EXPORT_OBJECT && aux.Length >= 20 {
      fs := [Field(16, aux[16..20])];
      SwapOne(aux, 16, 0, f);
    } else if control == IMPORT_OBJECT && aux.Length >= 4 {
      fs := [Field(0, aux[0..4])];
      SwapOne(aux, 0, 0, f);
    }
  }

  // ── The planes of a surface ────────────────────────────────────────────────

  /** The first `k` planes swapped. */
  function SwappedPlanes(m: seq<byte>, f: Files, k: nat): (r: seq<byte>)
    requires (k > 0 ==> PlaneOff(k - 1) + 4 <= |m|) && TokensFit(f)
    ensures |r| == |m|
  {
    if k == 0 then m else Swapped(SwappedPlanes(m, f, k - 1), PlaneOff(k - 1), 1, f)
  }

  /** The descriptors the first `k` planes have. */
  function PlaneFields(m: seq<byte>, k: nat): seq<Field>
    requires k > 0 ==> PlaneOff(k - 1) + 4 <= |m|
  {
    if k == 0 then []
    else if S32(m, PlaneOff(k - 1)) <= 0 then PlaneFields(m, k - 1)
    else PlaneFields(m, k - 1) + [Field(PlaneOff(k - 1), m[PlaneOff(k - 1)..PlaneOff(k - 1) + 4])]
  }

  /** Byte `i` is in the descriptor of one of the first `k` planes. */
  predicate InPlane(k: nat, i: nat) {
    exists j | 0 <= j < k :: PlaneOff(j) <= i < PlaneOff(j) + 4
  }

  lemma {:induction false} PlanesFrame(m: seq<byte>, f: Files, k: nat, i: nat)
    requires (k > 0 ==> PlaneOff(k - 1) + 4 <= |m|) && TokensFit(f) && i < |m| && !InPlane(k, i)
    ensures SwappedPlanes(m, f, k)[i] == m[i]
  {
    if k > 0 {
      PlanesFrame(m, f, k - 1, i);
      SwappedIs(SwappedPlanes(m, f, k - 1), PlaneOff(k - 1), 1, f);
    }
  }

  /** A plane's descriptor is the caller's until its turn comes. */
  lemma {:induction false} PlaneYet(m: seq<byte>, f: Files, k: nat)
    requires PlaneOff(k) + 4 <= |m| && TokensFit(f)
    ensures SwappedPlanes(m, f, k)[PlaneOff(k)..PlaneOff(k) + 4] == m[PlaneOff(k)..PlaneOff(k) + 4]
    ensures S32(SwappedPlanes(m, f, k), PlaneOff(k)) == S32(m, PlaneOff(k))
  {
    forall i | PlaneOff(k) <= i < PlaneOff(k) + 4
      ensures SwappedPlanes(m, f, k)[i] == m[i]
    {
      PlanesFrame(m, f, k, i);
    }
    U32Agree(SwappedPlanes(m, f, k), PlaneOff(k), m, PlaneOff(k));
  }

  /** Every plane leaves with the token of its descriptor, if it has one. */
  lemma {:induction false} PlaneLeaves(m: seq<byte>, f: Files, k: nat, j: nat)
    requires j < k && PlaneOff(k - 1) + 4 <= |m| && TokensFit(f)
    ensures U32(SwappedPlanes(m, f, k), PlaneOff(j)) == Outgoing(m, PlaneOff(j), 1, f)
  {
    var before := SwappedPlanes(m, f, k - 1);
    SwappedIs(before, PlaneOff(k - 1), 1, f);
    if j == k - 1 {
      PlaneYet(m, f, j);
      U32Agree(before, PlaneOff(j), m, PlaneOff(j));
    } else {
      PlaneLeaves(m, f, k - 1, j);
      var after := SwappedPlanes(m, f, k);
      assert forall i | PlaneOff(j) <= i < PlaneOff(j) + 4 :: after[i] == before[i];
      assert after[PlaneOff(j)..PlaneOff(j) + 4] == before[PlaneOff(j)..PlaneOff(j) + 4];
      U32Agree(after, PlaneOff(j), before, PlaneOff(j));
    }
  }

  /** The fields saved are the caller's, and they are those of the planes with a descriptor. */
  lemma {:induction false} PlaneFieldsAre(m: seq<byte>, k: nat, i: nat)
    requires k > 0 ==> PlaneOff(k - 1) + 4 <= |m|
    ensures FieldsOf(m, PlaneFields(m, k))
    ensures InField(PlaneFields(m, k), i)
            <==> exists j | 0 <= j < k :: PlaneOff(j) <= i < PlaneOff(j) + 4 && S32(m, PlaneOff(j)) > 0
  {
    if k > 0 {
      PlaneFieldsAre(m, k - 1, i);
      var fs, fs' := PlaneFields(m, k - 1), PlaneFields(m, k);
      assert forall j | 0 <= j < |fs| :: fs'[j] == fs[j];
      if S32(m, PlaneOff(k - 1)) > 0 {
        assert fs'[|fs|] == Field(PlaneOff(k - 1), m[PlaneOff(k - 1)..PlaneOff(k - 1) + 4]);
      }
    }
  }

  /** The control registers a surface by descriptor: its command, its size and its flag say so. */
  predicate ByDescriptor(command: nat, aux: seq<byte>) {
    command == REGISTER_SURFACE && |aux| >= PLANE0 + PLANES * PLANE_STRIDE && aux[USE_FD] != 0
  }

  /** The fields of a control that are swapped and put back. */
  function SurfaceFields(command: nat, aux: seq<byte>): seq<Field> {
    if ByDescriptor(command, aux) then PlaneFields(aux, PLANES) else []
  }

  /** The plane descriptors of a surface registration by descriptor, of which only positive ones are
      swapped; every other control is left alone. */
  method SwapPlanes(command: nat, aux: array<byte>, f: Files) returns (fs: seq<Field>)
    requires TokensFit(f)
    modifies aux
    ensures fs == SurfaceFields(command, old(aux[..]))
    ensures ByDescriptor(command, old(aux[..])) ==> aux[..] == SwappedPlanes(old(aux[..]), f, PLANES)
    ensures !ByDescriptor(command, old(aux[..])) ==> aux[..] == old(aux[..])
  {
    fs := [];
    if command != REGISTER_SURFACE || aux.Length < PLANE0 + PLANES * PLANE_STRIDE || aux[USE_FD] == 0 {
      return;
    }
    ghost var was := aux[..];
    var k := 0;
    while k < PLANES
      invariant k <= PLANES && aux[..] == SwappedPlanes(was, f, k) && fs == PlaneFields(was, k)
    {
      fs := SwapPlane(aux, f, k, was, fs);
      k := k + 1;
    }
  }

  method SwapPlane(aux: array<byte>, f: Files, k: nat, ghost was: seq<byte>, fs: seq<Field>) returns (fs': seq<Field>)
    requires PlaneOff(k) + 4 <= |was| && TokensFit(f)
    requires aux[..] == SwappedPlanes(was, f, k) && fs == PlaneFields(was, k)
    modifies aux
    ensures aux[..] == SwappedPlanes(was, f, k + 1) && fs' == PlaneFields(was, k + 1)
  {
    var off := PlaneOff(k);
    PlaneYet(was, f, k);
    fs' := fs;
    if S32(aux[..], off) > 0 {
      fs' := fs + [Field(off, aux[..][off..off + 4])];
      SwapOne(aux, off, 1, f);
    }
  }

  /** Puts the caller's descriptors back into the response. */
  method RestoreFields(aux: array<byte>, fs: seq<Field>)
    requires forall i | 0 <= i < |fs| :: |fs[i].x| == 4 && fs[i].off + 4 <= aux.Length
    modifies aux
    ensures aux[..] == PutFields(old(aux[..]), fs, |fs|)
  {
    for i := 0 to |fs|
      invariant aux[..] == PutFields(old(aux[..]), fs, i)
    {
      Store(aux, fs[i].off, fs[i].x);
    }
  }

  lemma {:induction false} PutFieldsAt(aux: seq<byte>, m: seq<byte>, fs: seq<Field>, k: nat, i: nat)
    requires FieldsOf(aux, fs) && |m| == |aux| && k <= |fs| && i < |m|
    ensures PutFields(m, fs, k)[i]
            == if exists j | 0 <= j < k :: fs[j].off <= i < fs[j].off + 4 then aux[i] else m[i]
  {
    if k > 0 {
      PutFieldsAt(aux, m, fs, k - 1, i);
      var x := fs[k - 1];
      PutIndex(PutFields(m, fs, k - 1), x.off, x.x, i);
      if x.off <= i < x.off + 4 {
        assert aux[x.off..x.off + 4][i - x.off] == aux[i];
      }
    }
  }

  /** Whatever the host answers, every saved descriptor comes back as the caller wrote it, and every
      other byte is the host's. */
  lemma {:induction false} InnerRoundTrip(aux: seq<byte>, host: seq<byte>, fs: seq<Field>, i: nat)
    requires FieldsOf(aux, fs) && |host| == |aux| && i < |aux|
    ensures PutFields(host, fs, |fs|)[i] == if InField(fs, i) then aux[i] else host[i]
  {
    PutFieldsAt(aux, host, fs, |fs|, i);
  }

  /** Byte `i` is in the descriptor of a plane that has one. */
  predicate InPlaneFd(aux: seq<byte>, i: nat)
    requires |aux| >= PLANE0 + PLANES * PLANE_STRIDE
  {
    exists j | 0 <= j < PLANES :: PlaneOff(j) <= i < PlaneOff(j) + 4 && S32(aux, PlaneOff(j)) > 0
  }

  /** Whatever the host answers, each plane that has a descriptor in a registration by descriptor comes
      back with the caller's, and every other byte of every control is the host's. */
  lemma {:induction false} PlanesRoundTrip(command: nat, m: seq<byte>, host: seq<byte>, i: nat)
    requires |m| == |host| && i < |m|
    ensures FieldsOf(m, SurfaceFields(command, m))
    ensures PutFields(host, SurfaceFields(command, m), |SurfaceFields(command, m)|)[i]
            == if ByDescriptor(command, m) && InPlaneFd(m, i) then m[i] else host[i]
  {
    if ByDescriptor(command, m) {
      PlaneFieldsAre(m, PLANES, i);
      InnerRoundTrip(m, host, PlaneFields(m, PLANES), i);
    }
  }
}

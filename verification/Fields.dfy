/**
  Guest descriptors and process ids inside control parameters: how large each command's buffer is,
  which fields are swapped for host tokens on the way out, and how they come back.
 */
module Fields {
  import opened Bits
  import opened Bytes
  import Abi
  import Migrate
  import opened Options


  const EBADF := -9

  function Nr(cmd: nat): nat {
    cmd % 256
  }

  function Type(cmd: nat): nat {
    cmd / 256 % 256
  }

  function IocSize(cmd: nat): nat {
    cmd / 0x1_0000 % 0x4000
  }

  const FRONTEND := 0x46
  const NVKMS_CMD := 0xC010_6D00

  const UVM_REGISTER_GPU_VASPACE := 25
  const UVM_REGISTER_CHANNEL := 27
  const UVM_MAP_EXTERNAL := 33
  const UVM_MM_INITIALIZE := 75

  const CARD_INFO := 200
  const REGISTER_FD := 201
  const ALLOC_OS_EVENT := 206
  const FREE_OS_EVENT := 207
  const ALLOC_MEMORY := 0x27
  const CONTROL := 0x2a
  const ALLOC := 0x2b
  const IDLE_CHANNELS := 0x41
  const MAP_MEMORY := 0x4e
  const UNMAP_MEMORY := 0x4f
  const UPDATE_MAPPING := 0x5e

  // ── The size table ─────────────────────────────────────────────────────────

  /** Sizes of the memory-driver commands, matched on the whole command word. */
  function UvmSize(cmd: nat, prof: Abi.Profile): Option<nat> {
    if cmd == UVM_MAP_EXTERNAL then Some(prof.mapExtSize)
    else if cmd == 68 then Some(prof.semPoolSize)
    else if cmd in {0x3000_0001, 23, 24} then Some(16)
    else if cmd in {0x3000_0002, 39, UVM_MM_INITIALIZE} then Some(8)
    else if cmd in {37, UVM_REGISTER_GPU_VASPACE, 31} then Some(32)
    else if cmd in {38, 34, 43, 73, 72, 70} then Some(24)
    else if cmd == 26 then Some(20)
    else if cmd == 28 then Some(28)
    else if cmd in {UVM_REGISTER_CHANNEL, 51} then Some(48)
    else if cmd in {42, 46, 47, 29, 30} then Some(40)
    else None
  }

  /** Sizes of the frontend commands, matched on the command number alone. */
  function FrontendSize(cmd: nat, prof: Abi.Profile): Option<nat> {
    var nr, sz := Nr(cmd), IocSize(cmd);
    if nr == CARD_INFO then if sz == 0 || sz > 80 * 32 then None else Some(sz)
    else if nr == REGISTER_FD then Some(4)
    else if nr in {ALLOC_OS_EVENT, FREE_OS_EVENT, 0x29, 0x35} then Some(16)
    else if nr == 210 then Some(72)
    else if nr in {214, 218} then Some(8)
    else if nr == 215 then if sz == 0 then None else Some(sz)
    else if nr == 212 then Some(sz)
    else if nr in {ALLOC_MEMORY, MAP_MEMORY, IDLE_CHANNELS, 0x54} then Some(56)
    else if nr in {CONTROL, UNMAP_MEMORY} then Some(32)
    else if nr == ALLOC then if sz == 32 || sz == 48 then Some(sz) else None
    else if nr == 0x34 then Some(28)
    else if nr == 0x4a then Some(184)
    else if nr == 0x57 then Some(prof.nvos46Size)
    else if nr == 0x58 then Some(48)
    else if nr in {UPDATE_MAPPING, 0x70} then Some(40)
    else None
  }

  function ParamSize(cmd: nat, prof: Abi.Profile): Option<nat> {
    if cmd == NVKMS_CMD then Some(16)
    else if UvmSize(cmd, prof).Some? then UvmSize(cmd, prof)
    else FrontendSize(cmd, prof)
  }

  /** The size of the command comes from its number alone, whatever its type is. */
  predicate ByNumber(cmd: nat, prof: Abi.Profile) {
    cmd != NVKMS_CMD && UvmSize(cmd, prof).None?
  }

  /** Every word the sanitizer rewrites by its number also has its size by its number. */
  lemma {:induction false} DispatchesAgree(cmd: nat, prof: Abi.Profile)
    ensures Type(cmd) == FRONTEND ==> ByNumber(cmd, prof)
    ensures ByNumber(cmd, prof) ==> ParamSize(cmd, prof) == FrontendSize(cmd, prof)
  {
    assert Type(0x3000_0001) == 0 && Type(0x3000_0002) == 0 && Type(NVKMS_CMD) == 0x6D;
  }

  // ── Going out: the sanitizer ───────────────────────────────────────────────

  /** Signed 32-bit fields. */
  function S32(m: seq<byte>, off: nat): int
    requires off + 4 <= |m|
  {
    if U32(m, off) < 0x8000_0000 then U32(m, off) else U32(m, off) - TWO32
  }

  /** What the guest knows of its descriptors: `handle` gives the host token of one of its own device
      files, and `event` the token for an event file, which may be "none". */
  datatype Files = Files(handle: map<int, nat>, event: map<int, nat>)

  ghost predicate TokensFit(f: Files) {
    && (forall fd | fd in f.handle :: f.handle[fd] < 0x8000_0000) && (forall fd | fd in f.event :: f.event[fd] < TWO32)
  }

  /** Swaps a descriptor of at least `least` for its token; None is -EBADF. */
  function SwapFd(m: seq<byte>, off: nat, least: int, f: Files): (r: Option<seq<byte>>)
    requires off + 4 <= |m| && TokensFit(f)
    ensures r.Some? ==> |r.value| == |m|
  {
    var fd := S32(m, off);
    if fd < least then Some(m)
    else if fd in f.handle then Some(Put(m, off, U32Bytes(f.handle[fd])))
    else None
  }

  function SwapEvent(m: seq<byte>, off: nat, f: Files): (r: Option<seq<byte>>)
    requires off + 4 <= |m| && TokensFit(f)
    ensures r.Some? ==> |r.value| == |m|
  {
    var fd := S32(m, off);
    if fd == -1 then Some(m)
    else if fd in f.event then Some(Put(m, off, U32Bytes(f.event[fd])))
    else None
  }

  function Clear(m: seq<byte>, off: nat, n: nat): (r: seq<byte>)
    requires off + n <= |m|
    ensures |r| == |m|
  {
    Put(m, off, seq(n, _ => 0))
  }

  /** What decides whether a range of the caller's memory can be migrated; `outcome` is what a call that
      does work returns. */
  datatype Host = Host(isolate: bool, slotPages: nat, cps: seq<Migrate.CpuPage>, outcome: int)

  /** An allocation that describes the caller's own memory: its class, address and limit say so. */
  predicate OsDescriptor(m: seq<byte>)
    requires |m| == 56
  {
    U32(m, 12) == 0x71 && LE(m, 24, 8) != 0 && LE(m, 32, 8) > 0
  }

  /** The length passed on is the limit plus one, in 64 bits. */
  function MigrateLength(m: seq<byte>): nat
    requires |m| == 56
  {
    (LE(m, 32, 8) + 1) % TWO64
  }

  /** What migrating the described memory returns. */
  function MigrateResult(m: seq<byte>, h: Host): int
    requires |m| == 56
  {
    var pre := Migrate.Precheck(LE(m, 24, 8), MigrateLength(m), h.isolate, h.slotPages, h.cps);
    if pre.Some? then pre.value else h.outcome
  }

  /** The parameters as they leave the guest, or the error the caller gets. */
  datatype Outcome = Sent(m: seq<byte>) | Denied(err: int)

  function Known(r: Option<seq<byte>>): Outcome {
    if r.Some? then Sent(r.value) else Denied(EBADF)
  }

  /** The sanitizer, on a buffer of the size the table gives: every access lies inside it. */
  function Sanitize(cmd: nat, prof: Abi.Profile, m: seq<byte>, f: Files, h: Host): (r: Outcome)
    requires prof in Abi.PROFILES && ParamSize(cmd, prof) == Some(|m|) && TokensFit(f)
    ensures r.Sent? ==> |r.m| == |m|
  {
    if |m| == 0 then Sent(m)
    else if cmd == UVM_MM_INITIALIZE then Known(SwapFd(m, 0, 0, f))
    else if cmd in {UVM_REGISTER_GPU_VASPACE, UVM_REGISTER_CHANNEL} then Known(SwapFd(m, 16, 0, f))
    else if cmd == UVM_MAP_EXTERNAL then
      RowFits(prof);
      Known(SwapFd(m, prof.mapExtFdOff, 0, f))
    else if Type(cmd) != FRONTEND then Sent(m)
    else
      DispatchesAgree(cmd, prof);
      SanitizeFrontend(Nr(cmd), m, f, h)
  }

  /** The sizes the table gives the commands the sanitizer rewrites. */
  predicate FrontendSized(nr: nat, size: nat) {
    && (nr == ALLOC ==> size in {32, 48})
    && (nr in {ALLOC_MEMORY, MAP_MEMORY, IDLE_CHANNELS} ==> size == 56)
    && (nr in {CONTROL, UNMAP_MEMORY} ==> size == 32)
    && (nr == UPDATE_MAPPING ==> size == 40)
    && (nr == REGISTER_FD ==> size == 4)
    && (nr in {ALLOC_OS_EVENT, FREE_OS_EVENT} ==> size == 16)
  }

  function SanitizeFrontend(nr: nat, m: seq<byte>, f: Files, h: Host): (r: Outcome)
    requires TokensFit(f) && FrontendSized(nr, |m|)
    ensures r.Sent? ==> |r.m| == |m|
  {
    if nr == ALLOC then Sent(Clear(m, 16, if |m| == 48 then 16 else 8))
    else if nr == CONTROL then Sent(Clear(m, 16, 8))
    else if nr == ALLOC_MEMORY then
      var swapped := SwapFd(m, 48, 1, f);
      if swapped.None? then Denied(EBADF)
      else if OsDescriptor(m) then
        if MigrateResult(m, h) != 0 then Denied(MigrateResult(m, h)) else Sent(swapped.value)
      else Sent(Clear(swapped.value, 24, 8))
    else if nr == MAP_MEMORY then Known(SwapFd(Clear(m, 32, 8), 48, 0, f))
    else if nr == UNMAP_MEMORY then Sent(Clear(m, 16, 8))
    else if nr == UPDATE_MAPPING then Sent(Clear(m, 16, 16))
    else if nr == IDLE_CHANNELS then Sent(Clear(m, 12, 28))
    else if nr == REGISTER_FD then Known(SwapFd(m, 0, 0, f))
    else if nr in {ALLOC_OS_EVENT, FREE_OS_EVENT} then Known(SwapEvent(m, 8, f))
    else Sent(m)
  }

  lemma {:induction false} RowFits(prof: Abi.Profile)
    requires prof in Abi.PROFILES
    ensures prof.mapExtFdOff + 4 <= prof.mapExtSize && prof.mapExtFdOff >= 20
  {
    var i :| 0 <= i < |Abi.PROFILES| && Abi.PROFILES[i] == prof;
    Abi.RowsConsistent(i);
    assert i == 0 || i == 1 || i == 2 || i == 3 || i == 4 || i == 5 || i == 6 || i == 7;
  }

  // ── Coming back ────────────────────────────────────────────────────────────

  /** What the guest saved before the sanitizer ran; one thing per command. */
  datatype Saved =
    | Nothing
    | Address(x: seq<byte>) | Inner(x: seq<byte>) | Alloc64(p: seq<byte>, rights: seq<byte>, size: seq<byte>)
    | Alloc21(x: seq<byte>) | MmInit(x: seq<byte>) | RmCtrl(x: seq<byte>) | CtlFd(x: seq<byte>)
    | EventFd(x: seq<byte>) | MemoryFd(x: seq<byte>) | MapFd(x: seq<byte>)
    | Mapping(x: seq<byte>) | Linear(x: seq<byte>)

  function Save(cmd: nat, modeset: bool, m: seq<byte>): Saved {
    var nr := Nr(cmd);
    if modeset && |m| >= 16 then Address(m[8..16])
    else if nr == CONTROL && |m| == 32 then Inner(m[16..24])
    else if nr == ALLOC && |m| == 48 then Alloc64(m[16..24], m[24..32], m[32..36])
    else if nr == ALLOC && |m| == 32 then Alloc21(m[16..24])
    else if cmd == UVM_MM_INITIALIZE && |m| == 8 then MmInit(m[0..4])
    else if cmd in {UVM_REGISTER_GPU_VASPACE, UVM_REGISTER_CHANNEL, UVM_MAP_EXTERNAL} then
      if |m| >= 20 then RmCtrl(m[16..20]) else Nothing
    else if nr == REGISTER_FD && |m| >= 4 then CtlFd(m[0..4])
    else if nr in {ALLOC_OS_EVENT, FREE_OS_EVENT} && |m| >= 16 then EventFd(m[8..12])
    else if nr == ALLOC_MEMORY && |m| >= 56 then MemoryFd(m[48..52])
    else if nr == MAP_MEMORY && |m| >= 56 then MapFd(m[48..52])
    else if nr == UPDATE_MAPPING && |m| == 40 then Mapping(m[16..32])
    else if nr == UNMAP_MEMORY && |m| == 32 then Linear(m[16..24])
    else Nothing
  }

  predicate NonZero(x: seq<byte>) {
    exists i | 0 <= i < |x| :: x[i] != 0
  }

  function PutIf(m: seq<byte>, off: nat, x: seq<byte>): (r: seq<byte>)
    requires off + |x| <= |m|
    ensures |r| == |m|
  {
    if NonZero(x) then Put(m, off, x) else m
  }

  /** What the saved value is for: the response `m` with the caller's own values put back. */
  function Restore(cmd: nat, saved: Saved, m: seq<byte>): seq<byte>
    requires WellSaved(saved)
  {
    var nr := Nr(cmd);
    if saved.Address? && |m| >= 16 then Put(m, 8, saved.x)
    else if nr == CONTROL && saved.Inner? && |m| == 32 && NonZero(saved.x) then Put(m, 16, saved.x)
    else if nr == ALLOC && |m| == 48 && saved.Alloc64? then
      Put(PutIf(PutIf(m, 16, saved.p), 24, saved.rights), 32, saved.size)
    else if nr == ALLOC && saved.Alloc21? && |m| == 32 && NonZero(saved.x) then Put(m, 16, saved.x)
    else if saved.MmInit? && |m| == 8 then Put(m, 0, saved.x)
    else if saved.RmCtrl? && |m| >= 20 then Put(m, 16, saved.x)
    else if saved.CtlFd? && nr == REGISTER_FD && |m| >= 4 then Put(m, 0, saved.x)
    else if saved.EventFd? && nr in {ALLOC_OS_EVENT, FREE_OS_EVENT} && |m| >= 16 then Put(m, 8, saved.x)
    else if saved.MemoryFd? && nr == ALLOC_MEMORY && |m| >= 56 then Put(m, 48, saved.x)
    else if saved.MapFd? && nr == MAP_MEMORY && |m| >= 56 then Put(m, 48, saved.x)
    else if saved.Mapping? && nr == UPDATE_MAPPING && |m| == 40 then Clear(Put(m, 16, saved.x), 32, 4)
    else if saved.Linear? && nr == UNMAP_MEMORY && |m| == 32 then Clear(Put(m, 16, saved.x), 24, 4)
    else m
  }

  predicate WellSaved(s: Saved) {
    match s
    case Nothing => true
    case Address(x) => |x| == 8
    case Inner(x) => |x| == 8
    case Alloc64(p, rights, size) => |p| == 8 && |rights| == 8 && |size| == 4
    case Alloc21(x) => |x| == 8
    case MmInit(x) => |x| == 4
    case RmCtrl(x) => |x| == 4
    case CtlFd(x) => |x| == 4
    case EventFd(x) => |x| == 4
    case MemoryFd(x) => |x| == 4
    case MapFd(x) => |x| == 4
    case Mapping(x) => |x| == 16
    case Linear(x) => |x| == 8
  }

  /** The field of a command that is restored to the caller's descriptor. */
  function FdField(cmd: nat, prof: Abi.Profile): Option<nat> {
    if cmd == UVM_MM_INITIALIZE then Some(0)
    else if cmd in {UVM_REGISTER_GPU_VASPACE, UVM_REGISTER_CHANNEL} then Some(16)
    else if !ByNumber(cmd, prof) then None
    else if Nr(cmd) == REGISTER_FD then Some(0)
    else if Nr(cmd) in {ALLOC_OS_EVENT, FREE_OS_EVENT} then Some(8)
    else if Nr(cmd) in {ALLOC_MEMORY, MAP_MEMORY} then Some(48)
    else None
  }

  /** The response has the caller's descriptor in its field and the host's bytes everywhere else. */
  predicate ComesBack(cmd: nat, prof: Abi.Profile, modeset: bool, m: seq<byte>, host: seq<byte>)
    requires |host| == |m| && FdField(cmd, prof).Some? && FdField(cmd, prof).value + 4 <= |m|
    requires WellSaved(Save(cmd, modeset, m))
  {
    var off := FdField(cmd, prof).value;
    Restore(cmd, Save(cmd, modeset, m), host) == Put(host, off, m[off..off + 4])
  }

  lemma {:induction false} FdInside(cmd: nat, prof: Abi.Profile, modeset: bool, m: seq<byte>)
    requires prof in Abi.PROFILES && ParamSize(cmd, prof) == Some(|m|) && FdField(cmd, prof).Some?
    ensures FdField(cmd, prof).value + 4 <= |m| && WellSaved(Save(cmd, modeset, m))
    ensures |m| >= 16 <==> FdField(cmd, prof).value >= 8
  {
    DispatchesAgree(cmd, prof);
  }

  /** Whatever the host answers, the caller gets its own descriptor back and the host's other bytes:
      exactly unless the call is for a modeset file and has 16 bytes of parameters or more. */
  lemma {:induction false} DescriptorRoundTrip(cmd: nat, prof: Abi.Profile, modeset: bool, m: seq<byte>)
    requires prof in Abi.PROFILES && ParamSize(cmd, prof) == Some(|m|) && FdField(cmd, prof).Some?
    ensures FdField(cmd, prof).value + 4 <= |m| && WellSaved(Save(cmd, modeset, m))
    ensures (forall host: seq<byte> | |host| == |m| :: ComesBack(cmd, prof, modeset, m, host))
            <==> !modeset || |m| < 16
  {
    FdInside(cmd, prof, modeset, m);
    if !modeset || |m| < 16 {
      forall host: seq<byte> | |host| == |m|
        ensures ComesBack(cmd, prof, modeset, m, host)
      {
        OwnFieldRestored(cmd, prof, modeset, m, host);
      }
    } else {
      ModesetOverwrites(cmd, prof, m);
    }
  }

  lemma {:induction false} OwnFieldRestored(
    cmd: nat, prof: Abi.Profile, modeset: bool, m: seq<byte>, host: seq<byte>)
    requires prof in Abi.PROFILES && ParamSize(cmd, prof) == Some(|m|) && FdField(cmd, prof).Some?
    requires |host| == |m| && (!modeset || |m| < 16)
    ensures FdField(cmd, prof).value + 4 <= |m| && WellSaved(Save(cmd, modeset, m))
    ensures ComesBack(cmd, prof, modeset, m, host)
  {
    DispatchesAgree(cmd, prof);
  }

  /** A byte different from `b`. */
  function Other(b: byte): (r: byte)
    ensures r != b
  {
    if b == 0 then 1 else 0
  }

  /** A host that answers with different bytes throughout: its byte 8 or 12 does not come through. */
  lemma {:induction false} ModesetOverwrites(cmd: nat, prof: Abi.Profile, m: seq<byte>)
    requires prof in Abi.PROFILES && ParamSize(cmd, prof) == Some(|m|) && FdField(cmd, prof).Some? && |m| >= 16
    ensures FdField(cmd, prof).value + 4 <= |m| && WellSaved(Save(cmd, true, m))
    ensures exists host: seq<byte> | |host| == |m| :: !ComesBack(cmd, prof, true, m, host)
  {
    FdInside(cmd, prof, true, m);
    var host: seq<byte> := seq(|m|, i requires 0 <= i < |m| => Other(m[i]));
    var off := FdField(cmd, prof).value;
    var i := if off == 8 then 12 else 8;
    var back, want := Restore(cmd, Save(cmd, true, m), host), Put(host, off, m[off..off + 4]);
    assert off >= 8 && !(off <= i < off + 4);
    assert back == Put(host, 8, m[8..16]);
    PutIndex(host, 8, m[8..16], i);
    PutIndex(host, off, m[off..off + 4], i);
    assert back[i] == m[8..16][i - 8] == m[i] && want[i] == host[i] != m[i];
    assert !ComesBack(cmd, prof, true, m, host);
  }

  // ── What the sanitizer does, field by field ────────────────────────────────

  /** The descriptor of a command, wherever its version of the structure has it. */
  function FdAt(cmd: nat, prof: Abi.Profile): Option<nat> {
    if cmd == UVM_MAP_EXTERNAL then Some(prof.mapExtFdOff) else FdField(cmd, prof)
  }

  /** The bytes of a command, from the first up to the second, that hold the caller's pointers. */
  function PointerSpan(cmd: nat, prof: Abi.Profile, size: nat): (nat, nat) {
    if !ByNumber(cmd, prof) then (0, 0)
    else if Nr(cmd) == ALLOC then (16, if size == 48 then 32 else 24)
    else if Nr(cmd) in {CONTROL, UNMAP_MEMORY} then (16, 24)
    else if Nr(cmd) == ALLOC_MEMORY then (24, 32)
    else if Nr(cmd) == MAP_MEMORY then (32, 40)
    else if Nr(cmd) == UPDATE_MAPPING then (16, 32)
    else if Nr(cmd) == IDLE_CHANNELS then (12, 40)
    else (0, 0)
  }

  predicate InPointers(cmd: nat, prof: Abi.Profile, size: nat, i: nat) {
    PointerSpan(cmd, prof, size).0 <= i < PointerSpan(cmd, prof, size).1
  }

  /** Outside the descriptor and the pointers, the sanitizer changes no byte of any command. */
  lemma {:induction false} SanitizeFrame(cmd: nat, prof: Abi.Profile, m: seq<byte>, f: Files, h: Host, i: nat)
    requires prof in Abi.PROFILES && ParamSize(cmd, prof) == Some(|m|) && TokensFit(f) && i < |m|
    requires Sanitize(cmd, prof, m, f, h).Sent? && !InPointers(cmd, prof, |m|, i)
    requires FdAt(cmd, prof).Some? ==> !(FdAt(cmd, prof).value <= i < FdAt(cmd, prof).value + 4)
    ensures Sanitize(cmd, prof, m, f, h).m[i] == m[i]
  {
    DispatchesAgree(cmd, prof);
  }

  /** The command describes the caller's own memory, and is sent with its address. */
  predicate KeepsAddress(cmd: nat, m: seq<byte>) {
    Type(cmd) == FRONTEND && Nr(cmd) == ALLOC_MEMORY && |m| == 56 && OsDescriptor(m)
  }

  /** A pointer of the caller's leaves the guest as zero if the word has the frontend's type, but for a
      kept address, and as it was if the word has any other type. */
  lemma {:induction false} PointersAreStripped(
    cmd: nat, prof: Abi.Profile, m: seq<byte>, f: Files, h: Host, i: nat)
    requires prof in Abi.PROFILES && ParamSize(cmd, prof) == Some(|m|) && TokensFit(f) && i < |m|
    requires Sanitize(cmd, prof, m, f, h).Sent? && InPointers(cmd, prof, |m|, i)
    ensures Sanitize(cmd, prof, m, f, h).m[i]
            == if Type(cmd) == FRONTEND && !KeepsAddress(cmd, m) then 0 else m[i]
  {
    DispatchesAgree(cmd, prof);
  }

  /** No pointer leaves in this call. */
  ghost predicate Strips(cmd: nat, prof: Abi.Profile, m: seq<byte>, f: Files, h: Host)
    requires prof in Abi.PROFILES && ParamSize(cmd, prof) == Some(|m|) && TokensFit(f)
  {
    var r := Sanitize(cmd, prof, m, f, h);
    r.Sent? && !KeepsAddress(cmd, m) ==>
      forall i | 0 <= i < |m| && InPointers(cmd, prof, |m|, i) :: r.m[i] == 0
  }

  /** For a command whose structure has pointers, no buffer lets one out exactly when the word has the
      frontend's type. */
  lemma {:induction false} StripsExactly(cmd: nat, prof: Abi.Profile, size: nat)
    requires prof in Abi.PROFILES && ParamSize(cmd, prof) == Some(size)
    requires PointerSpan(cmd, prof, size) != (0, 0)
    ensures (forall m: seq<byte>, f, h | |m| == size && TokensFit(f) :: Strips(cmd, prof, m, f, h))
            <==> Type(cmd) == FRONTEND
  {
    if Type(cmd) == FRONTEND {
      forall m: seq<byte>, f, h | |m| == size && TokensFit(f)
        ensures Strips(cmd, prof, m, f, h)
      {
        AlwaysStrips(cmd, prof, m, f, h);
      }
    } else {
      var m: seq<byte>, f, h := seq(size, _ => 1), Files(map[], map[]), Host(false, 0, [], 0);
      SpanInside(cmd, prof, size);
      var i := PointerSpan(cmd, prof, size).0;
      assert InPointers(cmd, prof, size, i);
      PointersAreStripped(cmd, prof, m, f, h, i);
      assert !Strips(cmd, prof, m, f, h);
    }
  }

  lemma {:induction false} AlwaysStrips(cmd: nat, prof: Abi.Profile, m: seq<byte>, f: Files, h: Host)
    requires prof in Abi.PROFILES && ParamSize(cmd, prof) == Some(|m|) && TokensFit(f) && Type(cmd) == FRONTEND
    ensures Strips(cmd, prof, m, f, h)
  {
    var r := Sanitize(cmd, prof, m, f, h);
    if r.Sent? && !KeepsAddress(cmd, m) {
      forall i | 0 <= i < |m| && InPointers(cmd, prof, |m|, i)
        ensures r.m[i] == 0
      {
        PointersAreStripped(cmd, prof, m, f, h, i);
      }
    }
  }

  lemma {:induction false} SpanInside(cmd: nat, prof: Abi.Profile, size: nat)
    requires ParamSize(cmd, prof) == Some(size) && PointerSpan(cmd, prof, size) != (0, 0)
    ensures PointerSpan(cmd, prof, size).0 < PointerSpan(cmd, prof, size).1 <= size
    ensures cmd !in {UVM_MM_INITIALIZE, UVM_REGISTER_GPU_VASPACE, UVM_REGISTER_CHANNEL, UVM_MAP_EXTERNAL}
  {
    DispatchesAgree(cmd, prof);
  }

  /** A memory allocation by its number, under another type: sized, and passed through untouched. */
  lemma {:induction false} OtherTypeExample(prof: Abi.Profile, m: seq<byte>, f: Files, h: Host)
    requires prof in Abi.PROFILES && TokensFit(f) && |m| == 56
    ensures Nr(0xC038_4727) == ALLOC_MEMORY && ParamSize(0xC038_4727, prof) == Some(56)
    ensures PointerSpan(0xC038_4727, prof, 56) == (24, 32) && FdAt(0xC038_4727, prof) == Some(48)
    ensures Sanitize(0xC038_4727, prof, m, f, h) == Sent(m)
  {
    OtherWord();
  }

  lemma {:induction false} OtherWord()
    ensures Type(0xC038_4727) == 0x47 && Nr(0xC038_4727) == 0x27
  {
  }

  // ── Descriptors ────────────────────────────────────────────────────────────

  /** The sanitizer looks at the descriptor of the command. */
  predicate LooksAt(cmd: nat) {
    Type(cmd) == FRONTEND
    || cmd in {UVM_MM_INITIALIZE, UVM_REGISTER_GPU_VASPACE, UVM_REGISTER_CHANNEL, UVM_MAP_EXTERNAL}
  }

  predicate EventCommand(cmd: nat, prof: Abi.Profile) {
    ByNumber(cmd, prof) && Nr(cmd) in {ALLOC_OS_EVENT, FREE_OS_EVENT}
  }

  /** A descriptor value that means "none" to the command. */
  predicate NoDescriptor(cmd: nat, prof: Abi.Profile, fd: int) {
    if EventCommand(cmd, prof) then fd == -1
    else if ByNumber(cmd, prof) && Nr(cmd) == ALLOC_MEMORY then fd <= 0
    else fd < 0
  }

  function TokensFor(cmd: nat, prof: Abi.Profile, f: Files): map<int, nat> {
    if EventCommand(cmd, prof) then f.event else f.handle
  }

  /** The descriptor is none, or one the guest knows. */
  predicate KnownFd(cmd: nat, prof: Abi.Profile, f: Files, fd: int) {
    NoDescriptor(cmd, prof, fd) || fd in TokensFor(cmd, prof, f)
  }

  lemma {:induction false} U32Other(m: seq<byte>, off: nat, x: seq<byte>, at: nat)
    requires off + |x| <= |m| && at + 4 <= |m| && (at + 4 <= off || off + |x| <= at)
    ensures U32(Put(m, off, x), at) == U32(m, at)
  {
    var p := Put(m, off, x);
    forall i | at <= i < at + 4
      ensures p[i] == m[i]
    {
      PutIndex(m, off, x, i);
    }
    assert p[at..at + 4] == m[at..at + 4];
    U32Agree(p, at, m, at);
  }

  lemma {:induction false} U32Put(m: seq<byte>, off: nat, v: nat)
    requires off + 4 <= |m| && v < TWO32
    ensures U32(Put(m, off, U32Bytes(v)), off) == v
  {
    var p, x := Put(m, off, U32Bytes(v)), U32Bytes(v);
    forall k | 0 <= k < 4
      ensures p[off + k] == x[k]
    {
      PutIndex(m, off, x, off + k);
    }
    assert p[off..off + 4] == x[0..4];
    U32Agree(p, off, x, 0);
  }

  /** The sanitizer looks at the descriptor exactly of the memory driver's and the frontend's words. Then
      the command is sent exactly when the descriptor is known and described memory could be migrated,
      with the descriptor's token, and otherwise the error says which of the two it was. Any other word
      is sent with the descriptor as it is. */
  lemma {:induction false} DescriptorIsSwapped(cmd: nat, prof: Abi.Profile, m: seq<byte>, f: Files, h: Host)
    requires prof in Abi.PROFILES && ParamSize(cmd, prof) == Some(|m|) && TokensFit(f) && FdAt(cmd, prof).Some?
    ensures FdAt(cmd, prof).value + 4 <= |m|
    ensures var off := FdAt(cmd, prof).value;
            var fd := S32(m, off);
            var r := Sanitize(cmd, prof, m, f, h);
            if !LooksAt(cmd) then r == Sent(m)
            else if !KnownFd(cmd, prof, f, fd) then r == Denied(EBADF)
            else if KeepsAddress(cmd, m) && MigrateResult(m, h) != 0 then r == Denied(MigrateResult(m, h))
            else && r.Sent?
                 && U32(r.m, off)
                    == if NoDescriptor(cmd, prof, fd) then U32(m, off) else TokensFor(cmd, prof, f)[fd]
  {
    RowFits(prof);
    DispatchesAgree(cmd, prof);
    if LooksAt(cmd) {
      if Type(cmd) == FRONTEND {
        FrontendSwaps(cmd, prof, m, f, h);
      } else {
        MemoryDriverSwaps(cmd, prof, m, f, h);
      }
    }
  }

  lemma {:induction false} MemoryDriverSwaps(cmd: nat, prof: Abi.Profile, m: seq<byte>, f: Files, h: Host)
    requires prof in Abi.PROFILES && ParamSize(cmd, prof) == Some(|m|) && TokensFit(f)
    requires cmd in {UVM_MM_INITIALIZE, UVM_REGISTER_GPU_VASPACE, UVM_REGISTER_CHANNEL, UVM_MAP_EXTERNAL}
    ensures FdAt(cmd, prof).Some? && FdAt(cmd, prof).value + 4 <= |m| && !KeepsAddress(cmd, m)
    ensures var off := FdAt(cmd, prof).value;
            && Sanitize(cmd, prof, m, f, h) == Known(SwapFd(m, off, 0, f))
            && (S32(m, off) in f.handle ==>
                  U32(Put(m, off, U32Bytes(f.handle[S32(m, off)])), off) == f.handle[S32(m, off)])
  {
    RowFits(prof);
    var off := FdAt(cmd, prof).value;
    if S32(m, off) in f.handle {
      U32Put(m, off, f.handle[S32(m, off)]);
    }
  }

  lemma {:induction false} FrontendSwaps(cmd: nat, prof: Abi.Profile, m: seq<byte>, f: Files, h: Host)
    requires prof in Abi.PROFILES && ParamSize(cmd, prof) == Some(|m|) && TokensFit(f)
    requires Type(cmd) == FRONTEND && FdAt(cmd, prof).Some?
    ensures FdAt(cmd, prof).value + 4 <= |m|
    ensures var off := FdAt(cmd, prof).value;
            var fd := S32(m, off);
            var r := Sanitize(cmd, prof, m, f, h);
            if !KnownFd(cmd, prof, f, fd) then r == Denied(EBADF)
            else if KeepsAddress(cmd, m) && MigrateResult(m, h) != 0 then r == Denied(MigrateResult(m, h))
            else && r.Sent?
                 && U32(r.m, off)
                    == if NoDescriptor(cmd, prof, fd) then U32(m, off) else TokensFor(cmd, prof, f)[fd]
  {
    DispatchesAgree(cmd, prof);
    var off := FdAt(cmd, prof).value;
    var fd := S32(m, off);
    if fd in TokensFor(cmd, prof, f) {
      U32Put(m, off, TokensFor(cmd, prof, f)[fd]);
    }
    if Nr(cmd) in {ALLOC_MEMORY, MAP_MEMORY} {
      MemoryDescriptor(m, f);
    }
  }

  /** Clearing the pointer and swapping the descriptor do not meet. */
  lemma {:induction false} MemoryDescriptor(m: seq<byte>, f: Files)
    requires |m| == 56 && TokensFit(f)
    ensures S32(Clear(m, 32, 8), 48) == S32(m, 48)
    ensures SwapFd(m, 48, 1, f).Some? ==>
              U32(Clear(SwapFd(m, 48, 1, f).value, 24, 8), 48) == U32(SwapFd(m, 48, 1, f).value, 48)
    ensures S32(m, 48) in f.handle ==>
              U32(Put(Clear(m, 32, 8), 48, U32Bytes(f.handle[S32(m, 48)])), 48) == f.handle[S32(m, 48)]
  {
    U32Other(m, 32, seq(8, _ => 0), 48);
    if SwapFd(m, 48, 1, f).Some? {
      U32Other(SwapFd(m, 48, 1, f).value, 24, seq(8, _ => 0), 48);
    }
    if S32(m, 48) in f.handle {
      U32Put(Clear(m, 32, 8), 48, f.handle[S32(m, 48)]);
    }
  }

  // ── The address that is kept ───────────────────────────────────────────────

  /** The caller describes `limit + 1` bytes. A command that is sent with their address took every page
      of them exactly when the checks of the migration let it work and rounding up their end did not
      overflow. */
  lemma {:induction false} KeptAddressIsMigrated(m: seq<byte>, h: Host)
    requires |m| == 56 && OsDescriptor(m) && MigrateResult(m, h) == 0
    ensures var gva, want := LE(m, 24, 8), LE(m, 32, 8) + 1;
            var (first, count) := Migrate.Taken(gva, MigrateLength(m), h.isolate, h.slotPages, h.cps);
            (forall x | gva / Migrate.PAGE <= x <= (gva + want - 1) / Migrate.PAGE :: Migrate.InPages(x, first, count))
            <==> && Migrate.Precheck(gva, MigrateLength(m), h.isolate, h.slotPages, h.cps).None?
                 && gva + want + Migrate.PAGE - 1 < TWO64
  {
    Word64(m, 24);
    Word64(m, 32);
    Migrate.TakenCovers(LE(m, 24, 8), LE(m, 32, 8) + 1, h.isolate, h.slotPages, h.cps);
  }

  lemma {:induction false} Word64(m: seq<byte>, off: nat)
    requires off + 8 <= |m|
    ensures LE(m, off, 8) < TWO64
  {
    LEBound(m, off, 8);
    assert Pow256(8) == TWO64;
  }

  /** The whole address space: the length wraps to zero, no page is taken and the address leaves. */
  lemma {:induction false} WholeSpaceKept(m: seq<byte>, h: Host)
    requires |m| == 56 && OsDescriptor(m) && LE(m, 32, 8) == TWO64 - 1
    ensures MigrateResult(m, h) == 0
    ensures Migrate.Taken(LE(m, 24, 8), MigrateLength(m), h.isolate, h.slotPages, h.cps).1 == 0
  {
  }

  // ── Every byte that comes back ─────────────────────────────────────────────

  /** Whose a byte of a response is: the caller's, the caller's unless the whole field was zero, zero, or
      the host's. */
  datatype Source = Callers | CallersField(from: nat, to: nat) | Zero | Hosts

  /** The descriptor field that is restored; for external mappings it is not where their descriptor is. */
  function FdBack(cmd: nat, prof: Abi.Profile): Option<nat> {
    if cmd == UVM_MAP_EXTERNAL then Some(16) else FdField(cmd, prof)
  }

  function SourceOf(cmd: nat, prof: Abi.Profile, modeset: bool, size: nat, i: nat): Source {
    var nr, fd := Nr(cmd), FdBack(cmd, prof);
    if modeset && size >= 16 then if 8 <= i < 16 then Callers else Hosts
    else if fd.Some? then if fd.value <= i < fd.value + 4 then Callers else Hosts
    else if !ByNumber(cmd, prof) then Hosts
    else if nr in {CONTROL, ALLOC} && 16 <= i < 24 then CallersField(16, 24)
    else if nr == ALLOC && size == 48 && 24 <= i < 32 then CallersField(24, 32)
    else if nr == ALLOC && size == 48 && 32 <= i < 36 then Callers
    else if nr == UPDATE_MAPPING && 16 <= i < 32 then Callers
    else if nr == UPDATE_MAPPING && 32 <= i < 36 then Zero
    else if nr == UNMAP_MEMORY && 16 <= i < 24 then Callers
    else if nr == UNMAP_MEMORY && 24 <= i < 28 then Zero
    else Hosts
  }

  function ByteFrom(src: Source, m: seq<byte>, host: seq<byte>, i: nat): byte
    requires i < |m| == |host| && (src.CallersField? ==> src.from <= src.to <= |m|)
  {
    match src
    case Callers => m[i]
    case CallersField(from, to) => if NonZero(m[from..to]) then m[i] else host[i]
    case Zero => 0
    case Hosts => host[i]
  }

  /** For every command, profile and kind of file, and whatever the host answers: every byte the caller
      gets is its own, zero or the host's, as the table says. */
  lemma {:induction false} RestoreExact(
    cmd: nat, prof: Abi.Profile, modeset: bool, m: seq<byte>, host: seq<byte>, i: nat)
    requires prof in Abi.PROFILES && ParamSize(cmd, prof) == Some(|m|) && |host| == |m| && i < |m|
    ensures WellSaved(Save(cmd, modeset, m)) && |Restore(cmd, Save(cmd, modeset, m), host)| == |m|
    ensures var src := SourceOf(cmd, prof, modeset, |m|, i);
            && (src.CallersField? ==> src.from <= src.to <= |m|)
            && Restore(cmd, Save(cmd, modeset, m), host)[i] == ByteFrom(src, m, host, i)
  {
    DispatchesAgree(cmd, prof);
    if modeset && |m| >= 16 {
      PutIndex(host, 8, m[8..16], i);
    } else if FdBack(cmd, prof).Some? {
      FdByte(cmd, prof, modeset, m, host, i);
    } else if ByNumber(cmd, prof) && Nr(cmd) in {CONTROL, ALLOC, UPDATE_MAPPING, UNMAP_MEMORY} {
      NumberedByte(cmd, prof, modeset, m, host, i);
    }
  }

  lemma {:induction false} FdByte(
    cmd: nat, prof: Abi.Profile, modeset: bool, m: seq<byte>, host: seq<byte>, i: nat)
    requires prof in Abi.PROFILES && ParamSize(cmd, prof) == Some(|m|) && |host| == |m| && i < |m|
    requires FdBack(cmd, prof).Some? && (!modeset || |m| < 16)
    ensures FdBack(cmd, prof).value + 4 <= |m|
    ensures WellSaved(Save(cmd, modeset, m)) && |Restore(cmd, Save(cmd, modeset, m), host)| == |m|
    ensures var off := FdBack(cmd, prof).value;
            Restore(cmd, Save(cmd, modeset, m), host)[i] == if off <= i < off + 4 then m[i] else host[i]
  {
    var off := FdBack(cmd, prof).value;
    if cmd == UVM_MAP_EXTERNAL {
      ExternalLayout(prof);
    } else {
      OwnFieldRestored(cmd, prof, modeset, m, host);
    }
    PutIndex(host, off, m[off..off + 4], i);
  }

  lemma {:induction false} NumberedByte(
    cmd: nat, prof: Abi.Profile, modeset: bool, m: seq<byte>, host: seq<byte>, i: nat)
    requires prof in Abi.PROFILES && ParamSize(cmd, prof) == Some(|m|) && |host| == |m| && i < |m|
    requires ByNumber(cmd, prof) && Nr(cmd) in {CONTROL, ALLOC, UPDATE_MAPPING, UNMAP_MEMORY}
    requires FdBack(cmd, prof).None? && (!modeset || |m| < 16)
    ensures WellSaved(Save(cmd, modeset, m)) && |Restore(cmd, Save(cmd, modeset, m), host)| == |m|
    ensures var src := SourceOf(cmd, prof, modeset, |m|, i);
            && (src.CallersField? ==> src.from <= src.to <= |m|)
            && Restore(cmd, Save(cmd, modeset, m), host)[i] == ByteFrom(src, m, host, i)
  {
    DispatchesAgree(cmd, prof);
    if Nr(cmd) == ALLOC && |m| == 48 {
      AllocByte(m, host, i);
    } else if Nr(cmd) in {CONTROL, ALLOC} {
      PutIndex(host, 16, m[16..24], i);
    } else if Nr(cmd) == UPDATE_MAPPING {
      PutIndex(host, 16, m[16..32], i);
      PutIndex(Put(host, 16, m[16..32]), 32, seq(4, _ => 0), i);
    } else {
      PutIndex(host, 16, m[16..24], i);
      PutIndex(Put(host, 16, m[16..24]), 24, seq(4, _ => 0), i);
    }
  }

  lemma {:induction false} AllocByte(m: seq<byte>, host: seq<byte>, i: nat)
    requires |m| == |host| == 48 && i < 48
    ensures Put(PutIf(PutIf(host, 16, m[16..24]), 24, m[24..32]), 32, m[32..36])[i] ==
            if 16 <= i < 24 then ByteFrom(CallersField(16, 24), m, host, i)
            else if 24 <= i < 32 then ByteFrom(CallersField(24, 32), m, host, i)
            else if 32 <= i < 36 then m[i]
            else host[i]
  {
    var a := PutIf(host, 16, m[16..24]);
    PutIndex(host, 16, m[16..24], i);
    PutIndex(a, 24, m[24..32], i);
    PutIndex(PutIf(a, 24, m[24..32]), 32, m[32..36], i);
  }

  // ── Coming back, once more ─────────────────────────────────────────────────

  /** A pointer that the host leaves as it was sent comes back as the caller passed it, exactly unless it
      was stripped from a call for a modeset file, which restores another field. */
  lemma {:induction false} PointersComeBack(
    cmd: nat, prof: Abi.Profile, modeset: bool, m: seq<byte>, f: Files, h: Host, host: seq<byte>, i: nat)
    requires prof in Abi.PROFILES && ParamSize(cmd, prof) == Some(|m|) && TokensFit(f) && |host| == |m| && i < |m|
    requires ByNumber(cmd, prof) && Nr(cmd) in {ALLOC, CONTROL, UNMAP_MEMORY, UPDATE_MAPPING}
    requires InPointers(cmd, prof, |m|, i)
    requires Sanitize(cmd, prof, m, f, h).Sent? && host[i] == Sanitize(cmd, prof, m, f, h).m[i]
    ensures WellSaved(Save(cmd, modeset, m)) && |Restore(cmd, Save(cmd, modeset, m), host)| == |m|
    ensures Restore(cmd, Save(cmd, modeset, m), host)[i] == m[i]
            <==> !modeset || Type(cmd) != FRONTEND || m[i] == 0
  {
    PointersAreStripped(cmd, prof, m, f, h, i);
    RestoreExact(cmd, prof, modeset, m, host, i);
    var src := SourceOf(cmd, prof, modeset, |m|, i);
    if src.CallersField? {
      assert m[src.from..src.to][i - src.from] == m[i];
    }
  }

  /** External mappings have their descriptor at the profile's offset and are restored at offset 16. If
      the host leaves the field alone, the caller's descriptor comes back exactly when it was none or is
      its own token; the host's bytes at 16 come through exactly when they are the caller's. */
  lemma {:induction false} ExternalMappingRoundTrip(
    prof: Abi.Profile, m: seq<byte>, f: Files, h: Host, host: seq<byte>)
    requires prof in Abi.PROFILES && |m| == |host| == prof.mapExtSize && TokensFit(f)
    requires ParamSize(UVM_MAP_EXTERNAL, prof) == Some(|m|) && Sanitize(UVM_MAP_EXTERNAL, prof, m, f, h).Sent?
    requires prof.mapExtFdOff + 4 <= |m|
    requires var off := prof.mapExtFdOff;
             host[off..off + 4] == Sanitize(UVM_MAP_EXTERNAL, prof, m, f, h).m[off..off + 4]
    ensures WellSaved(Save(UVM_MAP_EXTERNAL, false, m))
    ensures var off := prof.mapExtFdOff;
            var fd := S32(m, off);
            var back := Restore(UVM_MAP_EXTERNAL, Save(UVM_MAP_EXTERNAL, false, m), host);
            && |back| == |m|
            && (U32(back, off) == U32(m, off)
                <==> NoDescriptor(UVM_MAP_EXTERNAL, prof, fd) || (fd in f.handle && f.handle[fd] == fd))
            && (back[16..20] == host[16..20] <==> m[16..20] == host[16..20])
  {
    var off := prof.mapExtFdOff;
    ExternalLayout(prof);
    DescriptorIsSwapped(UVM_MAP_EXTERNAL, prof, m, f, h);
    var r := Sanitize(UVM_MAP_EXTERNAL, prof, m, f, h).m;
    U32Agree(host, off, r, off);
    U32Other(host, 16, m[16..20], off);
    PutAt(host, 16, m[16..20]);
    var back := Put(host, 16, m[16..20]);
    assert Restore(UVM_MAP_EXTERNAL, Save(UVM_MAP_EXTERNAL, false, m), host) == back;
    assert back[16..20] == m[16..20];
    LEBound(m, off, 4);
    assert Pow256(4) == TWO32;
  }

  lemma {:induction false} ExternalLayout(prof: Abi.Profile)
    requires prof in Abi.PROFILES
    ensures 20 <= prof.mapExtFdOff && prof.mapExtFdOff + 4 <= prof.mapExtSize && Nr(UVM_MAP_EXTERNAL) == 33
  {
    RowFits(prof);
  }

  // ── In place ───────────────────────────────────────────────────────────────

  method SwapInPlace(buf: array<byte>, off: nat, least: int, f: Files) returns (ok: bool)
    requires off + 4 <= buf.Length && TokensFit(f)
    modifies buf
    ensures var r := SwapFd(old(buf[..]), off, least, f);
            ok == r.Some? && buf[..] == if ok then r.value else old(buf[..])
  {
    var fd := S32(buf[..], off);
    if fd < least {
      return true;
    }
    ok := fd in f.handle;
    if ok {
      Store(buf, off, U32Bytes(f.handle[fd]));
    }
  }

  method EventInPlace(buf: array<byte>, off: nat, f: Files) returns (ok: bool)
    requires off + 4 <= buf.Length && TokensFit(f)
    modifies buf
    ensures var r := SwapEvent(old(buf[..]), off, f);
            ok == r.Some? && buf[..] == if ok then r.value else old(buf[..])
  {
    var fd := S32(buf[..], off);
    if fd == -1 {
      return true;
    }
    ok := fd in f.event;
    if ok {
      Store(buf, off, U32Bytes(f.event[fd]));
    }
  }

  /** The error of an outcome, 0 if there is none. */
  function ErrorOf(r: Outcome): int {
    if r.Sent? then 0 else r.err
  }

  /** Rewrites the caller's parameters before they leave the guest; after an error they are not sent. */
  method SanitizeParams(cmd: nat, prof: Abi.Profile, buf: array<byte>, f: Files, h: Host) returns (err: int)
    requires prof in Abi.PROFILES && ParamSize(cmd, prof) == Some(buf.Length) && TokensFit(f)
    modifies buf
    ensures var r := Sanitize(cmd, prof, old(buf[..]), f, h);
            err == ErrorOf(r) && (err == 0 <==> r.Sent?) && (r.Sent? ==> buf[..] == r.m)
  {
    err := 0;
    if buf.Length == 0 {
      return;
    }
    var ok := true;
    if cmd == UVM_MM_INITIALIZE {
      ok := SwapInPlace(buf, 0, 0, f);
    } else if cmd in {UVM_REGISTER_GPU_VASPACE, UVM_REGISTER_CHANNEL} {
      ok := SwapInPlace(buf, 16, 0, f);
    } else if cmd == UVM_MAP_EXTERNAL {
      RowFits(prof);
      ok := SwapInPlace(buf, prof.mapExtFdOff, 0, f);
    } else if Type(cmd) == FRONTEND {
      DispatchesAgree(cmd, prof);
      err := SanitizeByNumber(Nr(cmd), buf, f, h);
      return;
    }
    err := if ok then 0 else EBADF;
  }

  method SanitizeByNumber(nr: nat, buf: array<byte>, f: Files, h: Host) returns (err: int)
    requires TokensFit(f) && FrontendSized(nr, buf.Length)
    modifies buf
    ensures var r := SanitizeFrontend(nr, old(buf[..]), f, h);
            err == ErrorOf(r) && (err == 0 <==> r.Sent?) && (r.Sent? ==> buf[..] == r.m)
  {
    var ok := true;
    if nr == ALLOC {
      Store(buf, 16, seq(if buf.Length == 48 then 16 else 8, _ => 0));
    } else if nr == CONTROL || nr == UNMAP_MEMORY {
      Store(buf, 16, seq(8, _ => 0));
    } else if nr == ALLOC_MEMORY {
      err := SanitizeAllocMemory(buf, f, h);
      return;
    } else if nr == MAP_MEMORY {
      Store(buf, 32, seq(8, _ => 0));
      ok := SwapInPlace(buf, 48, 0, f);
    } else if nr == UPDATE_MAPPING {
      Store(buf, 16, seq(16, _ => 0));
    } else if nr == IDLE_CHANNELS {
      Store(buf, 12, seq(28, _ => 0));
    } else if nr == REGISTER_FD {
      ok := SwapInPlace(buf, 0, 0, f);
    } else if nr == ALLOC_OS_EVENT || nr == FREE_OS_EVENT {
      ok := EventInPlace(buf, 8, f);
    }
    err := if ok then 0 else EBADF;
  }

  method SanitizeAllocMemory(buf: array<byte>, f: Files, h: Host) returns (err: int)
    requires TokensFit(f) && buf.Length == 56
    modifies buf
    ensures var r := SanitizeFrontend(ALLOC_MEMORY, old(buf[..]), f, h);
            err == ErrorOf(r) && (err == 0 <==> r.Sent?) && (r.Sent? ==> buf[..] == r.m)
  {
    var own, moved := OsDescriptor(buf[..]), MigrateResult(buf[..], h);
    var ok := SwapInPlace(buf, 48, 1, f);
    if !ok {
      return EBADF;
    }
    if own {
      return moved;
    }
    Store(buf, 24, seq(8, _ => 0));
    err := 0;
  }

  /** Puts the caller's own values back into the response, in place. */
  method RestoreParams(cmd: nat, saved: Saved, buf: array<byte>)
    requires WellSaved(saved)
    modifies buf
    ensures buf[..] == Restore(cmd, saved, old(buf[..]))
  {
    var nr, n := Nr(cmd), buf.Length;
    match saved {
      case Nothing =>
      case Address(x) => if n >= 16 { Store(buf, 8, x); }
      case Inner(x) => if nr == CONTROL && n == 32 && NonZero(x) { Store(buf, 16, x); }
      case Alloc64(p, rights, size) =>
        if nr == ALLOC && n == 48 {
          if NonZero(p) { Store(buf, 16, p); }
          if NonZero(rights) { Store(buf, 24, rights); }
          Store(buf, 32, size);
        }
      case Alloc21(x) => if nr == ALLOC && n == 32 && NonZero(x) { Store(buf, 16, x); }
      case MmInit(x) => if n == 8 { Store(buf, 0, x); }
      case RmCtrl(x) => if n >= 20 { Store(buf, 16, x); }
      case CtlFd(x) => if nr == REGISTER_FD && n >= 4 { Store(buf, 0, x); }
      case EventFd(x) => if nr in {ALLOC_OS_EVENT, FREE_OS_EVENT} && n >= 16 { Store(buf, 8, x); }
      case MemoryFd(x) => if nr == ALLOC_MEMORY && n >= 56 { Store(buf, 48, x); }
      case MapFd(x) => if nr == MAP_MEMORY && n >= 56 { Store(buf, 48, x); }
      case Mapping(x) =>
        if nr == UPDATE_MAPPING && n == 40 {
          Store(buf, 16, x);
          Store(buf, 32, seq(4, _ => 0));
        }
      case Linear(x) =>
        if nr == UNMAP_MEMORY && n == 32 {
          Store(buf, 16, x);
          Store(buf, 24, seq(4, _ => 0));
        }
    }
  }
}

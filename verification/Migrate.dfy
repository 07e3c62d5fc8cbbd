/**
  Moving a range of user memory, chunk by chunk, from pinned pages onto host memory objects.

  Offsets, lengths and slot sizes inside the range are multiples of a page, so the loops count
  pages; the rounding of the request and the window check are on bytes, modulo 2^64.
 */
module Migrate {
  import opened Bits
  import opened Bytes
  import opened Options

  const PAGE := 4096
  const CHUNK := 512
  const MAX_RANGE := 0x8000_0000

  const EINVAL := -22
  const E2BIG := -7
  const ENOENT := -2
  const ENOMEM := -12
  const EFAULT := -14
  const ENOSPC := -28
  const EIO := -5

  type Page = seq<byte>

  // ── The range a request covers ─────────────────────────────────────────────

  function AlignDown(x: nat): nat {
    x - x % PAGE
  }

  function SpanStart(gva: nat): nat {
    AlignDown(gva)
  }

  function SpanEnd(gva: nat, len: nat): nat {
    AlignDown((gva + len + PAGE - 1) % TWO64)
  }

  /** The pages taken cover the request exactly when rounding up its end does not overflow. */
  lemma {:induction false} SpanCovers(gva: nat, len: nat)
    requires gva < TWO64 && 0 < len < TWO64
    ensures SpanStart(gva) <= gva && gva + len <= SpanEnd(gva, len) <==> gva + len + PAGE - 1 < TWO64
    ensures gva + len + PAGE - 1 < TWO64 ==> SpanEnd(gva, len) < gva + len + PAGE
  {
  }

  /** Overflowing requests pass the overflow test exactly when they wrap round to their own
      first page; then at most one page is taken. */
  lemma {:induction false} OverflowAccepted(gva: nat, len: nat)
    requires gva < TWO64 && 0 < len < TWO64 && gva + len + PAGE - 1 >= TWO64
    ensures SpanStart(gva) <= SpanEnd(gva, len)
            <==> TWO64 - (PAGE - 1) - gva % PAGE <= len && gva + len + PAGE - 1 < 2 * TWO64
    ensures SpanStart(gva) <= SpanEnd(gva, len) ==> SpanEnd(gva, len) <= SpanStart(gva) + PAGE
  {
  }

  /** A request for nearly the whole address space that is accepted and takes no page. */
  lemma {:induction false} OverflowExample()
    ensures SpanStart(0x1000) == SpanEnd(0x1000, TWO64 - 0x800) == 0x1000
  {
  }

  /** The window test, with its additions modulo 2^64. */
  predicate GpaInWindow(base: nat, size: nat, gpa: nat, len: nat) {
    && base != 0 && size != 0 && gpa >= base
    && (gpa + len) % TWO64 <= (base + size) % TWO64
    && (gpa + len) % TWO64 >= gpa
  }

  /** For a window that does not itself wrap, the test is containment. */
  lemma {:induction false} GpaInWindowExact(base: nat, size: nat, gpa: nat, len: nat)
    requires base + size < TWO64 && gpa < TWO64 && len < TWO64
    ensures GpaInWindow(base, size, gpa, len)
            <==> base != 0 && size != 0 && base <= gpa && gpa + len <= base + size
  {
    if gpa + len < TWO64 {
      assert (gpa + len) % TWO64 == gpa + len;
    } else {
      assert (gpa + len) % TWO64 == gpa + len - TWO64;
    }
  }

  // ── State ──────────────────────────────────────────────────────────────────

  /** What a user page is mapped to: a guest frame, or a page of the host's window. */
  datatype Entry = Anon(frame: nat) | Window(gpn: nat)

  /** The window pages of one isolate mapping. */
  datatype Extent = Extent(gpn: nat, len: nat)

  datatype Backing = Backing(handle: nat, index: nat)

  /** One recorded chunk. */
  datatype CpuPage = CpuPage(vpn: nat, gpn: nat, handle: nat, token: nat)


  /** What a load from user page `v` sees. */
  function Read(frames: map<nat, Page>, pte: map<nat, Entry>, window: map<nat, Backing>,
                handles: map<nat, seq<Page>>, v: nat): Option<Page>
  {
    if v !in pte then None else
      match pte[v]
      case Anon(f) => if f in frames then Some(frames[f]) else None
      case Window(g) =>
        if g in window && window[g].handle in handles && window[g].index < |handles[window[g].handle]|
        then Some(handles[window[g].handle][window[g].index]) else None
  }

  /** The window pages `gpn`, ... backed by the object `h` from its start. */
  function WindowOf(h: nat, gpn: nat, len: nat): map<nat, Backing> {
    if len == 0 then map[] else WindowOf(h, gpn, len - 1)[gpn + len - 1 := Backing(h, len - 1)]
  }

  /** User pages `v`, ... mapped to the window pages `gpn`, ... */
  function EntriesOf(v: nat, gpn: nat, len: nat): map<nat, Entry> {
    if len == 0 then map[] else EntriesOf(v, gpn, len - 1)[v + len - 1 := Window(gpn + len - 1)]
  }

  lemma {:induction false} WindowOfAt(h: nat, gpn: nat, len: nat)
    ensures forall g: nat :: g in WindowOf(h, gpn, len) <==> gpn <= g < gpn + len
    ensures forall g | g in WindowOf(h, gpn, len) :: WindowOf(h, gpn, len)[g] == Backing(h, g - gpn)
  {
    if len > 0 {
      WindowOfAt(h, gpn, len - 1);
    }
  }

  lemma {:induction false} EntriesOfAt(v: nat, gpn: nat, len: nat)
    ensures forall x: nat :: x in EntriesOf(v, gpn, len) <==> v <= x < v + len
    ensures forall x | x in EntriesOf(v, gpn, len) :: EntriesOf(v, gpn, len)[x] == Window(gpn + (x - v))
  {
    if len > 0 {
      EntriesOfAt(v, gpn, len - 1);
    }
  }

  function Without<T>(m: map<nat, T>, a: nat, len: nat): map<nat, T> {
    map x | x in m && !(a <= x < a + len) :: m[x]
  }

  /** The recorded chunks own distinct open handles and distinct live mappings. */
  ghost predicate Recorded(cps: seq<CpuPage>, handles: map<nat, seq<Page>>, tokens: map<nat, Extent>) {
    && (forall i | 0 <= i < |cps| :: cps[i].handle in handles && cps[i].token in tokens)
    && (forall i, j | 0 <= i < j < |cps| :: cps[i].handle != cps[j].handle && cps[i].token != cps[j].token)
  }

  /** `content` is what the pinned pages hold. */
  ghost predicate Contents(frames: map<nat, Page>, pages: seq<nat>, content: seq<Page>) {
    |content| == |pages| && forall i | 0 <= i < |pages| :: pages[i] in frames && frames[pages[i]] == content[i]
  }

  lemma {:induction false} UndoAdd<T>(m: map<nat, T>, k: nat, x: T)
    requires k !in m
    ensures m[k := x] - {k} == m
  {
  }

  lemma {:induction false} UndoWindow(w: map<nat, Backing>, h: nat, gpn: nat, len: nat)
    requires forall g | gpn <= g < gpn + len :: g !in w
    ensures Without(w + WindowOf(h, gpn, len), gpn, len) == w
  {
    WindowOfAt(h, gpn, len);
  }

  lemma {:induction false} ZapThenRemap(pte: map<nat, Entry>, v: nat, gpn: nat, len: nat)
    ensures Without(pte, v, len) + EntriesOf(v, gpn, len) == pte + EntriesOf(v, gpn, len)
  {
    EntriesOfAt(v, gpn, len);
  }

  /** Every ordinary entry names a frame that exists. */
  ghost predicate Backed(frames: map<nat, Page>, pte: map<nat, Entry>) {
    forall v | v in pte && pte[v].Anon? :: pte[v].frame in frames
  }

  /** The isolate's copies and the window refer to open handles. */
  ghost predicate Open(shared: set<nat>, window: map<nat, Backing>, handles: map<nat, seq<Page>>) {
    shared <= handles.Keys && forall g | g in window :: window[g].handle in handles
  }

  lemma {:induction false} RecordedGrows(cps: seq<CpuPage>, handles: map<nat, seq<Page>>, tokens: map<nat, Extent>,
                                         data: seq<Page>, e: Extent, cp: CpuPage)
    requires Recorded(cps, handles, tokens) && cp.handle !in handles && cp.token !in tokens
    ensures Recorded(cps, handles[cp.handle := data], tokens[cp.token := e])
    ensures Recorded(cps + [cp], handles[cp.handle := data], tokens[cp.token := e])
  {
  }

  lemma {:induction false} OpenGrows(shared: set<nat>, window: map<nat, Backing>, handles: map<nat, seq<Page>>,
                                     h: nat, data: seq<Page>, gpn: nat, len: nat)
    requires Open(shared, window, handles)
    ensures Open(shared + {h}, window + WindowOf(h, gpn, len), handles[h := data])
  {
    WindowOfAt(h, gpn, len);
  }

  lemma {:induction false} BackedAfter(frames: map<nat, Page>, pte: map<nat, Entry>, v: nat, gpn: nat, len: nat)
    requires Backed(frames, pte)
    ensures Backed(frames, pte + EntriesOf(v, gpn, len)) && Backed(frames, Without(pte, v, len))
  {
    EntriesOfAt(v, gpn, len);
  }

  /** The guest's page tables and pins, the host's objects and window, and the file's list of
      chunks. `gets` and `puts` log every page reference taken and dropped; `twice` lists the pages
      now held both pinned and uploaded, `dupMax` is the most there ever were; `failedRemaps` counts
      remaps that failed. Only the kernel and host calls below change these. */
  datatype World = World(
    pte: map<nat, Entry>, gets: seq<nat>, puts: seq<nat>, handles: map<nat, seq<Page>>, shared: set<nat>,
    tokens: map<nat, Extent>, window: map<nat, Backing>, cpuPages: seq<CpuPage>,
    twice: seq<Copy>, dupMax: nat, failedRemaps: nat)

  /** A pinned frame whose contents have been written to an open object. */
  datatype Copy = Copy(handle: nat, frame: nat)

  function Copies(h: nat, src: seq<nat>): (c: seq<Copy>)
    ensures |c| == |src| && forall i | 0 <= i < |c| :: c[i] == Copy(h, src[i])
  {
    seq(|src|, i requires 0 <= i < |src| => Copy(h, src[i]))
  }

  /** Dropping a pin of frame `f`: one copy of it, if there is one, is no longer held twice. */
  function Unpin(t: seq<Copy>, f: nat): seq<Copy> {
    if t == [] then [] else if t[0].frame == f then t[1..] else [t[0]] + Unpin(t[1..], f)
  }

  /** Dropping pins one after another. */
  function Unpinned(t: seq<Copy>, fs: seq<nat>): seq<Copy> {
    if fs == [] then t else Unpin(Unpinned(t, fs[..|fs| - 1]), fs[|fs| - 1])
  }

  /** Closing an object: its copies are gone. */
  function Unheld(t: seq<Copy>, h: nat): seq<Copy> {
    if t == [] then [] else if t[0].handle == h then Unheld(t[1..], h) else [t[0]] + Unheld(t[1..], h)
  }

  lemma {:induction false} UnheldAll(h: nat, src: seq<nat>)
    ensures Unheld(Copies(h, src), h) == []
  {
    if src != [] {
      UnheldAll(h, src[1..]);
      assert Copies(h, src)[1..] == Copies(h, src[1..]);
    }
  }

  lemma {:induction false} UnpinnedNone(fs: seq<nat>)
    ensures Unpinned([], fs) == []
  {
    if fs != [] {
      UnpinnedNone(fs[..|fs| - 1]);
    }
  }

  /** Pins dropped in the order of the upload. */
  lemma {:induction false} UnpinnedFront(h: nat, src: seq<nat>, k: nat)
    requires k <= |src|
    ensures Unpinned(Copies(h, src), src[..k]) == Copies(h, src[k..])
  {
    if k == 0 {
      assert src[0..] == src;
    } else {
      UnpinnedFront(h, src, k - 1);
      assert src[..k][..k - 1] == src[..k - 1];
      assert Copies(h, src[k - 1..])[1..] == Copies(h, src[k..]);
    }
  }

  lemma {:induction false} UnpinnedAll(h: nat, src: seq<nat>)
    ensures Unpinned(Copies(h, src), src) == []
  {
    UnpinnedFront(h, src, |src|);
    assert src[..|src|] == src;
  }

  ghost predicate Sound(frames: map<nat, Page>, w: World) {
    && Backed(frames, w.pte) && Open(w.shared, w.window, w.handles) && Recorded(w.cpuPages, w.handles, w.tokens)
    && |w.twice| <= w.dupMax
  }

  function Max(a: nat, b: nat): nat {
    if a < b then b else a
  }

  /** Pages stored into an open object. */
  function Wrote(w: World, h: nat, off: nat, data: seq<Page>, src: seq<nat>): World
    requires h in w.handles && off + |data| <= |w.handles[h]|
  {
    w.(handles := w.handles[h := w.handles[h][..off] + data + w.handles[h][off + |data|..]],
       twice := w.twice + Copies(h, src), dupMax := Max(w.dupMax, |w.twice| + |src|))
  }

  /** An object into which the pages `src` have been uploaded so far. */
  function Partial(w: World, h: nat, data: seq<Page>, src: seq<nat>): World {
    w.(handles := w.handles[h := data], twice := Copies(h, src), dupMax := Max(w.dupMax, |src|))
  }

  lemma {:induction false} PartialStart(w: World, h: nat, data: seq<Page>)
    requires h in w.handles && w.handles[h] == data && w.twice == []
    ensures w == Partial(w, h, data, [])
  {
    assert w.handles[h := data] == w.handles;
  }

  lemma {:induction false} PartialClosed(w: World, h: nat, data: seq<Page>, src: seq<nat>)
    ensures w.handles[h := data] - {h} == w.handles - {h} && Unheld(Copies(h, src), h) == []
  {
    UnheldAll(h, src);
  }

  /** One more batch extends what is uploaded. */
  lemma {:induction false} UploadStep(
    w: World, h: nat, data: seq<Page>, content: seq<Page>, pages: seq<nat>, coff: nat, uoff: nat, batch: nat)
    requires uoff + batch <= |data| && coff + uoff + batch <= |content| == |pages|
    requires data[..uoff] == content[coff..coff + uoff]
    ensures var more := content[coff + uoff..coff + uoff + batch];
            var data' := data[..uoff] + more + data[uoff + batch..];
            && data'[..uoff + batch] == content[coff..coff + (uoff + batch)]
            && Wrote(Partial(w, h, data, pages[coff..coff + uoff]), h, uoff, more,
                     pages[coff + uoff..coff + uoff + batch])
               == Partial(w, h, data', pages[coff..coff + (uoff + batch)])
  {
    var more := content[coff + uoff..coff + uoff + batch];
    var data' := data[..uoff] + more + data[uoff + batch..];
    assert w.handles[h := data][h := data'] == w.handles[h := data'];
    CopiesJoin(h, pages[coff..coff + uoff], pages[coff + uoff..coff + uoff + batch]);
    assert pages[coff..coff + uoff] + pages[coff + uoff..coff + uoff + batch] == pages[coff..coff + (uoff + batch)];
  }

  lemma {:induction false} CopiesJoin(h: nat, a: seq<nat>, b: seq<nat>)
    ensures Copies(h, a) + Copies(h, b) == Copies(h, a + b)
  {
  }

  /** An uploaded object: its contents, now held twice. */
  function Uploaded(w: World, h: nat, data: seq<Page>, src: seq<nat>): World {
    w.(handles := w.handles[h := data], twice := Copies(h, src), dupMax := Max(w.dupMax, |src|))
  }

  /** An object shared, mapped, and under the page tables. */
  function Placed(w: World, h: nat, v: nat, len: nat, gpn: nat, token: nat): World {
    w.(pte := w.pte + EntriesOf(v, gpn, len), shared := w.shared + {h},
       tokens := w.tokens[token := Extent(gpn, len)], window := w.window + WindowOf(h, gpn, len))
  }

  /** A chunk moved to the host: its record, its contents, and whether the record was kept. */
  datatype Moved = Moved(cp: CpuPage, data: seq<Page>, tracked: bool)

  /** Everything one migrated chunk changes, apart from its pins. */
  function Migrated(w: World, m: Moved): World {
    w.(pte := w.pte + EntriesOf(m.cp.vpn, m.cp.gpn, |m.data|), handles := w.handles[m.cp.handle := m.data],
       shared := w.shared + {m.cp.handle}, tokens := w.tokens[m.cp.token := Extent(m.cp.gpn, |m.data|)],
       window := w.window + WindowOf(m.cp.handle, m.cp.gpn, |m.data|),
       cpuPages := if m.tracked then w.cpuPages + [m.cp] else w.cpuPages)
  }

  /** Everything a failed chunk changes: nothing, unless the remap failed after the zap. */
  function Abandoned(w: World, v: nat, len: nat, remapFailed: bool): World {
    if remapFailed then w.(pte := Without(w.pte, v, len), failedRemaps := w.failedRemaps + 1) else w
  }

  /** The pins dropped and the duplication measured, which chunks change besides. */
  function Held(w: World, puts: seq<nat>, dupMax: nat): World {
    w.(puts := puts, dupMax := dupMax)
  }

  /** Ids and window pages the host hands out are unused. */
  ghost predicate Fresh(w: World, cp: CpuPage, len: nat) {
    cp.handle !in w.handles && cp.token !in w.tokens && forall g | cp.gpn <= g < cp.gpn + len :: g !in w.window
  }

  lemma {:induction false} MigratedSound(frames: map<nat, Page>, w: World, m: Moved)
    requires Sound(frames, w) && Fresh(w, m.cp, |m.data|)
    ensures Sound(frames, Migrated(w, m))
  {
    BackedAfter(frames, w.pte, m.cp.vpn, m.cp.gpn, |m.data|);
    OpenGrows(w.shared, w.window, w.handles, m.cp.handle, m.data, m.cp.gpn, |m.data|);
    RecordedGrows(w.cpuPages, w.handles, w.tokens, m.data, Extent(m.cp.gpn, |m.data|), m.cp);
  }

  lemma {:induction false} AbandonedSound(frames: map<nat, Page>, w: World, v: nat, len: nat, failed: bool)
    requires Sound(frames, w)
    ensures Sound(frames, Abandoned(w, v, len, failed))
  {
    BackedAfter(frames, w.pte, v, 0, len);
  }

  /** The three parts of a migrated chunk, put together. */
  lemma {:induction false} Composed(
    frames: map<nat, Page>, w0: World, w2: World, w3: World, m: Moved, src: seq<nat>)
    requires Sound(frames, w0) && Fresh(w0, m.cp, |src|) && |src| == |m.data| && w0.twice == []
    requires w2 == Placed(Uploaded(w0, m.cp.handle, m.data, src), m.cp.handle, m.cp.vpn, |src|, m.cp.gpn, m.cp.token)
    requires w3 == w2.(cpuPages := if m.tracked then w2.cpuPages + [m.cp] else w2.cpuPages, puts := w3.puts,
                       twice := Unpinned(w2.twice, src))
    ensures w3 == Held(Migrated(w0, m), w3.puts, w3.dupMax)
    ensures w3.dupMax == Max(w0.dupMax, |src|) && Sound(frames, w3)
  {
    UnpinnedAll(m.cp.handle, src);
    MigratedSound(frames, w0, m);
  }

  // ── Whole ranges ───────────────────────────────────────────────────────────

  /** The chunks of a list, migrated one after another. */
  function Run(w: World, live: seq<Moved>): World {
    if live == [] then w else Migrated(Run(w, live[..|live| - 1]), live[|live| - 1])
  }

  /** Each chunk used ids and window pages that were unused when it was placed. */
  ghost predicate AllFresh(w: World, live: seq<Moved>) {
    live != [] ==>
      && AllFresh(w, live[..|live| - 1])
      && Fresh(Run(w, live[..|live| - 1]), live[|live| - 1].cp, |live[|live| - 1].data|)
  }

  /** The chunks are the consecutive 2 MiB pieces of `content`, the last one possibly shorter. */
  ghost predicate Pieces(live: seq<Moved>, start: nat, content: seq<Page>) {
    forall c | 0 <= c < |live| ::
      && live[c].cp.vpn == start + CHUNK * c && CHUNK * c < |content|
      && live[c].data == content[CHUNK * c..Min(CHUNK * (c + 1), |content|)]
  }

  function Min(a: nat, b: nat): nat {
    if a < b then a else b
  }

  /** The pages the chunks cover. */
  function Covered(live: seq<Moved>, content: seq<Page>): nat {
    Min(CHUNK * |live|, |content|)
  }

  lemma {:induction false} RunStep(w: World, live: seq<Moved>, m: Moved)
    ensures Run(w, live + [m]) == Migrated(Run(w, live), m)
  {
    assert (live + [m])[..|live|] == live;
  }

  lemma {:induction false} FreshStep(w: World, live: seq<Moved>, m: Moved)
    requires AllFresh(w, live) && Fresh(Run(w, live), m.cp, |m.data|)
    ensures AllFresh(w, live + [m])
  {
    assert (live + [m])[..|live|] == live;
  }

  /** One more chunk in the loop. */
  lemma {:induction false} ChunkAdds(
    w: World, live: seq<Moved>, before: World, after: World, m: Moved, pages: seq<nat>, done: nat, len: nat)
    requires done + len <= |pages| && len == |m.data|
    requires before == Held(Run(w, live), w.puts + pages[..done], before.dupMax)
    requires after == Held(Migrated(before, m), before.puts + pages[done..done + len], after.dupMax)
    requires AllFresh(w, live) && Fresh(before, m.cp, len)
    ensures after == Held(Run(w, live + [m]), w.puts + pages[..done + len], after.dupMax)
    ensures AllFresh(w, live + [m])
  {
    RunStep(w, live, m);
    PinsApart(Run(w, live), before.puts, before.dupMax, m);
    FreshStep(w, live, m);
    PutsGrow(w.puts, pages, 0, done, done + len);
  }

  /** Migrating a chunk has nothing to do with the pins that were dropped before. */
  lemma {:induction false} PinsApart(w: World, puts: seq<nat>, dupMax: nat, m: Moved)
    ensures Held(Migrated(Held(w, puts, dupMax), m), puts, dupMax) == Held(Migrated(w, m), puts, dupMax)
    ensures Fresh(Held(w, puts, dupMax), m.cp, |m.data|) <==> Fresh(w, m.cp, |m.data|)
  {
  }

  lemma {:induction false} PiecesGrow(live: seq<Moved>, start: nat, content: seq<Page>, m: Moved, done: nat, len: nat)
    requires Pieces(live, start, content) && done == CHUNK * |live| < |content| && len == Min(CHUNK, |content| - done)
    requires m.cp.vpn == start + done && m.data == content[done..done + len]
    ensures Pieces(live + [m], start, content)
  {
  }

  /** Between chunks: the first `done` pages are moved and their pins dropped. */
  ghost predicate Progress(frames: map<nat, Page>, w0: World, w: World, start: nat, pages: seq<nat>,
                           content: seq<Page>, live: seq<Moved>, done: nat)
  {
    && Sound(frames, w) && w.twice == [] && w.dupMax <= Max(w0.dupMax, CHUNK)
    && AllFresh(w0, live) && Pieces(live, start, content)
    && done == Covered(live, content) <= |pages| && (done < |pages| ==> done == CHUNK * |live|)
    && w == Held(Run(w0, live), w0.puts + pages[..done], w.dupMax)
  }

  /** After a failed chunk: the chunks before it are moved, it is undone or unmapped. */
  ghost predicate Stopped(frames: map<nat, Page>, w0: World, w: World, start: nat, pages: seq<nat>,
                          content: seq<Page>, live: seq<Moved>, done: nat, remapFailed: bool)
  {
    && Sound(frames, w) && w.twice == [] && w.dupMax <= Max(w0.dupMax, CHUNK)
    && AllFresh(w0, live) && Pieces(live, start, content)
    && done == CHUNK * |live| < |pages| == |content|
    && w == Held(Abandoned(Run(w0, live), start + done, Min(CHUNK, |pages| - done), remapFailed),
                 w0.puts + pages[..done], w.dupMax)
  }

  /** One more chunk moved. */
  lemma {:induction false} NextProgress(frames: map<nat, Page>, w0: World, wb: World, w: World, start: nat,
    pages: seq<nat>, content: seq<Page>, live: seq<Moved>, done: nat, clen: nat, m: Moved)
    requires Progress(frames, w0, wb, start, pages, content, live, done) && done < |pages| == |content|
    requires clen == Min(CHUNK, |pages| - done) && m.cp.vpn == start + done && m.data == content[done..done + clen]
    requires Sound(frames, w) && w.twice == [] && w.dupMax <= Max(wb.dupMax, clen) && Fresh(wb, m.cp, clen)
    requires w == Held(Migrated(wb, m), wb.puts + pages[done..done + clen], w.dupMax)
    ensures Progress(frames, w0, w, start, pages, content, live + [m], done + clen)
  {
    ChunkAdds(w0, live, wb, w, m, pages, done, clen);
    PiecesGrow(live, start, content, m, done, clen);
  }

  /** The next chunk given up. */
  lemma {:induction false} NextStopped(frames: map<nat, Page>, w0: World, wb: World, w: World, start: nat,
    pages: seq<nat>, content: seq<Page>, live: seq<Moved>, done: nat, clen: nat, remapFailed: bool)
    requires Progress(frames, w0, wb, start, pages, content, live, done) && done < |pages| == |content|
    requires clen == Min(CHUNK, |pages| - done)
    requires Sound(frames, w) && w.twice == [] && w.dupMax <= Max(wb.dupMax, clen)
    requires w == Held(Abandoned(wb, start + done, clen, remapFailed), wb.puts, w.dupMax)
    ensures Stopped(frames, w0, w, start, pages, content, live, done, remapFailed)
  {
  }

  lemma {:induction false} RunSound(frames: map<nat, Page>, w: World, live: seq<Moved>)
    requires Sound(frames, w) && AllFresh(w, live)
    ensures Sound(frames, Run(w, live))
  {
    if live != [] {
      RunSound(frames, w, live[..|live| - 1]);
      MigratedSound(frames, Run(w, live[..|live| - 1]), live[|live| - 1]);
    }
  }

  /** What the checks before any work decide, if anything: an error, or nothing to do. */
  function Precheck(gva: nat, len: nat, isolate: bool, slotPages: nat, cps: seq<CpuPage>): Option<int> {
    if len == 0 then Some(0)
    else if SpanEnd(gva, len) < SpanStart(gva) then Some(EINVAL)
    else if SpanEnd(gva, len) - SpanStart(gva) > MAX_RANGE then Some(E2BIG)
    else if !isolate then Some(ENOENT)
    else if slotPages == 0 then Some(ENOMEM)
    else if exists i | 0 <= i < |cps| :: cps[i].vpn == SpanStart(gva) / PAGE then Some(0)
    else None
  }

  const LIMIT := 524288  // pages in 2 GiB

  /** The rounded end of the request does not fit in 64 bits, and does not wrap round to its own page. */
  predicate Overruns(gva: nat, len: nat) {
    && gva + len + PAGE - 1 >= TWO64
    && (gva % PAGE + len + PAGE - 1 < TWO64 || gva + len + PAGE - 1 >= 2 * TWO64)
  }

  /** The pages a request touches, counted modulo the address space. */
  function PageCount(gva: nat, len: nat): int {
    (gva + len + PAGE - 1) % TWO64 / PAGE - gva / PAGE
  }

  ghost predicate HasRecord(cps: seq<CpuPage>, page: nat) {
    exists i | 0 <= i < |cps| :: cps[i].vpn == page
  }

  /** The request is one that a call with an isolate and slots takes on. */
  predicate Takable(gva: nat, len: nat) {
    len > 0 && !Overruns(gva, len) && PageCount(gva, len) <= LIMIT
  }

  /** A call for `len` bytes at `gva`, from state `w` to `w'`, that returned `ret`. */
  ghost predicate Called(frames: map<nat, Page>, w: World, w': World, gva: nat, len: nat, isolate: bool,
                         slotPages: nat, ret: int, e: Ended)
  {
    && (len == 0 ==> ret == 0 && w' == w)
    && (len > 0 && Overruns(gva, len) ==> ret == EINVAL && w' == w)
    && (len > 0 && !Overruns(gva, len) && PageCount(gva, len) > LIMIT ==> ret == E2BIG && w' == w)
    && (Takable(gva, len) && !isolate ==> ret == ENOENT && w' == w)
    && (Takable(gva, len) && isolate && slotPages == 0 ==> ret == ENOMEM && w' == w)
    && (Takable(gva, len) && isolate && slotPages > 0 && HasRecord(w.cpuPages, gva / PAGE) ==> ret == 0 && w' == w)
    && (Takable(gva, len) && isolate && slotPages > 0 && !HasRecord(w.cpuPages, gva / PAGE) ==>
          PageCount(gva, len) >= 0 && Result(frames, w, w', gva / PAGE, PageCount(gva, len), e, ret == 0))
  }

  /** What the checks decide, case by case. */
  lemma {:induction false} PrecheckExact(gva: nat, len: nat, isolate: bool, slotPages: nat, cps: seq<CpuPage>)
    requires gva < TWO64 && len < TWO64
    ensures var pre := Precheck(gva, len, isolate, slotPages, cps);
            && (len == 0 ==> pre == Some(0))
            && (len > 0 && Overruns(gva, len) ==> pre == Some(EINVAL))
            && (len > 0 && !Overruns(gva, len) && PageCount(gva, len) > LIMIT ==> pre == Some(E2BIG))
            && (Takable(gva, len) && !isolate ==> pre == Some(ENOENT))
            && (Takable(gva, len) && isolate && slotPages == 0 ==> pre == Some(ENOMEM))
            && (Takable(gva, len) && isolate && slotPages > 0 ==>
                  pre == if HasRecord(cps, gva / PAGE) then Some(0) else None)
    ensures len > 0 && !Overruns(gva, len) ==>
              PageCount(gva, len) == (SpanEnd(gva, len) - SpanStart(gva)) / PAGE >= 0
  {
    if len > 0 {
      SpanTest(gva, len);
    }
  }

  lemma {:induction false} SpanTest(gva: nat, len: nat)
    requires gva < TWO64 && 0 < len < TWO64
    ensures SpanEnd(gva, len) < SpanStart(gva) <==> Overruns(gva, len)
    ensures SpanStart(gva) / PAGE == gva / PAGE
    ensures SpanStart(gva) <= SpanEnd(gva, len) ==>
              && PageCount(gva, len) == (SpanEnd(gva, len) - SpanStart(gva)) / PAGE >= 0
              && (SpanEnd(gva, len) - SpanStart(gva) > MAX_RANGE <==> PageCount(gva, len) > LIMIT)
  {
    if gva + len + PAGE - 1 >= TWO64 {
      OverflowAccepted(gva, len);
    } else {
      SpanCovers(gva, len);
    }
    SpanPages(gva, len);
    SpanCount(gva, len);
  }

  lemma {:induction false} SpanCount(gva: nat, len: nat)
    requires gva < TWO64 && 0 < len < TWO64
    ensures PageCount(gva, len) == SpanEnd(gva, len) / PAGE - SpanStart(gva) / PAGE
    ensures SpanEnd(gva, len) - SpanStart(gva) == PAGE * PageCount(gva, len)
  {
  }

  /** The first page a call takes, and how many. */
  function Taken(gva: nat, len: nat, isolate: bool, slotPages: nat, cps: seq<CpuPage>): (nat, nat) {
    if Precheck(gva, len, isolate, slotPages, cps).Some? then (SpanStart(gva) / PAGE, 0)
    else (SpanStart(gva) / PAGE, (SpanEnd(gva, len) - SpanStart(gva)) / PAGE)
  }

  predicate InPages(x: nat, first: nat, count: nat) {
    first <= x < first + count
  }

  /** A call for `want` bytes, whose length argument holds them modulo 2^64, takes every page of the
      request exactly when its checks let it work and rounding up the end does not overflow. */
  lemma {:induction false} TakenCovers(gva: nat, want: nat, isolate: bool, slotPages: nat, cps: seq<CpuPage>)
    requires gva < TWO64 && 0 < want <= TWO64
    ensures var len := want % TWO64;
            var (first, count) := Taken(gva, len, isolate, slotPages, cps);
            (forall x | gva / PAGE <= x <= (gva + want - 1) / PAGE :: InPages(x, first, count))
            <==> Precheck(gva, len, isolate, slotPages, cps).None? && gva + want + PAGE - 1 < TWO64
  {
    var len := want % TWO64;
    var (first, count) := Taken(gva, len, isolate, slotPages, cps);
    var lo, hi := gva / PAGE, (gva + want - 1) / PAGE;
    assert first == lo;
    if Precheck(gva, len, isolate, slotPages, cps).None? {
      assert len == want;
      SpanPages(gva, want);
      if gva + want + PAGE - 1 >= TWO64 {
        OverflowAccepted(gva, want);
        assert !InPages(hi, first, count);
      }
    } else {
      assert lo <= hi && !InPages(lo, first, count);
    }
  }

  /** The same for a length that fits. */
  lemma {:induction false} TakenExactly(gva: nat, len: nat, isolate: bool, slotPages: nat, cps: seq<CpuPage>)
    requires gva < TWO64 && 0 < len < TWO64
    ensures var (first, count) := Taken(gva, len, isolate, slotPages, cps);
            (forall x | gva / PAGE <= x <= (gva + len - 1) / PAGE :: InPages(x, first, count))
            <==> Precheck(gva, len, isolate, slotPages, cps).None? && gva + len + PAGE - 1 < TWO64
  {
    TakenCovers(gva, len, isolate, slotPages, cps);
  }

  /** The span in pages. */
  lemma {:induction false} SpanPages(gva: nat, len: nat)
    requires gva < TWO64 && 0 < len < TWO64
    ensures SpanStart(gva) / PAGE == gva / PAGE
    ensures gva + len + PAGE - 1 < TWO64 ==> SpanEnd(gva, len) / PAGE == (gva + len - 1) / PAGE + 1
    ensures SpanStart(gva) <= SpanEnd(gva, len) ==>
              (SpanEnd(gva, len) - SpanStart(gva)) / PAGE == SpanEnd(gva, len) / PAGE - SpanStart(gva) / PAGE
  {
  }

  /** How a call that did work ends: the pages it pinned, what they held, the chunks it moved, and
      whether it was a remap that failed. */
  datatype Ended = Ended(pages: seq<nat>, content: seq<Page>, live: seq<Moved>, remapFailed: bool)

  function Pinned(w: World, pages: seq<nat>): World {
    w.(gets := w.gets + pages)
  }

  /** `content` is what the user pages read before. */
  ghost predicate Known(frames: map<nat, Page>, w: World, start: nat, content: seq<Page>) {
    forall x | start <= x < start + |content| ::
      Read(frames, w.pte, w.window, w.handles, x) == Some(content[x - start])
  }

  /** The frames of ordinary user pages, in order. */
  ghost predicate PinnedFrom(pte: map<nat, Entry>, start: nat, pages: seq<nat>) {
    forall x | start <= x < start + |pages| :: x in pte && pte[x] == Anon(pages[x - start])
  }

  /** The state after a call that did work on `npages` pages: every pin it took is dropped once, in
      order; success moves the whole range; failure moves a prefix of whole chunks and nothing more. */
  ghost predicate Result(frames: map<nat, Page>, w: World, w': World, start: nat, npages: nat, e: Ended, ok: bool) {
    var done := CHUNK * |e.live|;
    && |e.content| == |e.pages| <= npages && Known(frames, w, start, e.content)
    && PinnedFrom(w.pte, start, e.pages)
    && w'.gets == w.gets + e.pages && w'.puts == w.puts + e.pages
    && AllFresh(Pinned(w, e.pages), e.live) && Pieces(e.live, start, e.content)
    && (ok ==> && |e.pages| == npages <= done
               && w' == Held(Run(Pinned(w, e.pages), e.live), w'.puts, w'.dupMax))
    && (ok ==> !e.remapFailed) && (e.remapFailed ==> done < |e.pages|)
    && (!ok ==> && (e.live == [] || done < npages) && done <= |e.content|
                && w' == Held(Abandoned(Run(Pinned(w, e.pages), e.live), start + done,
                                        Min(CHUNK, |e.pages| - done), e.remapFailed), w'.puts, w'.dupMax))
  }

  lemma {:induction false} RunGets(w: World, live: seq<Moved>)
    ensures Run(w, live).gets == w.gets
  {
    if live != [] {
      RunGets(w, live[..|live| - 1]);
    }
  }

  /** The loop ran to the end. */
  lemma {:induction false} FullResult(frames: map<nat, Page>, w: World, w': World, start: nat, e: Ended)
    requires Known(frames, w, start, e.content) && |e.content| == |e.pages| && !e.remapFailed
    requires PinnedFrom(w.pte, start, e.pages)
    requires Progress(frames, Pinned(w, e.pages), w', start, e.pages, e.content, e.live, |e.pages|)
    ensures Result(frames, w, w', start, |e.pages|, e, true)
  {
    RunGets(Pinned(w, e.pages), e.live);
    assert e.pages[..|e.pages|] == e.pages;
  }

  /** The loop stopped and the pins left were dropped. */
  lemma {:induction false} StoppedResult(
    frames: map<nat, Page>, w: World, w1: World, w': World, start: nat, e: Ended, done: nat)
    requires Known(frames, w, start, e.content) && PinnedFrom(w.pte, start, e.pages)
    requires Stopped(frames, Pinned(w, e.pages), w1, start, e.pages, e.content, e.live, done, e.remapFailed)
    requires w' == w1.(puts := w1.puts + e.pages[done..|e.pages|])
    ensures Result(frames, w, w', start, |e.pages|, e, false)
  {
    RunGets(Pinned(w, e.pages), e.live);
    PutsGrow(w.puts, e.pages, 0, done, |e.pages|);
    assert e.pages[..|e.pages|] == e.pages;
  }

  /** Nothing was moved and the pins taken were dropped. */
  lemma {:induction false} UnmovedResult(
    frames: map<nat, Page>, w: World, w': World, start: nat, npages: nat, e: Ended)
    requires Known(frames, w, start, e.content) && |e.content| == |e.pages| <= npages && e.live == [] && !e.remapFailed
    requires PinnedFrom(w.pte, start, e.pages)
    requires w' == Pinned(w, e.pages).(puts := w.puts + e.pages[0..|e.pages|])
    ensures Result(frames, w, w', start, npages, e, false)
  {
    assert e.pages[0..|e.pages|] == e.pages;
  }

  // ── Cleaning up ────────────────────────────────────────────────────────────

  /** One recorded chunk unmapped and closed; without an isolate only the handle is left to close. */
  function Freed(w: World, cp: CpuPage, isolate: bool): World {
    if isolate && cp.token in w.tokens then
      var x := w.tokens[cp.token];
      w.(tokens := w.tokens - {cp.token}, window := Without(w.window, x.gpn, x.len),
         shared := w.shared - {cp.handle}, handles := w.handles - {cp.handle}, twice := Unheld(w.twice, cp.handle))
    else
      w.(handles := w.handles - {cp.handle}, twice := Unheld(w.twice, cp.handle))
  }

  function FreedTo(w: World, cps: seq<CpuPage>, k: nat, isolate: bool): World
    requires k <= |cps|
  {
    if k == 0 then w else Freed(FreedTo(w, cps, k - 1, isolate), cps[k - 1], isolate)
  }

  function HandleSet(cps: seq<CpuPage>, k: nat): set<nat>
    requires k <= |cps|
  {
    if k == 0 then {} else HandleSet(cps, k - 1) + {cps[k - 1].handle}
  }

  function TokenSet(cps: seq<CpuPage>, k: nat): set<nat>
    requires k <= |cps|
  {
    if k == 0 then {} else TokenSet(cps, k - 1) + {cps[k - 1].token}
  }

  lemma {:induction false} InHandleSet(cps: seq<CpuPage>, k: nat, h: nat)
    requires k <= |cps|
    ensures h in HandleSet(cps, k) <==> exists i | 0 <= i < k :: cps[i].handle == h
  {
    if k > 0 {
      InHandleSet(cps, k - 1, h);
    }
  }

  lemma {:induction false} InTokenSet(cps: seq<CpuPage>, k: nat, t: nat)
    requires k <= |cps|
    ensures t in TokenSet(cps, k) <==> exists i | 0 <= i < k :: cps[i].token == t
  {
    if k > 0 {
      InTokenSet(cps, k - 1, t);
    }
  }

  /** Exactly the recorded handles, copies and mappings are gone after `k` records. */
  lemma {:induction false} FreedExactly(w: World, cps: seq<CpuPage>, k: nat, isolate: bool)
    requires k <= |cps| && Recorded(cps, w.handles, w.tokens)
    ensures var f := FreedTo(w, cps, k, isolate);
            && f.handles == w.handles - HandleSet(cps, k)
            && f.shared == (if isolate then w.shared - HandleSet(cps, k) else w.shared)
            && f.tokens == (if isolate then w.tokens - TokenSet(cps, k) else w.tokens)
  {
    if k > 0 {
      FreedExactly(w, cps, k - 1, isolate);
      InTokenSet(cps, k - 1, cps[k - 1].token);
    }
  }

  class Guest {
    const frames: map<nat, Page>
    const slotPages: nat
    const windowBase: nat
    const windowSize: nat
    var w: World

    ghost predicate Valid()
      reads this
    {
      Sound(frames, w)
    }

    // ── The host and the kernel underneath ───────────────────────────────────

    /** get_user_pages_fast(): pins some of the pages, or none and an error. */
    method GetUserPages(v: nat, max: nat) returns (n: int, got: seq<nat>)
      requires max > 0
      modifies this
      ensures n <= max && (n <= 0 ==> got == []) && (n > 0 ==> |got| == n)
      ensures forall x | v <= x < v + |got| :: x in w.pte && w.pte[x] == Anon(got[x - v])
      ensures w == old(w).(gets := old(w).gets + got)
    {
      var want: nat := *;
      var i := 0;
      got := [];
      while i < max && i < want && v + i in w.pte && w.pte[v + i].Anon?
        invariant i == |got| <= max
        invariant forall x | v <= x < v + |got| :: x in w.pte && w.pte[x] == Anon(got[x - v])
        invariant w == old(w).(gets := old(w).gets + got)
      {
        var f := w.pte[v + i].frame;
        w := w.(gets := w.gets + [f]);
        got := got + [f];
        i := i + 1;
      }
      n := if i > 0 then i else EFAULT;
    }

    method PutPage(f: nat)
      modifies this
      ensures w == old(w).(puts := old(w).puts + [f], twice := Unpin(old(w).twice, f))
    {
      w := w.(puts := w.puts + [f], twice := Unpin(w.twice, f));
    }

    method OpenMemory(len: nat) returns (err: int, h: nat)
      modifies this
      ensures err == 0 ==> h !in old(w).handles
      ensures w == if err == 0 then old(w).(handles := old(w).handles[h := seq(len, _ => [])]) else old(w)
    {
      h := *;
      err := *;
      if err == 0 && h in w.handles {
        err := ENOMEM;
      }
      if err == 0 {
        w := w.(handles := w.handles[h := seq(len, _ => [])]);
      }
    }

    /** Writes the contents of the frames `src`, which from then on are held twice. */
    method WriteMemory(h: nat, off: nat, data: seq<Page>, src: seq<nat>) returns (err: int)
      requires h in w.handles && off + |data| <= |w.handles[h]| && Contents(frames, src, data)
      modifies this
      ensures w == if err == 0 then Wrote(old(w), h, off, data, src) else old(w)
    {
      err := *;
      if err == 0 {
        w := Wrote(w, h, off, data, src);
      }
    }

    method CloseHandle(h: nat)
      requires h in w.handles
      modifies this
      ensures w == old(w).(handles := old(w).handles - {h}, twice := Unheld(old(w).twice, h))
    {
      w := w.(handles := w.handles - {h}, twice := Unheld(w.twice, h));
    }

    method CopyToIsolate(h: nat) returns (err: int)
      requires h in w.handles
      modifies this
      ensures w == if err == 0 then old(w).(shared := old(w).shared + {h}) else old(w)
    {
      err := *;
      if err == 0 {
        w := w.(shared := w.shared + {h});
      }
    }

    method CloseOnIsolate(h: nat)
      modifies this
      ensures w == old(w).(shared := old(w).shared - {h})
    {
      w := w.(shared := w.shared - {h});
    }

    /** The host maps the object at window pages that nothing else uses. */
    method MmapOnIsolate(h: nat, len: nat) returns (err: int, gpn: nat, token: nat)
      modifies this
      ensures err == 0 ==> token !in old(w).tokens && forall g | gpn <= g < gpn + len :: g !in old(w).window
      ensures w == if err == 0 then old(w).(tokens := old(w).tokens[token := Extent(gpn, len)],
                                            window := old(w).window + WindowOf(h, gpn, len)) else old(w)
    {
      gpn := *;
      token := *;
      err := *;
      if err == 0 && (token in w.tokens || exists g | gpn <= g < gpn + len :: g in w.window) {
        err := ENOMEM;
      }
      if err == 0 {
        w := w.(tokens := w.tokens[token := Extent(gpn, len)], window := w.window + WindowOf(h, gpn, len));
      }
    }

    method MunmapOnIsolate(token: nat)
      requires token in w.tokens
      modifies this
      ensures w == old(w).(tokens := old(w).tokens - {token},
                           window := Without(old(w).window, old(w).tokens[token].gpn, old(w).tokens[token].len))
    {
      w := w.(tokens := w.tokens - {token}, window := Without(w.window, w.tokens[token].gpn, w.tokens[token].len));
    }

    method Zap(v: nat, len: nat)
      modifies this
      ensures w == old(w).(pte := Without(old(w).pte, v, len))
    {
      w := w.(pte := Without(w.pte, v, len));
    }

    method Remap(v: nat, gpn: nat, len: nat) returns (err: int)
      modifies this
      ensures w == if err == 0 then old(w).(pte := old(w).pte + EntriesOf(v, gpn, len))
                   else old(w).(failedRemaps := old(w).failedRemaps + 1)
    {
      err := *;
      if err == 0 {
        w := w.(pte := w.pte + EntriesOf(v, gpn, len));
      } else {
        w := w.(failedRemaps := w.failedRemaps + 1);
      }
    }

    // ── One chunk ────────────────────────────────────────────────────────────

    /** Copies pinned pages into a transfer slot. */
    method FillSlot(pages: seq<nat>, a: nat, len: nat, ghost content: seq<Page>) returns (slot: seq<Page>)
      requires Contents(frames, pages, content) && a + len <= |pages|
      ensures slot == content[a..a + len]
    {
      slot := [];
      var p := 0;
      while p < len
        invariant p <= len && slot == content[a..a + p]
      {
        slot := slot + [frames[pages[a + p]]];
        p := p + 1;
      }
    }

    /** One batch through a transfer slot. */
    method UploadBatch(h: nat, uoff: nat, pages: seq<nat>, a: nat, batch: nat, ghost content: seq<Page>)
      returns (err: int)
      requires Contents(frames, pages, content) && a + batch <= |pages|
      requires h in w.handles && uoff + batch <= |w.handles[h]|
      modifies this
      ensures w == if err == 0 then Wrote(old(w), h, uoff, content[a..a + batch], pages[a..a + batch]) else old(w)
    {
      var haveSlot: bool := *;
      if !haveSlot {
        return ENOSPC;
      }
      var slot := FillSlot(pages, a, batch, content);
      err := WriteMemory(h, uoff, slot, pages[a..a + batch]);
    }

    /** Uploads a chunk in slot-sized batches; a failure closes the handle. */
    method Upload(h: nat, pages: seq<nat>, coff: nat, clen: nat, ghost content: seq<Page>) returns (err: int)
      requires slotPages > 0 && Contents(frames, pages, content) && coff + clen <= |pages|
      requires h in w.handles && |w.handles[h]| == clen && w.twice == []
      modifies this
      ensures err == 0 ==> w == Uploaded(old(w), h, content[coff..coff + clen], pages[coff..coff + clen])
      ensures err != 0 ==> w == old(w).(handles := old(w).handles - {h}, dupMax := w.dupMax)
      ensures w.dupMax <= Max(old(w).dupMax, clen)
    {
      var uoff := 0;
      err := 0;
      ghost var data := w.handles[h];
      PartialStart(old(w), h, data);
      while uoff < clen
        invariant uoff <= clen == |data| && w == Partial(old(w), h, data, pages[coff..coff + uoff])
        invariant data[..uoff] == content[coff..coff + uoff]
      {
        var batch := if slotPages < clen - uoff then slotPages else clen - uoff;
        err := UploadBatch(h, uoff, pages, coff + uoff, batch, content);
        if err != 0 {
          CloseHandle(h);
          PartialClosed(old(w), h, data, pages[coff..coff + uoff]);
          return;
        }
        UploadStep(old(w), h, data, content, pages, coff, uoff, batch);
        data := data[..uoff] + content[coff + uoff..coff + uoff + batch] + data[uoff + batch..];
        uoff := uoff + batch;
      }
      assert data[..clen] == data;
    }

    /** Shares an uploaded object with the isolate, maps it and swaps the page-table entries.
        A failure closes everything; it leaves the chunk's pages unmapped exactly when it was the
        remap, after the zap, that failed. */
    method Place(h: nat, v: nat, len: nat) returns (err: int, gpn: nat, token: nat, remapFailed: bool)
      requires h in w.handles && h !in w.shared
      modifies this
      ensures w.failedRemaps == old(w).failedRemaps + if remapFailed then 1 else 0
      ensures err == 0 ==>
                && w == Placed(old(w), h, v, len, gpn, token)
                && token !in old(w).tokens && (forall g | gpn <= g < gpn + len :: g !in old(w).window)
                && GpaInWindow(windowBase, windowSize, gpn * PAGE, len * PAGE)
      ensures err != 0 ==>
                w == Abandoned(old(w), v, len, remapFailed)
                     .(handles := old(w).handles - {h}, twice := Unheld(old(w).twice, h))
    {
      remapFailed := false;
      gpn, token := 0, 0;
      err := CopyToIsolate(h);
      if err != 0 {
        CloseHandle(h);
        return;
      }
      err, gpn, token := MmapOnIsolate(h, len);
      if err != 0 {
        CloseOnIsolate(h);
        CloseHandle(h);
        return;
      }
      var sameVma: bool := *;
      if !GpaInWindow(windowBase, windowSize, gpn * PAGE, len * PAGE) {
        err := EIO;
      } else if !sameVma {
        err := EFAULT;
      } else {
        ZapThenRemap(w.pte, v, gpn, len);
        Zap(v, len);
        err := Remap(v, gpn, len);
        remapFailed := err != 0;
      }
      if err != 0 {
        UndoAdd(old(w).tokens, token, Extent(gpn, len));
        UndoWindow(old(w).window, h, gpn, len);
        MunmapOnIsolate(token);
        CloseOnIsolate(h);
        CloseHandle(h);
      }
    }

    method DropPins(pages: seq<nat>, a: nat, b: nat)
      requires a <= b <= |pages|
      modifies this
      ensures w == old(w).(puts := old(w).puts + pages[a..b], twice := Unpinned(old(w).twice, pages[a..b]))
    {
      var i := a;
      while i < b
        invariant a <= i <= b
        invariant w == old(w).(puts := old(w).puts + pages[a..i], twice := Unpinned(old(w).twice, pages[a..i]))
      {
        PutsGrow(old(w).puts, pages, a, i, i + 1);
        assert pages[a..i + 1][..i - a] == pages[a..i];
        PutPage(pages[i]);
        i := i + 1;
      }
    }

    /** A new memory object holding the chunk's pages. */
    method LoadChunk(pages: seq<nat>, coff: nat, clen: nat, ghost content: seq<Page>) returns (err: int, h: nat)
      requires slotPages > 0 && Contents(frames, pages, content) && coff + clen <= |pages| && w.twice == []
      modifies this
      ensures err == 0 ==>
                h !in old(w).handles && w == Uploaded(old(w), h, content[coff..coff + clen], pages[coff..coff + clen])
      ensures err != 0 ==> w == old(w).(dupMax := w.dupMax)
      ensures w.dupMax <= Max(old(w).dupMax, clen)
    {
      err, h := OpenMemory(clen);
      if err == 0 {
        OpenUndone(old(w).handles, h, seq(clen, _ => []), content[coff..coff + clen]);
        err := Upload(h, pages, coff, clen, content);
      }
    }

    /** Records a placed chunk, unless there is no memory for the record, and releases its pages. */
    method Finish(cp: CpuPage, pages: seq<nat>, a: nat, b: nat) returns (tracked: bool)
      requires a <= b <= |pages|
      modifies this
      ensures w == old(w).(cpuPages := if tracked then old(w).cpuPages + [cp] else old(w).cpuPages,
                           puts := old(w).puts + pages[a..b], twice := Unpinned(old(w).twice, pages[a..b]))
    {
      tracked := *;
      if tracked {
        w := w.(cpuPages := w.cpuPages + [cp]);
      }
      DropPins(pages, a, b);
    }

    /** One chunk: upload, place, record, release. */
    method MigrateChunk(start: nat, pages: seq<nat>, coff: nat, clen: nat, ghost content: seq<Page>)
      returns (err: int, ghost m: Moved, remapFailed: bool)
      requires Valid() && slotPages > 0 && w.twice == []
      requires Contents(frames, pages, content) && coff + clen <= |pages|
      modifies this
      ensures Valid() && w.twice == [] && w.dupMax <= Max(old(w).dupMax, clen)
      ensures m.cp.vpn == start + coff && m.data == content[coff..coff + clen]
      ensures err == 0 ==>
                && Fresh(old(w), m.cp, clen)
                && w == Held(Migrated(old(w), m), old(w).puts + pages[coff..coff + clen], w.dupMax)
                && GpaInWindow(windowBase, windowSize, m.cp.gpn * PAGE, clen * PAGE) && !remapFailed
      ensures err != 0 ==> w == Held(Abandoned(old(w), start + coff, clen, remapFailed), old(w).puts, w.dupMax)
    {
      m := Moved(CpuPage(start + coff, 0, 0, 0), content[coff..coff + clen], false);
      var h, gpn, token;
      err, h, gpn, token, remapFailed := LoadAndPlace(start, pages, coff, clen, content);
      if err != 0 {
        AbandonedSound(frames, old(w), start + coff, clen, remapFailed);
        return;
      }
      m := Complete(CpuPage(start + coff, gpn, h, token), pages, coff, clen, old(w), m.data);
    }

    /** The record and the release of a chunk that was placed in state `w0`. */
    method Complete(cp: CpuPage, pages: seq<nat>, coff: nat, clen: nat, ghost w0: World, ghost data: seq<Page>)
      returns (ghost m: Moved)
      requires Sound(frames, w0) && Fresh(w0, cp, clen) && w0.twice == [] && coff + clen <= |pages| && |data| == clen
      requires w == Placed(Uploaded(w0, cp.handle, data, pages[coff..coff + clen]),
                           cp.handle, cp.vpn, clen, cp.gpn, cp.token)
      modifies this
      ensures m.cp == cp && m.data == data
      ensures Valid() && w.twice == [] && w.dupMax == Max(w0.dupMax, clen)
      ensures w == Held(Migrated(w0, m), w0.puts + pages[coff..coff + clen], w.dupMax)
    {
      var tracked := Finish(cp, pages, coff, coff + clen);
      m := Moved(cp, data, tracked);
      Composed(frames, w0, old(w), w, m, pages[coff..coff + clen]);
    }

    /** A chunk uploaded and under the page tables, or given up. */
    method LoadAndPlace(start: nat, pages: seq<nat>, coff: nat, clen: nat, ghost content: seq<Page>)
      returns (err: int, h: nat, gpn: nat, token: nat, remapFailed: bool)
      requires w.shared <= w.handles.Keys && slotPages > 0 && w.twice == []
      requires Contents(frames, pages, content) && coff + clen <= |pages|
      modifies this
      ensures w.dupMax <= Max(old(w).dupMax, clen)
      ensures err == 0 ==>
                && w == Placed(Uploaded(old(w), h, content[coff..coff + clen], pages[coff..coff + clen]),
                               h, start + coff, clen, gpn, token)
                && Fresh(old(w), CpuPage(start + coff, gpn, h, token), clen)
                && GpaInWindow(windowBase, windowSize, gpn * PAGE, clen * PAGE) && !remapFailed
      ensures err != 0 ==> w == Held(Abandoned(old(w), start + coff, clen, remapFailed), old(w).puts, w.dupMax)
    {
      remapFailed, gpn, token := false, 0, 0;
      err, h := LoadChunk(pages, coff, clen, content);
      if err == 0 {
        UndoAdd(old(w).handles, h, content[coff..coff + clen]);
        UnheldAll(h, pages[coff..coff + clen]);
        err, gpn, token, remapFailed := Place(h, start + coff, clen);
      }
    }

    // ── The range ────────────────────────────────────────────────────────────

    /** Pins every page of the range, or stops with what it has. */
    method PinPages(start: nat, npages: nat) returns (err: int, pages: seq<nat>)
      modifies this
      ensures |pages| <= npages && (err == 0 <==> |pages| == npages)
      ensures forall x | start <= x < start + |pages| :: x in w.pte && w.pte[x] == Anon(pages[x - start])
      ensures w == old(w).(gets := old(w).gets + pages)
    {
      err, pages := 0, [];
      while |pages| < npages
        invariant |pages| <= npages
        invariant forall x | start <= x < start + |pages| :: x in w.pte && w.pte[x] == Anon(pages[x - start])
        invariant w == old(w).(gets := old(w).gets + pages)
        decreases npages - |pages|
      {
        var n, got := GetUserPages(start + |pages|, npages - |pages|);
        if n <= 0 {
          err := if n < 0 then n else EFAULT;
          return;
        }
        pages := pages + got;
      }
    }

    /** The next chunk of the loop. */
    method NextChunk(start: nat, pages: seq<nat>, done: nat,
                     ghost w0: World, ghost content: seq<Page>, ghost live: seq<Moved>)
      returns (err: int, clen: nat, ghost m: Moved, remapFailed: bool)
      requires slotPages > 0 && Contents(frames, pages, content) && done < |pages|
      requires Progress(frames, w0, w, start, pages, content, live, done)
      modifies this
      ensures 0 < clen <= |pages| - done
      ensures err == 0 ==> Progress(frames, w0, w, start, pages, content, live + [m], done + clen) && !remapFailed
      ensures err != 0 ==> Stopped(frames, w0, w, start, pages, content, live, done, remapFailed)
    {
      clen := if CHUNK < |pages| - done then CHUNK else |pages| - done;
      ghost var wb := w;
      err, m, remapFailed := MigrateChunk(start, pages, done, clen, content);
      if err == 0 {
        NextProgress(frames, w0, wb, w, start, pages, content, live, done, clen, m);
      } else {
        NextStopped(frames, w0, wb, w, start, pages, content, live, done, clen, remapFailed);
      }
    }

    /** Moves the pinned pages chunk by chunk, until done or the first failure. */
    method MoveChunks(start: nat, pages: seq<nat>, ghost content: seq<Page>)
      returns (err: int, done: nat, ghost live: seq<Moved>, remapFailed: bool)
      requires Valid() && slotPages > 0 && w.twice == [] && Contents(frames, pages, content)
      modifies this
      ensures err == 0 ==>
                Progress(frames, old(w), w, start, pages, content, live, done) && done == |pages| && !remapFailed
      ensures err != 0 ==> Stopped(frames, old(w), w, start, pages, content, live, done, remapFailed)
    {
      err, done, live, remapFailed := 0, 0, [], false;
      while done < |pages|
        invariant done <= |pages| && err == 0 && !remapFailed
        invariant Progress(frames, old(w), w, start, pages, content, live, done)
        decreases |pages| - done
      {
        var clen;
        ghost var m;
        err, clen, m, remapFailed := NextChunk(start, pages, done, old(w), content, live);
        if err != 0 {
          return;
        }
        live := live + [m];
        done := done + clen;
      }
    }

    method MigrateRange(gva: nat, len: nat, isolate: bool) returns (ret: int, ghost e: Ended)
      requires Valid() && w.twice == [] && gva < TWO64 && len < TWO64
      modifies this
      ensures Valid() && w.twice == [] && w.dupMax <= Max(old(w).dupMax, CHUNK)
      ensures var pre := Precheck(gva, len, isolate, slotPages, old(w).cpuPages);
              && (pre.Some? ==> ret == pre.value && w == old(w))
              && (pre.None? ==>
                    var (start, npages) := Taken(gva, len, isolate, slotPages, old(w).cpuPages);
                    Result(frames, old(w), w, start, npages, e, ret == 0))
      ensures Called(frames, old(w), w, gva, len, isolate, slotPages, ret, e)
    {
      e := Ended([], [], [], false);
      PrecheckExact(gva, len, isolate, slotPages, w.cpuPages);
      var start, end := SpanStart(gva), SpanEnd(gva, len);
      if len == 0 {
        return 0, e;
      }
      SpanTest(gva, len);
      if end < start {
        return EINVAL, e;
      }
      if end - start > MAX_RANGE {
        return E2BIG, e;
      }
      if !isolate {
        return ENOENT, e;
      }
      if slotPages == 0 {
        return ENOMEM, e;
      }
      var known := FindRecord(start / PAGE);
      if known {
        return 0, e;
      }
      ret, e := MigrateTaken(start / PAGE, (end - start) / PAGE);
    }

    /** Whether a chunk that starts at the page is recorded. */
    method FindRecord(page: nat) returns (found: bool)
      ensures found <==> HasRecord(w.cpuPages, page)
    {
      for i := 0 to |w.cpuPages|
        invariant forall j | 0 <= j < i :: w.cpuPages[j].vpn != page
      {
        if w.cpuPages[i].vpn == page {
          return true;
        }
      }
      found := false;
    }

    /** The array for the pages, if there is memory for it, and the work. */
    method MigrateTaken(start: nat, npages: nat) returns (ret: int, ghost e: Ended)
      requires Valid() && slotPages > 0 && w.twice == []
      modifies this
      ensures Valid() && w.twice == [] && w.dupMax <= Max(old(w).dupMax, CHUNK)
      ensures Result(frames, old(w), w, start, npages, e, ret == 0)
    {
      e := Ended([], [], [], false);
      var room: bool := *;
      if !room {
        return ENOMEM, e;
      }
      ret, e := MigratePages(start, npages);
    }

    /** Pins the pages of the range, moves them, and drops the pins that are left. */
    method MigratePages(start: nat, npages: nat) returns (ret: int, ghost e: Ended)
      requires Valid() && slotPages > 0 && w.twice == []
      modifies this
      ensures Valid() && w.twice == [] && w.dupMax <= Max(old(w).dupMax, CHUNK)
      ensures Result(frames, old(w), w, start, npages, e, ret == 0)
    {
      var pages;
      ret, pages := PinPages(start, npages);
      ghost var content :=
        seq(|pages|, i requires 0 <= i < |pages| => if pages[i] in frames then frames[pages[i]] else []);
      PinnedKnown(frames, old(w), start, pages, content);
      e := Ended(pages, content, [], false);
      var sameVma: bool := *;
      if ret == 0 && !sameVma {
        ret := EFAULT;
      }
      if ret != 0 {
        UnpinnedNone(pages[0..|pages|]);
        DropPins(pages, 0, |pages|);
        UnmovedResult(frames, old(w), w, start, npages, e);
        return;
      }
      var done, remapFailed;
      ghost var live;
      ret, done, live, remapFailed := MoveChunks(start, pages, content);
      e := Ended(pages, content, live, remapFailed);
      if ret == 0 {
        FullResult(frames, old(w), w, start, e);
        return;
      }
      ghost var w1 := w;
      UnpinnedNone(pages[done..|pages|]);
      DropPins(pages, done, |pages|);
      StoppedResult(frames, old(w), w1, w, start, e, done);
    }

    /** Releases every recorded chunk; each handle is open and each mapping live when released. */
    method CpuPagesFree(isolate: bool)
      requires Valid()
      modifies this
      ensures w == FreedTo(old(w).(cpuPages := []), old(w).cpuPages, |old(w).cpuPages|, isolate)
    {
      var cps := w.cpuPages;
      w := w.(cpuPages := []);
      ghost var w0 := w;
      var i := 0;
      while i < |cps|
        invariant i <= |cps| && w == FreedTo(w0, cps, i, isolate)
      {
        NextToFree(w0, cps, i, isolate);
        if isolate {
          MunmapOnIsolate(cps[i].token);
          CloseOnIsolate(cps[i].handle);
        }
        CloseHandle(cps[i].handle);
        i := i + 1;
      }
    }
  }

  lemma {:induction false} NextToFree(w: World, cps: seq<CpuPage>, k: nat, isolate: bool)
    requires k < |cps| && Recorded(cps, w.handles, w.tokens)
    ensures cps[k].handle in FreedTo(w, cps, k, isolate).handles
    ensures cps[k].token in FreedTo(w, cps, k, isolate).tokens
  {
    FreedExactly(w, cps, k, isolate);
    InHandleSet(cps, k, cps[k].handle);
    InTokenSet(cps, k, cps[k].token);
  }

  lemma {:induction false} PinnedKnown(
    frames: map<nat, Page>, w: World, start: nat, pages: seq<nat>, content: seq<Page>)
    requires Backed(frames, w.pte) && |content| == |pages|
    requires forall x | start <= x < start + |pages| :: x in w.pte && w.pte[x] == Anon(pages[x - start])
    requires forall i | 0 <= i < |pages| :: pages[i] in frames ==> frames[pages[i]] == content[i]
    ensures Known(frames, w, start, content) && Contents(frames, pages, content)
  {
    forall i | 0 <= i < |pages|
      ensures pages[i] in frames
    {
      assert w.pte[start + i] == Anon(pages[start + i - start]);
    }
  }

  lemma {:induction false} OpenUndone(handles: map<nat, seq<Page>>, h: nat, a: seq<Page>, b: seq<Page>)
    requires h !in handles
    ensures handles[h := a][h := b] == handles[h := b]
    ensures handles[h := a] - {h} == handles && handles[h := b] - {h} == handles
  {
  }

  lemma {:induction false} PutsGrow(puts: seq<nat>, pages: seq<nat>, a: nat, i: nat, j: nat)
    requires a <= i <= j <= |pages|
    ensures puts + pages[a..i] + pages[i..j] == puts + pages[a..j]
    ensures j == i + 1 ==> puts + pages[a..i] + [pages[i]] == puts + pages[a..j]
    ensures a == 0 ==> pages[..i] == pages[0..i] && pages[..j] == pages[0..j]
  {
  }
}

/** What a migrated range means: user memory reads the same, the objects and records tile it,
    and cleaning up gives back what was taken. */
module MigrateMeaning {
  import opened Bits
  import opened Bytes
  import opened Migrate
  import opened Options

  function Load(frames: map<nat, Page>, w: World, x: nat): Option<Page> {
    Read(frames, w.pte, w.window, w.handles, x)
  }

  /** Page `x` is mapped as before and, if it could be read, reads the same. */
  ghost predicate Untouched(frames: map<nat, Page>, w: World, w': World, x: nat) {
    && (x in w'.pte <==> x in w.pte) && (x in w.pte ==> w'.pte[x] == w.pte[x])
    && (Load(frames, w, x).Some? ==> Load(frames, w', x) == Load(frames, w, x))
  }

  /** Page `x` maps to window page `g` and reads `page`. */
  ghost predicate Shows(frames: map<nat, Page>, w: World, x: nat, g: nat, page: Page) {
    x in w.pte && w.pte[x] == Window(g) && Load(frames, w, x) == Some(page)
  }

  /** One chunk: its pages read its data; every other page is untouched. */
  lemma {:induction false} MigratedReads(frames: map<nat, Page>, w: World, m: Moved, x: nat)
    requires Fresh(w, m.cp, |m.data|)
    ensures var k := x - m.cp.vpn;
            if 0 <= k < |m.data| then Shows(frames, Migrated(w, m), x, m.cp.gpn + k, m.data[k])
            else Untouched(frames, w, Migrated(w, m), x)
  {
    if m.cp.vpn <= x < m.cp.vpn + |m.data| {
      MovedReads(frames, w, m, x);
    } else {
      OthersRead(frames, w, m, x);
    }
  }

  lemma {:induction false} MovedReads(frames: map<nat, Page>, w: World, m: Moved, x: nat)
    requires m.cp.vpn <= x < m.cp.vpn + |m.data|
    ensures var k := x - m.cp.vpn; Shows(frames, Migrated(w, m), x, m.cp.gpn + k, m.data[k])
  {
    EntriesOfAt(m.cp.vpn, m.cp.gpn, |m.data|);
    WindowOfAt(m.cp.handle, m.cp.gpn, |m.data|);
  }

  lemma {:induction false} OthersRead(frames: map<nat, Page>, w: World, m: Moved, x: nat)
    requires Fresh(w, m.cp, |m.data|) && !(m.cp.vpn <= x < m.cp.vpn + |m.data|)
    ensures Untouched(frames, w, Migrated(w, m), x)
  {
    EntriesOfAt(m.cp.vpn, m.cp.gpn, |m.data|);
    WindowOfAt(m.cp.handle, m.cp.gpn, |m.data|);
  }

  lemma {:induction false} UntouchedChain(frames: map<nat, Page>, w0: World, w1: World, w2: World, x: nat)
    requires Untouched(frames, w1, w2, x)
    ensures Untouched(frames, w0, w1, x) ==> Untouched(frames, w0, w2, x)
    ensures forall g, page :: Shows(frames, w1, x, g, page) ==> Shows(frames, w2, x, g, page)
  {
  }

  lemma {:induction false} PiecesPrefix(live: seq<Moved>, start: nat, content: seq<Page>)
    requires live != [] && Pieces(live, start, content)
    ensures Pieces(live[..|live| - 1], start, content)
  {
  }

  /** After any number of chunks: a moved page maps to its own chunk's window pages and reads what
      it read before; a page outside is untouched. */
  lemma {:induction false} RunReads(
    frames: map<nat, Page>, w: World, live: seq<Moved>, start: nat, content: seq<Page>, x: nat)
    requires AllFresh(w, live) && Pieces(live, start, content)
    ensures var i := x - start;
            if 0 <= i < Covered(live, content)
            then i / CHUNK < |live| && Shows(frames, Run(w, live), x, live[i / CHUNK].cp.gpn + i % CHUNK, content[i])
            else Untouched(frames, w, Run(w, live), x)
  {
    if live != [] {
      var n := |live| - 1;
      PiecesPrefix(live, start, content);
      PieceIndex(live, start, content, x);
      MigratedReads(frames, Run(w, live[..n]), live[n], x);
      if !(live[n].cp.vpn <= x < live[n].cp.vpn + |live[n].data|) {
        RunReads(frames, w, live[..n], start, content, x);
        UntouchedChain(frames, w, Run(w, live[..n]), Run(w, live), x);
      }
    }
  }

  /** Which chunk a page falls in. */
  lemma {:induction false} PieceIndex(live: seq<Moved>, start: nat, content: seq<Page>, x: nat)
    requires live != [] && Pieces(live, start, content)
    ensures var n := |live| - 1;
            var m := live[n];
            var i := x - start;
            && Covered(live, content) == Covered(live[..n], content) + |m.data|
            && m.cp.vpn == start + Covered(live[..n], content)
            && (m.cp.vpn <= x < m.cp.vpn + |m.data| ==>
                  i / CHUNK == n && i % CHUNK == x - m.cp.vpn && m.data[x - m.cp.vpn] == content[i])
  {
  }

  /** The chunks' objects, end to end. */
  function Joined(live: seq<Moved>): seq<Page> {
    if live == [] then [] else Joined(live[..|live| - 1]) + live[|live| - 1].data
  }

  lemma {:induction false} JoinedIsContent(live: seq<Moved>, start: nat, content: seq<Page>)
    requires Pieces(live, start, content)
    ensures Joined(live) == content[..Covered(live, content)]
  {
    if live != [] {
      var n := |live| - 1;
      PiecesPrefix(live, start, content);
      JoinedIsContent(live[..n], start, content);
      PieceIndex(live, start, content, start);
    }
  }

  /** The records kept, oldest first. */
  function Kept(live: seq<Moved>): seq<CpuPage> {
    if live == [] then [] else
      Kept(live[..|live| - 1]) + (if live[|live| - 1].tracked then [live[|live| - 1].cp] else [])
  }

  function LiveHandles(live: seq<Moved>): set<nat> {
    if live == [] then {} else LiveHandles(live[..|live| - 1]) + {live[|live| - 1].cp.handle}
  }

  function LiveTokens(live: seq<Moved>): set<nat> {
    if live == [] then {} else LiveTokens(live[..|live| - 1]) + {live[|live| - 1].cp.token}
  }

  /** The run opened one handle and one copy per chunk and closed none. */
  lemma {:induction false} RunHandles(w: World, live: seq<Moved>)
    requires AllFresh(w, live)
    ensures var w' := Run(w, live);
            && LiveHandles(live) !! w.handles.Keys && LiveHandles(live) <= w'.handles.Keys
            && w'.handles - LiveHandles(live) == w.handles
            && w'.shared == w.shared + LiveHandles(live)
  {
    if live != [] {
      var n := |live| - 1;
      RunHandles(w, live[..n]);
      AddedKey(w.handles, Run(w, live[..n]).handles, LiveHandles(live[..n]), live[n].cp.handle, live[n].data);
    }
  }

  /** The run made one mapping per chunk and undid none. */
  lemma {:induction false} RunTokens(w: World, live: seq<Moved>)
    requires AllFresh(w, live)
    ensures var w' := Run(w, live);
            && LiveTokens(live) !! w.tokens.Keys && LiveTokens(live) <= w'.tokens.Keys
            && w'.tokens - LiveTokens(live) == w.tokens
  {
    if live != [] {
      var n := |live| - 1;
      RunTokens(w, live[..n]);
      AddedKey(w.tokens, Run(w, live[..n]).tokens, LiveTokens(live[..n]), live[n].cp.token,
               Extent(live[n].cp.gpn, |live[n].data|));
    }
  }

  lemma {:induction false} AddedKey<T>(m0: map<nat, T>, m: map<nat, T>, added: set<nat>, k: nat, x: T)
    requires added !! m0.Keys && added <= m.Keys && m - added == m0 && k !in m
    ensures added + {k} !! m0.Keys && added + {k} <= m[k := x].Keys && m[k := x] - (added + {k}) == m0
  {
    forall j | j in m0
      ensures j != k
    {
      assert j in m - added;
    }
    assert m[k := x] - (added + {k}) == m - added;
  }

  /** Each chunk's object holds that chunk's pages. */
  lemma {:induction false} RunData(w: World, live: seq<Moved>, c: nat)
    requires AllFresh(w, live) && c < |live|
    ensures var w' := Run(w, live);
            && live[c].cp.handle in w'.handles && w'.handles[live[c].cp.handle] == live[c].data
            && live[c].cp.token in w'.tokens && w'.tokens[live[c].cp.token] == Extent(live[c].cp.gpn, |live[c].data|)
  {
    if c < |live| - 1 {
      RunData(w, live[..|live| - 1], c);
    }
  }

  /** A successful call preserves meaning: every page of the range reads what it read before,
      through its own chunk's window pages; every page elsewhere is untouched; the objects joined
      are the range. */
  lemma {:induction false} SuccessPreservesMemory(
    frames: map<nat, Page>, w: World, w': World, start: nat, npages: nat, e: Ended, x: nat)
    requires Result(frames, w, w', start, npages, e, true)
    ensures Load(frames, w, x).Some? ==> Load(frames, w', x) == Load(frames, w, x)
    ensures var i := x - start;
            if 0 <= i < npages
            then && i / CHUNK < |e.live| && i < |e.content| && Load(frames, w, x) == Some(e.content[i])
                 && Shows(frames, w', x, e.live[i / CHUNK].cp.gpn + i % CHUNK, e.content[i])
            else Untouched(frames, w, w', x)
    ensures Joined(e.live) == e.content && |e.content| == npages
  {
    RunReads(frames, Pinned(w, e.pages), e.live, start, e.content, x);
    JoinedIsContent(e.live, start, e.content);
    assert e.content[..npages] == e.content;
  }

  /** A failed call leaves a prefix of whole chunks moved and reading as before, and every other
      page untouched, except the pages of the failing chunk when it was left unmapped. */
  lemma {:induction false} FailureMovesPrefix(
    frames: map<nat, Page>, w: World, w': World, start: nat, npages: nat, e: Ended, x: nat)
    requires Result(frames, w, w', start, npages, e, false)
    ensures var i, done := x - start, CHUNK * |e.live|;
            if 0 <= i < done
            then && i / CHUNK < |e.live| && i < |e.content| && Load(frames, w, x) == Some(e.content[i])
                 && Shows(frames, w', x, e.live[i / CHUNK].cp.gpn + i % CHUNK, e.content[i])
            else if e.remapFailed && done <= i < done + Min(CHUNK, |e.pages| - done) then x !in w'.pte
            else Untouched(frames, w, w', x)
  {
    PrefixReads(frames, Pinned(w, e.pages), e.live, start, e.content, x,
                Min(CHUNK, |e.pages| - CHUNK * |e.live|), e.remapFailed, w');
    PinnedUntouched(frames, w, e.pages, w', x);
  }

  lemma {:induction false} PrefixReads(
    frames: map<nat, Page>, w: World, live: seq<Moved>, start: nat, content: seq<Page>, x: nat,
    gap: nat, gone: bool, w': World)
    requires AllFresh(w, live) && Pieces(live, start, content) && CHUNK * |live| <= |content|
    requires Gapped(Run(w, live), w', start + CHUNK * |live|, gap, gone)
    ensures var i, done := x - start, CHUNK * |live|;
            if 0 <= i < done
            then i / CHUNK < |live| && Shows(frames, w', x, live[i / CHUNK].cp.gpn + i % CHUNK, content[i])
            else if gone && done <= i < done + gap then x !in w'.pte
            else Untouched(frames, w, w', x)
  {
    var done := CHUNK * |live|;
    RunReads(frames, w, live, start, content, x);
    GappedReads(frames, Run(w, live), w', start + done, gap, gone, x);
    if !(gone && start + done <= x < start + done + gap) {
      UntouchedChain(frames, w, Run(w, live), w', x);
    }
  }

  lemma {:induction false} PinnedUntouched(frames: map<nat, Page>, w: World, pages: seq<nat>, w': World, x: nat)
    ensures Untouched(frames, Pinned(w, pages), w', x) == Untouched(frames, w, w', x)
  {
  }

  /** The maps of `w'` are those of `w`, with the pages of a gap possibly unmapped. */
  ghost predicate Gapped(w: World, w': World, v: nat, len: nat, gone: bool) {
    && w'.pte == (if gone then Without(w.pte, v, len) else w.pte)
    && w'.window == w.window && w'.handles == w.handles
  }

  lemma {:induction false} GappedReads(
    frames: map<nat, Page>, w: World, w': World, v: nat, len: nat, gone: bool, x: nat)
    requires Gapped(w, w', v, len, gone)
    ensures if gone && v <= x < v + len then x !in w'.pte else Untouched(frames, w, w', x)
  {
  }

  lemma {:induction false} RunRemaps(w: World, live: seq<Moved>)
    ensures Run(w, live).failedRemaps == w.failedRemaps
  {
    if live != [] {
      RunRemaps(w, live[..|live| - 1]);
    }
  }

  /** Success or failure, every page that could be read still reads the same, exactly when no remap
      failed during the call. */
  lemma {:induction false} NoPageIsLost(
    frames: map<nat, Page>, w: World, w': World, start: nat, npages: nat, e: Ended, ok: bool)
    requires Result(frames, w, w', start, npages, e, ok)
    ensures (forall x: nat :: Load(frames, w, x).Some? ==> Load(frames, w', x) == Load(frames, w, x))
            <==> w'.failedRemaps == w.failedRemaps
  {
    RunRemaps(Pinned(w, e.pages), e.live);
    assert e.remapFailed <==> w'.failedRemaps != w.failedRemaps;
    if e.remapFailed {
      var x := start + CHUNK * |e.live|;
      FailureMovesPrefix(frames, w, w', start, npages, e, x);
      assert Load(frames, w, x).Some? && Load(frames, w', x).None?;
    } else {
      forall x: nat
        ensures Load(frames, w, x).Some? ==> Load(frames, w', x) == Load(frames, w, x)
      {
        if ok {
          SuccessPreservesMemory(frames, w, w', start, npages, e, x);
        } else {
          FailureMovesPrefix(frames, w, w', start, npages, e, x);
        }
      }
    }
  }

  // ── The same call again ────────────────────────────────────────────────────

  lemma {:induction false} KeptFirst(live: seq<Moved>)
    requires live != [] && live[0].tracked
    ensures Kept(live) != [] && Kept(live)[0] == live[0].cp
  {
    if |live| > 1 {
      KeptFirst(live[..|live| - 1]);
    }
  }

  /** A record of the page was there before, or is one of the moved chunks'. */
  lemma {:induction false} KeptPage(live: seq<Moved>, start: nat, content: seq<Page>, i: nat)
    requires Pieces(live, start, content) && i < |Kept(live)| && Kept(live)[i].vpn == start
    ensures live != [] && live[0].tracked
  {
    var n := |live| - 1;
    PiecesPrefix(live, start, content);
    if i < |Kept(live[..n])| {
      KeptPage(live[..n], start, content, i);
    } else {
      assert live[n].cp.vpn == start + CHUNK * n;
    }
  }

  lemma {:induction false} RecordOfStart(
    frames: map<nat, Page>, w: World, w': World, start: nat, npages: nat, e: Ended)
    requires Result(frames, w, w', start, npages, e, true) && npages > 0 && !HasRecord(w.cpuPages, start)
    ensures e.live != [] && (HasRecord(w'.cpuPages, start) <==> e.live[0].tracked)
  {
    NothingElseIsOpen(frames, w, w', start, npages, e, true);
    var kept := Kept(e.live);
    if e.live[0].tracked {
      KeptFirst(e.live);
      assert e.live[0].cp.vpn == start + CHUNK * 0;
      assert w'.cpuPages[|w.cpuPages|].vpn == start;
    }
    if HasRecord(w'.cpuPages, start) {
      var i :| 0 <= i < |w'.cpuPages| && w'.cpuPages[i].vpn == start;
      assert forall j | 0 <= j < |w.cpuPages| :: w'.cpuPages[j] == w.cpuPages[j];
      KeptPage(e.live, start, e.content, i - |w.cpuPages|);
    }
  }

  /** A call that moved something, repeated: it returns 0 exactly when the first chunk was recorded, and
      then changes nothing. Without the record the pages are no longer ordinary and cannot be pinned. */
  lemma {:induction false} RepeatedCall(
    frames: map<nat, Page>, w: World, w1: World, w2: World, gva: nat, len: nat, slotPages: nat, ret: int,
    e: Ended, e2: Ended)
    requires Takable(gva, len) && slotPages > 0 && PageCount(gva, len) > 0 && !HasRecord(w.cpuPages, gva / PAGE)
    requires Called(frames, w, w1, gva, len, true, slotPages, 0, e)
    requires Called(frames, w1, w2, gva, len, true, slotPages, ret, e2)
    ensures e.live != [] && (ret == 0 <==> e.live[0].tracked)
    ensures e.live[0].tracked ==> w2 == w1
  {
    var start, npages := gva / PAGE, PageCount(gva, len);
    RecordOfStart(frames, w, w1, start, npages, e);
    if !e.live[0].tracked && ret == 0 {
      SuccessPreservesMemory(frames, w, w1, start, npages, e, start);
    }
  }

  // ── What a return of 0 means ───────────────────────────────────────────────

  /** Page `x` was mapped otherwise and now maps to the window. */
  ghost predicate MovedNow(w: World, w': World, x: nat) {
    x in w.pte && x in w'.pte && w'.pte[x].Window? && w'.pte[x] != w.pte[x]
  }

  /** Window pages of a chunk were unused before the call. */
  lemma {:induction false} WindowFresh(w: World, live: seq<Moved>, c: nat, g: nat)
    requires AllFresh(w, live) && c < |live| && live[c].cp.gpn <= g < live[c].cp.gpn + |live[c].data|
    ensures g !in w.window
  {
    var n := |live| - 1;
    if c < n {
      WindowFresh(w, live[..n], c, g);
    } else {
      WindowGrows(w, live[..n], g);
    }
  }

  lemma {:induction false} WindowGrows(w: World, live: seq<Moved>, g: nat)
    ensures g in w.window ==> g in Run(w, live).window
  {
    if live != [] {
      WindowGrows(w, live[..|live| - 1], g);
    }
  }

  lemma {:induction false} StaysPut(frames: map<nat, Page>, w: World, w': World, x: nat)
    requires Untouched(frames, w, w', x)
    ensures !MovedNow(w, w', x)
  {
  }

  lemma {:induction false} ShownMoves(frames: map<nat, Page>, w: World, w': World, x: nat, g: nat, page: Page)
    requires Load(frames, w, x).Some? && Shows(frames, w', x, g, page) && g !in w.window
    ensures MovedNow(w, w', x)
  {
  }

  /** Where in its chunk a page is. */
  lemma {:induction false} PageInChunk(live: seq<Moved>, start: nat, content: seq<Page>, i: nat)
    requires Pieces(live, start, content) && i < |content| && i / CHUNK < |live|
    ensures i % CHUNK < |live[i / CHUNK].data|
  {
    var c := i / CHUNK;
    assert CHUNK * c <= i < CHUNK * (c + 1);
    assert live[c].data == content[CHUNK * c..Min(CHUNK * (c + 1), |content|)];
  }

  lemma {:induction false} InRangeMoves(
    frames: map<nat, Page>, w: World, w': World, start: nat, npages: nat, e: Ended, x: nat)
    requires Result(frames, w, w', start, npages, e, true)
    ensures MovedNow(w, w', x) <==> InPages(x, start, npages)
  {
    SuccessPreservesMemory(frames, w, w', start, npages, e, x);
    if InPages(x, start, npages) {
      FreshlyShown(frames, w, w', Pinned(w, e.pages), e.live, start, e.content, x);
    } else {
      StaysPut(frames, w, w', x);
    }
  }

  lemma {:induction false} FreshlyShown(frames: map<nat, Page>, w: World, w': World, p: World,
                                        live: seq<Moved>, start: nat, content: seq<Page>, x: nat)
    requires p.window == w.window && AllFresh(p, live) && Pieces(live, start, content)
    requires start <= x < start + |content| && (x - start) / CHUNK < |live| && Load(frames, w, x).Some?
    requires var i := x - start; Shows(frames, w', x, live[i / CHUNK].cp.gpn + i % CHUNK, content[i])
    ensures MovedNow(w, w', x)
  {
    var i := x - start;
    var c, k := i / CHUNK, i % CHUNK;
    PageInChunk(live, start, content, i);
    WindowFresh(p, live, c, live[c].cp.gpn + k);
    ShownMoves(frames, w, w', x, live[c].cp.gpn + k, content[i]);
  }

  /** How a call that returned 0 ended: it had nothing to do, or it moved the pages it took. */
  ghost predicate Finished(frames: map<nat, Page>, w: World, w': World, gva: nat, len: nat, isolate: bool,
                           slotPages: nat, e: Ended)
  {
    var pre := Precheck(gva, len, isolate, slotPages, w.cpuPages);
    var span := Taken(gva, len, isolate, slotPages, w.cpuPages);
    if pre.Some? then pre.value == 0 && w' == w else Result(frames, w, w', span.0, span.1, e, true)
  }

  /** A call that returns 0 has moved every page of the request exactly when its checks let it do any
      work and rounding up the end of the request did not overflow. */
  lemma {:induction false} ZeroMeansMoved(
    frames: map<nat, Page>, w: World, w': World, gva: nat, len: nat, isolate: bool, slotPages: nat, e: Ended)
    requires gva < TWO64 && 0 < len < TWO64 && Finished(frames, w, w', gva, len, isolate, slotPages, e)
    ensures (forall x | gva / PAGE <= x <= (gva + len - 1) / PAGE :: MovedNow(w, w', x))
            <==> Precheck(gva, len, isolate, slotPages, w.cpuPages).None? && gva + len + PAGE - 1 < TWO64
  {
    TakenExactly(gva, len, isolate, slotPages, w.cpuPages);
    var lo, hi := gva / PAGE, (gva + len - 1) / PAGE;
    if Precheck(gva, len, isolate, slotPages, w.cpuPages).None? {
      var span := Taken(gva, len, isolate, slotPages, w.cpuPages);
      PagesMoved(frames, w, w', span.0, span.1, e, lo, hi);
    } else {
      NoneMoved(w, lo, hi);
    }
  }

  lemma {:induction false} NoneMoved(w: World, lo: nat, hi: nat)
    requires lo <= hi
    ensures !forall x | lo <= x <= hi :: MovedNow(w, w, x)
  {
    assert !MovedNow(w, w, lo);
  }

  lemma {:induction false} PagesMoved(
    frames: map<nat, Page>, w: World, w': World, start: nat, npages: nat, e: Ended, lo: nat, hi: nat)
    requires Result(frames, w, w', start, npages, e, true)
    ensures (forall x | lo <= x <= hi :: MovedNow(w, w', x)) <==> forall x | lo <= x <= hi :: InPages(x, start, npages)
  {
    forall x | lo <= x <= hi
      ensures MovedNow(w, w', x) <==> InPages(x, start, npages)
    {
      InRangeMoves(frames, w, w', start, npages, e, x);
    }
  }

  /** Success or failure, the handles, copies and mappings left open beyond those before are those
      of the moved chunks, one each, and the records added are theirs. */
  lemma {:induction false} NothingElseIsOpen(
    frames: map<nat, Page>, w: World, w': World, start: nat, npages: nat, e: Ended, ok: bool)
    requires Result(frames, w, w', start, npages, e, ok)
    ensures LiveHandles(e.live) !! w.handles.Keys && w'.handles - LiveHandles(e.live) == w.handles
    ensures LiveTokens(e.live) !! w.tokens.Keys && w'.tokens - LiveTokens(e.live) == w.tokens
    ensures w'.shared == w.shared + LiveHandles(e.live) && w'.cpuPages == w.cpuPages + Kept(e.live)
  {
    RunHandles(Pinned(w, e.pages), e.live);
    RunTokens(Pinned(w, e.pages), e.live);
    RunRecords(Pinned(w, e.pages), e.live);
  }

  lemma {:induction false} RunRecords(w: World, live: seq<Moved>)
    ensures Run(w, live).cpuPages == w.cpuPages + Kept(live)
  {
    if live != [] {
      RunRecords(w, live[..|live| - 1]);
    }
  }

  // ── Migrate, then clean up ─────────────────────────────────────────────────

  lemma {:induction false} KeptHandles(live: seq<Moved>)
    requires forall c | 0 <= c < |live| :: live[c].tracked
    ensures |Kept(live)| == |live| && forall c | 0 <= c < |live| :: Kept(live)[c] == live[c].cp
  {
    if live != [] {
      KeptHandles(live[..|live| - 1]);
    }
  }

  lemma {:induction false} SetsMatch(live: seq<Moved>, cps: seq<CpuPage>, k: nat)
    requires k <= |live| == |cps| && forall c | 0 <= c < |live| :: cps[c] == live[c].cp
    ensures HandleSet(cps, k) == LiveHandles(live[..k]) && TokenSet(cps, k) == LiveTokens(live[..k])
  {
    if k > 0 {
      SetsMatch(live, cps, k - 1);
      assert live[..k][..k - 1] == live[..k - 1];
    }
  }

  /** What is left after every recorded chunk is released. */
  function CleanedUp(w: World, isolate: bool): World {
    FreedTo(w.(cpuPages := []), w.cpuPages, |w.cpuPages|, isolate)
  }

  lemma {:induction false} HandleSetJoin(a: seq<CpuPage>, b: seq<CpuPage>, k: nat)
    requires k <= |b|
    ensures HandleSet(a + b, |a| + k) == HandleSet(a, |a|) + HandleSet(b, k)
    ensures TokenSet(a + b, |a| + k) == TokenSet(a, |a|) + TokenSet(b, k)
  {
    if k == 0 {
      HandleSetPrefix(a, b, |a|);
    } else {
      HandleSetJoin(a, b, k - 1);
    }
  }

  lemma {:induction false} HandleSetPrefix(a: seq<CpuPage>, b: seq<CpuPage>, k: nat)
    requires k <= |a|
    ensures HandleSet(a + b, k) == HandleSet(a, k) && TokenSet(a + b, k) == TokenSet(a, k)
  {
    if k > 0 {
      HandleSetPrefix(a, b, k - 1);
    }
  }

  lemma {:induction false} HandlesDistinct(w: World, live: seq<Moved>, a: nat, b: nat)
    requires AllFresh(w, live) && a < b < |live|
    ensures live[a].cp.handle != live[b].cp.handle
  {
    var n := |live| - 1;
    if b < n {
      HandlesDistinct(w, live[..n], a, b);
    } else {
      RunData(w, live[..n], a);
    }
  }

  lemma {:induction false} ResultRecorded(
    frames: map<nat, Page>, w: World, w': World, start: nat, npages: nat, e: Ended, ok: bool)
    requires Sound(frames, w) && Result(frames, w, w', start, npages, e, ok)
    ensures Recorded(w'.cpuPages, w'.handles, w'.tokens)
    ensures var r := Run(Pinned(w, e.pages), e.live);
            && w'.handles == r.handles && w'.tokens == r.tokens && w'.shared == r.shared && w'.cpuPages == r.cpuPages
            && Recorded(r.cpuPages, r.handles, r.tokens)
  {
    RunSound(frames, Pinned(w, e.pages), e.live);
  }

  ghost predicate AllTracked(live: seq<Moved>) {
    forall c | 0 <= c < |live| :: live[c].tracked
  }

  /** Cleaning up after the call leaves the handles that cleaning up before it would have left, exactly
      when every chunk it moved was recorded; then the copies and mappings agree as well. */
  lemma {:induction false} FreeUndoesMigrate(
    frames: map<nat, Page>, w: World, w': World, start: nat, npages: nat, e: Ended, ok: bool)
    requires Sound(frames, w) && Result(frames, w, w', start, npages, e, ok)
    ensures var before, after := CleanedUp(w, true), CleanedUp(w', true);
            && (after.handles == before.handles <==> AllTracked(e.live))
            && (AllTracked(e.live) ==> after.shared == before.shared && after.tokens == before.tokens)
  {
    ResultRecorded(frames, w, w', start, npages, e, ok);
    FreedExactly(w.(cpuPages := []), w.cpuPages, |w.cpuPages|, true);
    FreedExactly(w'.(cpuPages := []), w'.cpuPages, |w'.cpuPages|, true);
    if AllTracked(e.live) {
      TrackedUndone(frames, w, w', start, npages, e, ok);
    } else {
      UntrackedStays(frames, w, w', start, npages, e, ok);
    }
  }

  lemma {:induction false} TrackedUndone(
    frames: map<nat, Page>, w: World, w': World, start: nat, npages: nat, e: Ended, ok: bool)
    requires Sound(frames, w) && Result(frames, w, w', start, npages, e, ok) && AllTracked(e.live)
    ensures w'.handles - HandleSet(w'.cpuPages, |w'.cpuPages|) == w.handles - HandleSet(w.cpuPages, |w.cpuPages|)
    ensures w'.shared - HandleSet(w'.cpuPages, |w'.cpuPages|) == w.shared - HandleSet(w.cpuPages, |w.cpuPages|)
    ensures w'.tokens - TokenSet(w'.cpuPages, |w'.cpuPages|) == w.tokens - TokenSet(w.cpuPages, |w.cpuPages|)
  {
    NothingElseIsOpen(frames, w, w', start, npages, e, ok);
    BackToBefore(w, w', e.live);
  }

  lemma {:induction false} BackToBefore(w: World, w': World, live: seq<Moved>)
    requires AllTracked(live) && w'.cpuPages == w.cpuPages + Kept(live) && w.shared <= w.handles.Keys
    requires LiveHandles(live) !! w.handles.Keys && w'.handles - LiveHandles(live) == w.handles
    requires w'.tokens - LiveTokens(live) == w.tokens && w'.shared == w.shared + LiveHandles(live)
    ensures w'.handles - HandleSet(w'.cpuPages, |w'.cpuPages|) == w.handles - HandleSet(w.cpuPages, |w.cpuPages|)
    ensures w'.shared - HandleSet(w'.cpuPages, |w'.cpuPages|) == w.shared - HandleSet(w.cpuPages, |w.cpuPages|)
    ensures w'.tokens - TokenSet(w'.cpuPages, |w'.cpuPages|) == w.tokens - TokenSet(w.cpuPages, |w.cpuPages|)
  {
    KeptSets(live);
    HandleSetJoin(w.cpuPages, Kept(live), |Kept(live)|);
    Twice(w.handles, w'.handles, LiveHandles(live), HandleSet(w.cpuPages, |w.cpuPages|));
    Twice(w.tokens, w'.tokens, LiveTokens(live), TokenSet(w.cpuPages, |w.cpuPages|));
    assert LiveHandles(live) !! w.shared;
  }

  lemma {:induction false} Twice<T>(m: map<nat, T>, m': map<nat, T>, a: set<nat>, b: set<nat>)
    requires m' - a == m
    ensures m' - (b + a) == m - b
  {
    assert m' - (b + a) == (m' - a) - b;
  }

  lemma {:induction false} UntrackedStays(
    frames: map<nat, Page>, w: World, w': World, start: nat, npages: nat, e: Ended, ok: bool)
    requires Sound(frames, w) && Result(frames, w, w', start, npages, e, ok) && !AllTracked(e.live)
    ensures CleanedUp(w', true).handles != CleanedUp(w, true).handles
  {
    var p := Pinned(w, e.pages);
    var c :| 0 <= c < |e.live| && !e.live[c].tracked;
    var h := e.live[c].cp.handle;
    ResultRecorded(frames, w, w', start, npages, e, ok);
    LiveMember(e.live, c);
    forall d | 0 <= d < |e.live| && e.live[d].tracked
      ensures e.live[d].cp.handle != h
    {
      HandlesDistinct(p, e.live, if c < d then c else d, if c < d then d else c);
    }
    FreeLeavesUntracked(p, e.live, true, h);
    FreedExactly(w.(cpuPages := []), w.cpuPages, |w.cpuPages|, true);
    FreedExactly(w'.(cpuPages := []), w'.cpuPages, |w'.cpuPages|, true);
    FreedExactly(Run(p, e.live).(cpuPages := []), w'.cpuPages, |w'.cpuPages|, true);
    RunHandles(p, e.live);
    assert h in CleanedUp(w', true).handles && h !in w.handles;
  }

  lemma {:induction false} LiveMember(live: seq<Moved>, c: nat)
    requires c < |live|
    ensures live[c].cp.handle in LiveHandles(live)
  {
    if c < |live| - 1 {
      LiveMember(live[..|live| - 1], c);
    }
  }

  lemma {:induction false} KeptSets(live: seq<Moved>)
    requires AllTracked(live)
    ensures HandleSet(Kept(live), |Kept(live)|) == LiveHandles(live)
    ensures TokenSet(Kept(live), |Kept(live)|) == LiveTokens(live)
  {
    KeptHandles(live);
    assert live[..|live|] == live;
    SetsMatch(live, Kept(live), |live|);
  }

  lemma {:induction false} KeptIff(live: seq<Moved>, h: nat)
    ensures (exists i | 0 <= i < |Kept(live)| :: Kept(live)[i].handle == h)
            <==> exists c | 0 <= c < |live| :: live[c].tracked && live[c].cp.handle == h
  {
    if live != [] {
      var n := |live| - 1;
      KeptIff(live[..n], h);
      var k, k' := Kept(live[..n]), Kept(live);
      if i :| 0 <= i < |k'| && k'[i].handle == h {
        if i < |k| {
          assert k[i].handle == h;
          var c :| 0 <= c < n && live[..n][c].tracked && live[..n][c].cp.handle == h;
          assert live[c].tracked && live[c].cp.handle == h;
        } else {
          assert live[n].tracked && live[n].cp.handle == h;
        }
      }
      if c :| 0 <= c < |live| && live[c].tracked && live[c].cp.handle == h {
        if c < n {
          assert live[..n][c].tracked && live[..n][c].cp.handle == h;
          var i :| 0 <= i < |k| && k[i].handle == h;
          assert k'[i].handle == h;
        } else {
          assert k'[|k|].handle == h;
        }
      }
    }
  }

  /** In general cleaning up closes exactly the handles with a record: a handle of this call stays
      open exactly when no chunk with a kept record has it. */
  lemma {:induction false} FreeLeavesUntracked(w: World, live: seq<Moved>, isolate: bool, h: nat)
    requires AllFresh(w, live) && Recorded(w.cpuPages, w.handles, w.tokens) && h in LiveHandles(live)
    requires Recorded(Run(w, live).cpuPages, Run(w, live).handles, Run(w, live).tokens)
    ensures var w' := Run(w, live);
            h in FreedTo(w'.(cpuPages := []), w'.cpuPages, |w'.cpuPages|, isolate).handles
            <==> !exists c | 0 <= c < |live| :: live[c].tracked && live[c].cp.handle == h
  {
    var w' := Run(w, live);
    var cps := w'.cpuPages;
    RunHandles(w, live);
    RunRecords(w, live);
    KeptIff(live, h);
    FreedExactly(w'.(cpuPages := []), cps, |cps|, isolate);
    InHandleSet(cps, |cps|, h);
    OnlyInKept(w.cpuPages, Kept(live), h);
  }

  lemma {:induction false} OnlyInKept(before: seq<CpuPage>, kept: seq<CpuPage>, h: nat)
    requires forall i | 0 <= i < |before| :: before[i].handle != h
    ensures (exists i | 0 <= i < |before + kept| :: (before + kept)[i].handle == h)
            <==> exists i | 0 <= i < |kept| :: kept[i].handle == h
  {
    var cps := before + kept;
    if i :| 0 <= i < |cps| && cps[i].handle == h {
      assert i >= |before| && kept[i - |before|].handle == h;
    }
    if i :| 0 <= i < |kept| && kept[i].handle == h {
      assert cps[|before| + i].handle == h;
    }
  }
}

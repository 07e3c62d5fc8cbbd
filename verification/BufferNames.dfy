/** What the numbers in forwarded handles name: the host's table from a number in a context's descriptor
    to a buffer, followed through every run. */
module BufferNames {
  import opened Lifetimes
  import opened Options
  import opened Forwarding

  /** Number `v` names buffer `b` in the descriptor of context `c`. */
  predicate Names(names: map<(nat, nat), nat>, c: nat, v: nat, b: nat) {
    (c, v) in names && names[(c, v)] == b
  }

  /** A proxy's own number names its buffer, and so does the cached one while its importer lives. */
  ghost predicate Named(s: State, x: Proxy) {
    && x.buf < s.nextBuf && Names(s.names, x.ctx, x.handle.value, x.buf)
    && (x.importer != 0 && x.imported.ctx in s.ctxs ==> Names(s.names, x.imported.ctx, x.imported.value, x.buf))
  }

  ghost predicate AllNamed(s: State) {
    && (forall p | p in s.proxies :: Named(s, s.proxies[p]))
    && (forall p, q | p in s.proxies && q in s.proxies && p != q :: s.proxies[p].buf != s.proxies[q].buf)
  }

  /** Numbers name only in descriptors that are open, and only buffers that were made. */
  ghost predicate Backed(s: State) {
    forall k | k in s.names :: k.0 in s.ctxs && s.names[k] < s.nextBuf
  }

  // ── What a step does to the table ──────────────────────────────────────────

  /** Numbers in descriptors that stay open keep their meaning, and no number gains one. */
  ghost predicate NamesKept(s: State, s': State) {
    && s'.nextBuf == s.nextBuf
    && (forall k | k in s.names && k.0 in s'.ctxs :: k in s'.names)
    && (forall k | k in s'.names :: k in s.names && s'.names[k] == s.names[k] && (k.0 in s.ctxs ==> k.0 in s'.ctxs))
  }

  lemma {:induction false} PutNames(s: State, sid: nat)
    requires sid in s.sessions && s.sessions[sid].refs > 0
    ensures SessionPut(s, sid).names == s.names && SessionPut(s, sid).nextBuf == s.nextBuf
  {
  }

  lemma {:induction false} CtxPutNames(s: State, c: nat)
    requires c in s.ctxs && s.ctxs[c].refs > 0 && s.ctxs[c].sid in s.sessions && s.sessions[s.ctxs[c].sid].refs > 0
    ensures NamesKept(s, CtxPut(s, c))
  {
    if s.ctxs[c].refs == 1 {
      var s1 := s.(ctxs := s.ctxs - {c}, destroyed := s.destroyed + [c], names := Closed(s.names, c));
      PutNames(s1, s.ctxs[c].sid);
      PutKeepsCtxs(s1, s.ctxs[c].sid);
    }
  }

  lemma {:induction false} OpenNames(s: State, s': State, c: nat, mm: nat, sid: nat, id: nat)
    requires Open(s, s', c, mm, sid, id)
    ensures NamesKept(s, s')
  {
    var s1, s2 :| Opening(s, s1, s2, mm, sid, id) && s' == s2.(ctxs := s2.ctxs[c := Ctx(sid, 1, true)]);
    OpeningNames(s, s1, s2, mm, sid, id);
    OpenDestroysNone(s, s', c, mm, sid, id);
  }

  lemma {:induction false} OpeningNames(s: State, s1: State, s2: State, mm: nat, sid: nat, id: nat)
    requires GetOrCreate(s, s1, mm, sid) && (s2 == s1 || EnsureIsolate(s1, s2, sid, id))
    ensures s2.names == s.names && s2.nextBuf == s.nextBuf
  {
    assert s1.names == s.names && s1.nextBuf == s.nextBuf;
  }

  lemma {:induction false} OpenFailsNames(s: State, s': State, mm: nat, sid: nat, id: nat)
    requires OpenFails(s, s', mm, sid, id)
    ensures NamesKept(s, s')
  {
    var s1, s2 :| Failing(s, s1, s2, mm, sid, id) && s' == SessionPut(s2, sid);
    OpeningNames(s, s1, s2, mm, sid, id);
    PutNames(s2, sid);
    OpenFailsDestroysNone(s, s', mm, sid, id);
  }

  // ── Every step keeps the names right ───────────────────────────────────────

  /** Every proxy's context is there. */
  ghost predicate Homed(s: State) {
    forall p | p in s.proxies :: s.proxies[p].ctx in s.ctxs
  }

  /** A step that only closes descriptors or drops proxies. */
  lemma {:induction false} OthersNamed(s: State, s': State)
    requires AllMinted(s) && AllNamed(s) && CtxsStep(s, s') && NamesKept(s, s') && Homed(s')
    requires forall p | p in s'.proxies :: p in s.proxies && s'.proxies[p] == s.proxies[p]
    ensures AllNamed(s')
  {
    forall p | p in s'.proxies
      ensures Named(s', s'.proxies[p])
    {
      assert Minted(s, s.proxies[p]) && Named(s, s.proxies[p]);
      var x := s.proxies[p];
      assert (x.ctx, x.handle.value) in s'.names;
      if x.importer != 0 && x.imported.ctx in s'.ctxs {
        assert (x.imported.ctx, x.imported.value) in s'.names;
      }
    }
  }

  lemma {:induction false} OthersBacked(s: State, s': State)
    requires Backed(s) && NamesKept(s, s')
    ensures Backed(s')
  {
  }

  /** Freeing a proxy closes no other proxy's number. */
  lemma {:induction false} UnproxiedNamed(s: State, p: nat)
    requires AllNamed(s) && p in s.proxies
    ensures AllNamed(Unproxied(s, p))
  {
    var s' := Unproxied(s, p);
    forall q | q in s'.proxies
      ensures Named(s', s'.proxies[q])
    {
      assert Named(s, s.proxies[q]) && Named(s, s.proxies[p]);
    }
  }

  lemma {:induction false} FreeNamed(s: State, s': State, p: nat)
    requires AllMinted(s) && AllNamed(s) && Backed(s) && ProxyFree(s, s', p) && Homed(s')
    ensures AllNamed(s') && Backed(s')
  {
    var s1, c := Unproxied(s, p), s.proxies[p].ctx;
    UnproxiedNamed(s, p);
    CtxPutStep(s1, c);
    CtxPutNames(s1, c);
    UnproxiedMinted(s, p);
    OthersNamed(s1, s');
    OthersBacked(s1, s');
  }

  lemma {:induction false} UnproxiedMinted(s: State, p: nat)
    requires AllMinted(s) && p in s.proxies
    ensures AllMinted(Unproxied(s, p))
  {
    forall q | q in Unproxied(s, p).proxies
      ensures Minted(Unproxied(s, p), s.proxies[q])
    {
      assert Minted(s, s.proxies[q]);
    }
  }

  lemma {:induction false} CloseNamed(s: State, s': State, c: nat)
    requires AllMinted(s) && AllNamed(s) && Backed(s) && CloseFile(s, s', c) && Homed(s')
    ensures AllNamed(s') && Backed(s')
  {
    var s1 := s.(ctxs := s.ctxs[c := s.ctxs[c].(file := false)]);
    CtxPutNames(s1, c);
    CloseStep(s, s', c);
    OthersNamed(s, s');
    OthersBacked(s, s');
  }

  lemma {:induction false} CreateNamed(s: State, s': State, p: nat, c: nat, v: nat)
    requires AllNamed(s) && Backed(s) && ProxyCreate(s, s', p, c, v)
    ensures AllNamed(s') && Backed(s')
  {
    forall q | q in s'.proxies
      ensures Named(s', s'.proxies[q])
    {
      if q != p {
        assert Named(s, s.proxies[q]);
      }
    }
  }

  lemma {:induction false} ImportNamed(s: State, s': State, p: nat, caller: nat, gem: nat)
    requires AllNamed(s) && Backed(s) && ImportBuffer(s, s', p, caller, gem)
    ensures AllNamed(s') && Backed(s')
  {
    assert Named(s, s.proxies[p]);
    forall q | q in s'.proxies
      ensures Named(s', s'.proxies[q])
    {
      assert Named(s, s.proxies[q]);
    }
  }

  lemma {:induction false} NextNamed(s: State, s': State)
    requires AllMinted(s) && AllNamed(s) && Backed(s) && Next(s, s') && Homed(s')
    ensures AllNamed(s') && Backed(s')
  {
    if c, mm, sid, id :| Open(s, s', c, mm, sid, id) {
      OpenStep(s, s', c, mm, sid, id);
      OpenNames(s, s', c, mm, sid, id);
      OthersNamed(s, s');
    } else if mm, sid, id :| OpenFails(s, s', mm, sid, id) {
      OpenFailsStep(s, s', mm, sid, id);
      OpenFailsNames(s, s', mm, sid, id);
      OthersNamed(s, s');
    } else if c :| CloseFile(s, s', c) {
      CloseNamed(s, s', c);
    } else if p :| ProxyFree(s, s', p) {
      FreeNamed(s, s', p);
    } else if p, c, v :| ProxyCreate(s, s', p, c, v) {
      CreateNamed(s, s', p, c, v);
    } else if p, c, gem :| ImportBuffer(s, s', p, c, gem) {
      ImportNamed(s, s', p, c, gem);
    }
  }

  lemma {:induction false} RunHomed(run: seq<State>, i: nat)
    requires IsRun(run) && i < |run|
    ensures Homed(run[i]) && AllMinted(run[i])
  {
    RunMinted(run, i);
  }

  lemma {:induction false} RunNamed(run: seq<State>, i: nat)
    requires IsRun(run) && i < |run|
    ensures AllNamed(run[i]) && Backed(run[i])
  {
    if i > 0 {
      RunNamed(run, i - 1);
      RunHomed(run, i - 1);
      RunHomed(run, i);
      NextNamed(run[i - 1], run[i]);
    }
  }

  // ── What a forwarded number names ──────────────────────────────────────────

  /** In every run: a forwarded number names the proxy's own buffer in the descriptor it belongs to, if
      that is still open; so it does in the descriptor it is forwarded on, unless the cache serves it to
      another context than the one that imported it. */
  lemma {:induction false} NumberNamesBuffer(run: seq<State>, i: nat, p: nat, caller: nat)
    requires IsRun(run) && i < |run| && Resolve(run[i], p, caller).Forward?
    ensures var s := run[i];
            var r, x := Resolve(s, p, caller), s.proxies[p];
            && (r.handle.ctx in s.ctxs ==> Names(s.names, r.handle.ctx, r.handle.value, x.buf))
            && (!(CacheHit(s, p, caller) && x.imported.ctx != caller) ==>
                  Names(s.names, r.ctx, r.handle.value, x.buf))
  {
    RunMinted(run, i);
    RunNamed(run, i);
    HitIsCached(run[i], p, caller);
  }

  lemma {:induction false} HitIsCached(s: State, p: nat, caller: nat)
    requires Inv(s) && AllMinted(s) && AllNamed(s) && Resolve(s, p, caller).Forward?
    ensures var r, x := Resolve(s, p, caller), s.proxies[p];
            && (r.handle.ctx in s.ctxs ==> Names(s.names, r.handle.ctx, r.handle.value, x.buf))
            && (!(CacheHit(s, p, caller) && x.imported.ctx != caller) ==>
                  Names(s.names, r.ctx, r.handle.value, x.buf))
  {
    var x := s.proxies[p];
    assert Minted(s, x) && Named(s, x);
    if CacheHit(s, p, caller) {
      assert Running(IncOf(s, caller).value, s.ctxs[caller].sid, s.live, s.issued, s.killed);
      assert x.importer != 0;
    }
  }

  /** In every run: operations on two different proxies never reach the same number of the same
      descriptor, when each is forwarded on the context its handle belongs to. */
  lemma {:induction false} NumbersTellProxiesApart(run: seq<State>, i: nat, p: nat, q: nat, c: nat, d: nat)
    requires IsRun(run) && i < |run| && p != q
    requires Resolve(run[i], p, c).Forward? && Resolve(run[i], q, d).Forward?
    requires Resolve(run[i], p, c).handle.ctx == Resolve(run[i], p, c).ctx
    requires Resolve(run[i], q, d).handle.ctx == Resolve(run[i], q, d).ctx
    ensures var r, t := Resolve(run[i], p, c), Resolve(run[i], q, d);
            r.ctx == t.ctx ==> r.handle.value != t.handle.value
  {
    RunNamed(run, i);
    NumberNamesBuffer(run, i, p, c);
    NumberNamesBuffer(run, i, q, d);
  }

  /** In every run: the buffer is imported exactly when the two contexts run in different isolates and the
      proxy's last import, if any, was not for an isolate with the caller's id. */
  lemma {:induction false} ImportsExactly(run: seq<State>, i: nat, p: nat, caller: nat)
    requires IsRun(run) && i < |run| && p in run[i].proxies && caller in run[i].ctxs
    requires IncOf(run[i], caller).Some?
    ensures var s := run[i];
            var x := s.proxies[p];
            && x.ctx in s.ctxs && IncOf(s, x.ctx).Some?
            && (Resolve(s, p, caller).Import? <==>
                  IncOf(s, x.ctx).value.inc != IncOf(s, caller).value.inc && x.importer != IncOf(s, caller).value.id)
  {
    RunMinted(run, i);
    RunCached(run, i);
    ImportsWhen(run[i], p, caller);
  }

  /** A cached number is never zero. */
  ghost predicate CachedNonzero(s: State) {
    forall p | p in s.proxies :: s.proxies[p].importer != 0 ==> s.proxies[p].imported.value != 0
  }

  lemma {:induction false} NextCached(s: State, s': State)
    requires CachedNonzero(s) && Next(s, s')
    ensures CachedNonzero(s')
  {
    if c, mm, sid, id :| Open(s, s', c, mm, sid, id) {
      OpenStep(s, s', c, mm, sid, id);
    } else if mm, sid, id :| OpenFails(s, s', mm, sid, id) {
      OpenFailsStep(s, s', mm, sid, id);
    } else if c :| CloseFile(s, s', c) {
      CloseStep(s, s', c);
    } else if p :| ProxyFree(s, s', p) {
      FreeStep(s, s', p);
    }
  }

  lemma {:induction false} RunCached(run: seq<State>, i: nat)
    requires IsRun(run) && i < |run|
    ensures CachedNonzero(run[i])
  {
    if i > 0 {
      RunCached(run, i - 1);
      NextCached(run[i - 1], run[i]);
    }
  }

  lemma {:induction false} ImportsWhen(s: State, p: nat, caller: nat)
    requires Inv(s) && CachedNonzero(s) && p in s.proxies && caller in s.ctxs && IncOf(s, caller).Some?
    ensures var x := s.proxies[p];
            && x.ctx in s.ctxs && IncOf(s, x.ctx).Some?
            && (Resolve(s, p, caller).Import? <==>
                  IncOf(s, x.ctx).value.inc != IncOf(s, caller).value.inc && x.importer != IncOf(s, caller).value.id)
  {
    var c := s.proxies[p].ctx;
    assert IncOf(s, c).Some?;
    assert Running(IncOf(s, caller).value, s.ctxs[caller].sid, s.live, s.issued, s.killed);
    assert Running(IncOf(s, c).value, s.ctxs[c].sid, s.live, s.issued, s.killed);
  }

  /** The import is what the importer is then served, on its own context. */
  lemma {:induction false} ImportIsServed(s: State, s': State, p: nat, caller: nat, gem: nat)
    requires AllNamed(s) && ImportBuffer(s, s', p, caller, gem)
    ensures Resolve(s', p, caller).Forward? && Resolve(s', p, caller).ctx == caller
    ensures Names(s'.names, caller, Resolve(s', p, caller).handle.value, s.proxies[p].buf)
  {
    assert Named(s, s.proxies[p]);
  }
}

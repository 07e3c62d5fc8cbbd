/** Where buffer operations are forwarded, and whether the handle they carry is good there. */
module Forwarding {
  import opened Lifetimes
  import opened Options

  /** The handle was minted in the incarnation the operation will run in. */
  ghost predicate Valid(s: State, r: Resolved)
    requires r.Forward?
  {
    r.ctx in s.ctxs && IncOf(s, r.ctx).Some? && r.handle.inc == IncOf(s, r.ctx).value.inc
  }

  /** The operation of `caller` on proxy `p` is served from the proxy's cache. */
  predicate CacheHit(s: State, p: nat, caller: nat) {
    && Resolve(s, p, caller).Forward? && caller in s.ctxs && IncOf(s, caller).Some?
    && s.proxies[p].ctx in s.ctxs && IncOf(s, s.proxies[p].ctx).Some?
    && IncOf(s, s.proxies[p].ctx).value.id != IncOf(s, caller).value.id
  }

  ghost predicate Reachable(s: State) {
    Inv(s) && NoneLost(s.sessions, s.issued, s.killed)
  }

  /** An incarnation that has not been killed is the one that now has its id. */
  lemma {:induction false} LiveIsCurrent(s: State, inc: nat, i: Iso, sid: nat)
    requires Reachable(s) && inc in s.issued && inc !in s.killed && s.issued[inc].id == i.id
    requires Running(i, sid, s.live, s.issued, s.killed)
    ensures inc == i.inc
  {
    assert Serving(s.sessions, s.issued[inc], inc);
    var x := s.sessions[s.issued[inc].sid];
    assert Running(x.iso.value, s.issued[inc].sid, s.live, s.issued, s.killed);
  }

  /** A resolved handle is valid where it is forwarded, exactly unless it comes from the cache and the
      isolate it was imported into has been killed since. */
  lemma {:induction false} ResolveExact(s: State, p: nat, caller: nat)
    requires Reachable(s) && Resolve(s, p, caller).Forward?
    ensures Valid(s, Resolve(s, p, caller)) <==> !(CacheHit(s, p, caller) && s.proxies[p].imported.inc in s.killed)
  {
    if CacheHit(s, p, caller) {
      var x, me := s.proxies[p], IncOf(s, caller).value;
      assert Running(me, s.ctxs[caller].sid, s.live, s.issued, s.killed);
      assert x.importer == me.id != 0 && x.imported.inc in s.issued && s.issued[x.imported.inc].id == me.id;
      if x.imported.inc !in s.killed {
        LiveIsCurrent(s, x.imported.inc, me, s.ctxs[caller].sid);
      }
    }
  }

  /** In every run: a resolved handle is good in the isolate it is forwarded to, exactly unless it was
      cached for an isolate that has been killed. */
  lemma {:induction false} ResolveInEveryRun(run: seq<State>, i: nat, p: nat, caller: nat)
    requires IsRun(run) && i < |run| && Resolve(run[i], p, caller).Forward?
    ensures var s := run[i];
            Valid(s, Resolve(s, p, caller)) <==> !(CacheHit(s, p, caller) && s.proxies[p].imported.inc in s.killed)
  {
    RunKeeps(run, i);
    ResolveExact(run[i], p, caller);
  }

  /** When the host never uses an isolate id again, every resolved handle is valid. */
  lemma {:induction false} ResolveWithoutReuse(s: State, p: nat, caller: nat)
    requires Reachable(s) && Resolve(s, p, caller).Forward?
    requires forall i, j | i in s.issued && j in s.issued && s.issued[i].id == s.issued[j].id :: i == j
    ensures Valid(s, Resolve(s, p, caller))
  {
    ResolveExact(s, p, caller);
    if CacheHit(s, p, caller) {
      assert Running(IncOf(s, caller).value, s.ctxs[caller].sid, s.live, s.issued, s.killed);
    }
  }

  // ── Which descriptor a handle belongs to ───────────────────────────────────

  /** A proxy's own handle is its context's, and a cached one was minted for a context of the run: while
      that context lives, in the incarnation it has. */
  ghost predicate Minted(s: State, x: Proxy) {
    && x.handle.ctx == x.ctx
    && (x.importer != 0 ==>
          && (x.imported.ctx in s.ctxs || x.imported.ctx in s.destroyed)
          && (x.imported.ctx in s.ctxs ==>
                IncOf(s, x.imported.ctx).Some? && IncOf(s, x.imported.ctx).value.inc == x.imported.inc))
  }

  ghost predicate AllMinted(s: State) {
    forall p | p in s.proxies :: Minted(s, s.proxies[p])
  }

  /** Sessions that stay keep the isolate they have. */
  ghost predicate IsoStays(s: State, s': State) {
    forall x | x in s.sessions && x in s'.sessions && s.sessions[x].iso.Some? ::
      s'.sessions[x].iso == s.sessions[x].iso
  }

  lemma {:induction false} PutIsoStays(s: State, sid: nat)
    requires sid in s.sessions && s.sessions[sid].refs > 0
    ensures IsoStays(s, SessionPut(s, sid))
  {
  }

  lemma {:induction false} CtxPutIsoStays(s: State, c: nat)
    requires c in s.ctxs && s.ctxs[c].refs > 0 && s.ctxs[c].sid in s.sessions && s.sessions[s.ctxs[c].sid].refs > 0
    ensures IsoStays(s, CtxPut(s, c))
  {
    if s.ctxs[c].refs == 1 {
      PutIsoStays(s.(ctxs := s.ctxs - {c}, destroyed := s.destroyed + [c], names := Closed(s.names, c)), s.ctxs[c].sid);
    }
  }

  lemma {:induction false} OpenIsoStays(s: State, s': State, c: nat, mm: nat, sid: nat, id: nat)
    requires Open(s, s', c, mm, sid, id)
    ensures IsoStays(s, s') && s'.destroyed == s.destroyed && s'.proxies == s.proxies
  {
    var s1, s2 :| Opening(s, s1, s2, mm, sid, id) && s' == s2.(ctxs := s2.ctxs[c := Ctx(sid, 1, true)]);
    GetIsoStays(s, s1, mm, sid);
    EnsureIsoStays(s1, s2, sid, id);
    assert IsoStays(s, s2);
  }

  lemma {:induction false} GetIsoStays(s: State, s1: State, mm: nat, sid: nat)
    requires GetOrCreate(s, s1, mm, sid)
    ensures IsoStays(s, s1) && s1.destroyed == s.destroyed && s1.proxies == s.proxies
    ensures forall x | x in s.sessions :: x in s1.sessions
  {
  }

  lemma {:induction false} EnsureIsoStays(s: State, s1: State, sid: nat, id: nat)
    requires EnsureIsolate(s, s1, sid, id)
    ensures IsoStays(s, s1) && s1.destroyed == s.destroyed && s1.proxies == s.proxies
    ensures forall x | x in s.sessions :: x in s1.sessions
  {
  }

  lemma {:induction false} FailingIsoStays(s: State, s1: State, s2: State, mm: nat, sid: nat, id: nat)
    requires Failing(s, s1, s2, mm, sid, id)
    ensures IsoStays(s, s2) && s2.destroyed == s.destroyed && s2.proxies == s.proxies
    ensures forall x | x in s.sessions :: x in s2.sessions
  {
    GetIsoStays(s, s1, mm, sid);
    if EnsureIsolate(s1, s2, sid, id) {
      EnsureIsoStays(s1, s2, sid, id);
    }
  }

  lemma {:induction false} OpenFailsIsoStays(s: State, s': State, mm: nat, sid: nat, id: nat)
    requires OpenFails(s, s', mm, sid, id)
    ensures IsoStays(s, s') && s'.destroyed == s.destroyed && s'.proxies == s.proxies
  {
    var s1, s2 :| Failing(s, s1, s2, mm, sid, id) && s' == SessionPut(s2, sid);
    FailingIsoStays(s, s1, s2, mm, sid, id);
    PutIsoStays(s2, sid);
    PutRest(s2, sid);
  }

  /** Every context's session is registered, and destroyed contexts are gone. */
  ghost predicate Steady(s: State) {
    Registered(s.sessions, s.ctxs, s.owner) && Destroyed(s.destroyed, s.ctxs)
  }

  /** A context that lives on keeps its incarnation. */
  lemma {:induction false} IncStays(s: State, s': State, c: nat)
    requires Steady(s) && Steady(s') && IsoStays(s, s')
    requires c in s.ctxs && c in s'.ctxs && s'.ctxs[c].sid == s.ctxs[c].sid
    ensures IncOf(s', c) == IncOf(s, c)
  {
  }

  /** What a step does to contexts: those that stay keep their session, those that go are destroyed, and
      no destroyed one comes back. */
  ghost predicate CtxsStep(s: State, s': State) {
    && IsoStays(s, s')
    && (forall c | c in s.ctxs :: (c in s'.ctxs && s'.ctxs[c].sid == s.ctxs[c].sid) || c in s'.destroyed)
    && (forall c | c in s'.ctxs :: c in s.ctxs || c !in s.destroyed)
    && (forall c | c in s.destroyed :: c in s'.destroyed)
  }

  lemma {:induction false} CtxPutStep(s: State, c: nat)
    requires c in s.ctxs && s.ctxs[c].refs > 0 && s.ctxs[c].sid in s.sessions && s.sessions[s.ctxs[c].sid].refs > 0
    ensures CtxsStep(s, CtxPut(s, c)) && CtxPut(s, c).proxies == s.proxies
  {
    CtxPutIsoStays(s, c);
    var s' := CtxPut(s, c);
    if s.ctxs[c].refs == 1 {
      var s1 := s.(ctxs := s.ctxs - {c}, destroyed := s.destroyed + [c], names := Closed(s.names, c));
      PutRest(s1, s.ctxs[c].sid);
      PutKeepsCtxs(s1, s.ctxs[c].sid);
      assert s'.destroyed == s.destroyed + [c] && s'.destroyed[|s.destroyed|] == c;
    }
  }

  lemma {:induction false} OpenStep(s: State, s': State, c: nat, mm: nat, sid: nat, id: nat)
    requires Open(s, s', c, mm, sid, id)
    ensures CtxsStep(s, s') && s'.proxies == s.proxies
  {
    OpenIsoStays(s, s', c, mm, sid, id);
    OpenDestroysNone(s, s', c, mm, sid, id);
  }

  lemma {:induction false} OpenFailsStep(s: State, s': State, mm: nat, sid: nat, id: nat)
    requires OpenFails(s, s', mm, sid, id)
    ensures CtxsStep(s, s') && s'.proxies == s.proxies
  {
    OpenFailsIsoStays(s, s', mm, sid, id);
    OpenFailsDestroysNone(s, s', mm, sid, id);
  }

  lemma {:induction false} CloseStep(s: State, s': State, c: nat)
    requires CloseFile(s, s', c)
    ensures CtxsStep(s, s') && s'.proxies == s.proxies
  {
    CtxPutStep(s.(ctxs := s.ctxs[c := s.ctxs[c].(file := false)]), c);
  }

  lemma {:induction false} FreeStep(s: State, s': State, p: nat)
    requires ProxyFree(s, s', p)
    ensures CtxsStep(s, s') && s'.proxies == s.proxies - {p}
  {
    CtxPutStep(Unproxied(s, p), s.proxies[p].ctx);
  }

  /** A proxy that a step leaves alone stays as it was minted. */
  lemma {:induction false} MintedStays(s: State, s': State, x: Proxy)
    requires Steady(s) && Steady(s') && CtxsStep(s, s') && Minted(s, x)
    ensures Minted(s', x)
  {
    var c := x.imported.ctx;
    if x.importer != 0 && c in s'.ctxs {
      assert Destroyed(s'.destroyed, s'.ctxs);
      IncStays(s, s', c);
    }
  }

  lemma {:induction false} NextMinted(s: State, s': State)
    requires Inv(s) && AllMinted(s) && Next(s, s')
    ensures AllMinted(s')
  {
    NextKeeps(s, s');
    if c, mm, sid, id :| Open(s, s', c, mm, sid, id) {
      OpenStep(s, s', c, mm, sid, id);
      OthersMinted(s, s');
    } else if mm, sid, id :| OpenFails(s, s', mm, sid, id) {
      OpenFailsStep(s, s', mm, sid, id);
      OthersMinted(s, s');
    } else if c :| CloseFile(s, s', c) {
      CloseStep(s, s', c);
      OthersMinted(s, s');
    } else if p :| ProxyFree(s, s', p) {
      FreeStep(s, s', p);
      OthersMinted(s, s');
    } else if p, c, v :| ProxyCreate(s, s', p, c, v) {
      CreateMinted(s, s', p, c, v);
    } else if p, c, gem :| ImportBuffer(s, s', p, c, gem) {
      ImportMinted(s, s', p, c, gem);
    }
  }

  lemma {:induction false} OthersMinted(s: State, s': State)
    requires Steady(s) && Steady(s') && AllMinted(s) && CtxsStep(s, s')
    requires forall p | p in s'.proxies :: p in s.proxies && s'.proxies[p] == s.proxies[p]
    ensures AllMinted(s')
  {
    forall p | p in s'.proxies
      ensures Minted(s', s'.proxies[p])
    {
      MintedStays(s, s', s.proxies[p]);
    }
  }

  lemma {:induction false} CreateMinted(s: State, s': State, p: nat, c: nat, v: nat)
    requires Steady(s) && Steady(s') && AllMinted(s) && ProxyCreate(s, s', p, c, v)
    ensures AllMinted(s')
  {
    assert CtxsStep(s, s');
    forall q | q in s'.proxies
      ensures Minted(s', s'.proxies[q])
    {
      if q != p {
        MintedStays(s, s', s.proxies[q]);
      }
    }
  }

  lemma {:induction false} ImportMinted(s: State, s': State, p: nat, c: nat, gem: nat)
    requires Steady(s) && Steady(s') && AllMinted(s) && ImportBuffer(s, s', p, c, gem)
    ensures AllMinted(s')
  {
    assert CtxsStep(s, s');
    forall q | q in s'.proxies
      ensures Minted(s', s'.proxies[q])
    {
      if q != p {
        MintedStays(s, s', s.proxies[q]);
      } else {
        assert Minted(s, s.proxies[p]);
      }
    }
  }

  lemma {:induction false} RunMinted(run: seq<State>, i: nat)
    requires IsRun(run) && i < |run|
    ensures Reachable(run[i]) && AllMinted(run[i])
  {
    RunKeeps(run, i);
    if i > 0 {
      RunMinted(run, i - 1);
      NextMinted(run[i - 1], run[i]);
    }
  }

  /** In every run: a handle is forwarded on the context whose descriptor it belongs to, exactly unless
      the cache serves it to another context than the one that imported it; on its own context it is
      always valid; and an importer that is still open runs in the caller's isolate. */
  lemma {:induction false} ForwardedOnOwnContext(run: seq<State>, i: nat, p: nat, caller: nat)
    requires IsRun(run) && i < |run| && Resolve(run[i], p, caller).Forward?
    ensures var s := run[i];
            var r, importer := Resolve(s, p, caller), s.proxies[p].imported.ctx;
            && (r.handle.ctx == r.ctx <==> !(CacheHit(s, p, caller) && importer != caller))
            && (r.handle.ctx == r.ctx ==> Valid(s, r))
            && (CacheHit(s, p, caller) && importer in s.ctxs ==> IncOf(s, importer) == IncOf(s, caller))
            && (CacheHit(s, p, caller) ==> importer in s.ctxs || importer in s.destroyed)
  {
    RunMinted(run, i);
    OwnContext(run[i], p, caller);
  }

  lemma {:induction false} OwnContext(s: State, p: nat, caller: nat)
    requires Reachable(s) && AllMinted(s) && Resolve(s, p, caller).Forward?
    ensures var r, importer := Resolve(s, p, caller), s.proxies[p].imported.ctx;
            && (r.handle.ctx == r.ctx <==> !(CacheHit(s, p, caller) && importer != caller))
            && (r.handle.ctx == r.ctx ==> Valid(s, r))
            && (CacheHit(s, p, caller) && importer in s.ctxs ==> IncOf(s, importer) == IncOf(s, caller))
            && (CacheHit(s, p, caller) ==> importer in s.ctxs || importer in s.destroyed)
  {
    var x := s.proxies[p];
    assert Minted(s, x);
    if CacheHit(s, p, caller) {
      var me := IncOf(s, caller).value;
      assert Running(me, s.ctxs[caller].sid, s.live, s.issued, s.killed);
      if x.imported.ctx in s.ctxs {
        var them := IncOf(s, x.imported.ctx).value;
        assert Running(them, s.ctxs[x.imported.ctx].sid, s.live, s.issued, s.killed);
        assert s.issued[them.inc].id == x.importer == me.id;
      }
    }
  }

  // A run in which an isolate id is used again. Process 1 makes a buffer, process 2 imports it and
  // exits, and process 3 gets an isolate with process 2's id.

  function AfterOpen1(): State {
    State(map[1 := Session(1, 1, Some(Iso(1, 0)))], map[1 := Ctx(1, 1, true)], map[], map[1 := 0],
          [], [], map[0 := Issue(1, 1)], map[1 := 1], 1, map[], 0)
  }

  function AfterOpen2(): State {
    AfterOpen1().(sessions := AfterOpen1().sessions[2 := Session(2, 1, Some(Iso(2, 1)))],
                  ctxs := AfterOpen1().ctxs[2 := Ctx(2, 1, true)], live := map[1 := 0, 2 := 1],
                  issued := AfterOpen1().issued[1 := Issue(2, 2)], owner := map[1 := 1, 2 := 2], nextInc := 2)
  }

  function AfterMake(): State {
    AfterOpen2().(proxies := map[1 := Proxy(1, Handle(7, 0, 1), 0, Handle(0, 0, 0), 0)],
                  names := map[(1, 7) := 0], nextBuf := 1, ctxs := AfterOpen2().ctxs[1 := Ctx(1, 2, true)])
  }

  function AfterImport(): State {
    AfterMake().(proxies := map[1 := Proxy(1, Handle(7, 0, 1), 2, Handle(9, 1, 2), 0)],
                 names := map[(1, 7) := 0, (2, 9) := 0])
  }

  function AfterClose(): State {
    AfterImport().(sessions := AfterOpen1().sessions, ctxs := map[1 := Ctx(1, 2, true)], live := map[1 := 0],
                   destroyed := [2], killed := [1], names := map[(1, 7) := 0])
  }

  function AfterOpen3(): State {
    AfterClose().(sessions := AfterClose().sessions[3 := Session(3, 1, Some(Iso(2, 2)))],
                  ctxs := AfterClose().ctxs[3 := Ctx(3, 1, true)], live := map[1 := 0, 2 := 2],
                  issued := AfterClose().issued[2 := Issue(2, 3)], owner := AfterClose().owner[3 := 3], nextInc := 3)
  }

  lemma {:induction false} FirstOpen()
    ensures Next(Start(), AfterOpen1())
  {
    var s1 := Start().(sessions := map[1 := Session(1, 1, None)], owner := map[1 := 1]);
    var s2 := AfterOpen1().(ctxs := map[]);
    assert GetOrCreate(Start(), s1, 1, 1);
    assert EnsureIsolate(s1, s2, 1, 1);
    assert Opening(Start(), s1, s2, 1, 1, 1);
    assert Open(Start(), AfterOpen1(), 1, 1, 1, 1);
  }

  lemma {:induction false} SecondOpen()
    ensures Next(AfterOpen1(), AfterOpen2())
  {
    var s := AfterOpen1();
    var s1 := s.(sessions := s.sessions[2 := Session(2, 1, None)], owner := s.owner[2 := 2]);
    var s2 := AfterOpen2().(ctxs := s.ctxs);
    assert GetOrCreate(s, s1, 2, 2);
    assert EnsureIsolate(s1, s2, 2, 2);
    assert Opening(s, s1, s2, 2, 2, 2);
    assert Open(s, AfterOpen2(), 2, 2, 2, 2);
  }

  function AfterSession3(): State {
    AfterClose().(sessions := AfterClose().sessions[3 := Session(3, 1, None)], owner := AfterClose().owner[3 := 3])
  }

  lemma {:induction false} ThirdSession()
    ensures GetOrCreate(AfterClose(), AfterSession3(), 3, 3)
  {
  }

  lemma {:induction false} ThirdIsolate()
    ensures EnsureIsolate(AfterSession3(), AfterOpen3().(ctxs := AfterClose().ctxs), 3, 2)
  {
  }

  lemma {:induction false} ThirdOpen()
    ensures Next(AfterClose(), AfterOpen3())
  {
    ThirdSession();
    ThirdIsolate();
    assert Opening(AfterClose(), AfterSession3(), AfterOpen3().(ctxs := AfterClose().ctxs), 3, 3, 2);
    assert Open(AfterClose(), AfterOpen3(), 3, 3, 3, 2);
  }

  lemma {:induction false} SecondCloses()
    ensures Next(AfterImport(), AfterClose())
  {
    var s := AfterImport();
    assert s.ctxs[2 := Ctx(2, 1, false)] - {2} == map[1 := Ctx(1, 2, true)];
    var s1 := s.(ctxs := map[1 := Ctx(1, 2, true)], destroyed := [2], names := map[(1, 7) := 0]);
    assert Closed(s.names, 2) == s1.names;
    LastSession(s1);
    assert CloseFile(s, AfterClose(), 2);
  }

  lemma {:induction false} LastSession(s: State)
    requires s == AfterClose().(sessions := AfterOpen2().sessions, live := map[1 := 0, 2 := 1], killed := [])
    ensures SessionPut(s, 2) == AfterClose()
  {
    assert s.sessions - {2} == AfterOpen1().sessions && s.live - {2} == map[1 := 0];
  }

  lemma {:induction false} BufferMade()
    ensures Next(AfterOpen2(), AfterMake())
  {
    assert ProxyCreate(AfterOpen2(), AfterMake(), 1, 1, 7);
  }

  lemma {:induction false} BufferImported()
    ensures Next(AfterMake(), AfterImport())
  {
    assert ImportBuffer(AfterMake(), AfterImport(), 1, 2, 9);
  }

  lemma {:induction false} WrongIsolate()
    ensures Resolve(AfterOpen3(), 1, 3).Forward? && !Valid(AfterOpen3(), Resolve(AfterOpen3(), 1, 3))
  {
  }

  lemma {:induction false} RunGrows(run: seq<State>, s: State, s': State) returns (longer: seq<State>)
    requires IsRun(run) && run[|run| - 1] == s && Next(s, s')
    ensures IsRun(longer) && longer[|longer| - 1] == s'
  {
    longer := run + [s'];
    forall i | 0 < i < |longer|
      ensures Next(longer[i - 1], longer[i])
    {
      if i < |run| {
        assert longer[i - 1] == run[i - 1] && longer[i] == run[i];
      }
    }
  }

  /** A run to a state in which a resolved handle is forwarded to an isolate it was not minted in. */
  lemma {:induction false} ReusedIdExample() returns (run: seq<State>)
    ensures IsRun(run) && Resolve(run[|run| - 1], 1, 3).Forward?
    ensures !Valid(run[|run| - 1], Resolve(run[|run| - 1], 1, 3))
    ensures (3, Resolve(run[|run| - 1], 1, 3).handle.value) !in run[|run| - 1].names
  {
    var prefix := RunToImport();
    SecondCloses();
    prefix := RunGrows(prefix, AfterImport(), AfterClose());
    ThirdOpen();
    run := RunGrows(prefix, AfterClose(), AfterOpen3());
    WrongIsolate();
  }

  lemma {:induction false} RunToImport() returns (run: seq<State>)
    ensures IsRun(run) && run[|run| - 1] == AfterImport()
  {
    run := [Start()];
    FirstOpen();
    run := RunGrows(run, Start(), AfterOpen1());
    SecondOpen();
    run := RunGrows(run, AfterOpen1(), AfterOpen2());
    BufferMade();
    run := RunGrows(run, AfterOpen2(), AfterMake());
    BufferImported();
    run := RunGrows(run, AfterMake(), AfterImport());
  }

  // A run in which the importing process opens the device again: its second file is served the handle
  // that belongs to its first.

  function AfterReopen(): State {
    AfterImport().(sessions := AfterImport().sessions[2 := Session(2, 2, Some(Iso(2, 1)))],
                   ctxs := AfterImport().ctxs[4 := Ctx(2, 1, true)])
  }

  lemma {:induction false} SecondReopens()
    ensures Next(AfterImport(), AfterReopen())
  {
    var s := AfterImport();
    var s1 := AfterReopen().(ctxs := s.ctxs);
    assert GetOrCreate(s, s1, 2, 2);
    assert Opening(s, s1, s1, 2, 2, 2);
    assert Open(s, AfterReopen(), 4, 2, 2, 2);
  }

  lemma {:induction false} SecondFileExample() returns (run: seq<State>)
    ensures IsRun(run) && Resolve(run[|run| - 1], 1, 4).Forward?
    ensures var r := Resolve(run[|run| - 1], 1, 4); r.ctx == 4 && r.handle.ctx == 2 && Valid(run[|run| - 1], r)
    ensures (4, Resolve(run[|run| - 1], 1, 4).handle.value) !in run[|run| - 1].names
  {
    var prefix := RunToImport();
    SecondReopens();
    run := RunGrows(prefix, AfterImport(), AfterReopen());
  }
}

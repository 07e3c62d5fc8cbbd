/** Which processes share an isolate: the contexts opened from one address space, and no others. */
module Isolation {
  import opened Lifetimes
  import opened Options
  import opened Forwarding

  /** Sessions that stay keep the address space they were made for. */
  ghost predicate MmStays(s: State, s': State) {
    forall x | x in s.sessions && x in s'.sessions :: s'.sessions[x].mm == s.sessions[x].mm
  }

  lemma {:induction false} PutMm(s: State, sid: nat)
    requires sid in s.sessions && s.sessions[sid].refs > 0
    ensures MmStays(s, SessionPut(s, sid)) && forall x | x in SessionPut(s, sid).sessions :: x in s.sessions
  {
  }

  lemma {:induction false} GetMm(s: State, s1: State, mm: nat, sid: nat)
    requires GetOrCreate(s, s1, mm, sid)
    ensures MmStays(s, s1) && sid in s1.sessions && s1.sessions[sid].mm == mm
    ensures forall x | x in s.sessions :: x in s1.sessions
  {
  }

  lemma {:induction false} EnsureMm(s: State, s1: State, sid: nat, id: nat)
    requires EnsureIsolate(s, s1, sid, id)
    ensures MmStays(s, s1) && s1.sessions.Keys == s.sessions.Keys
  {
  }

  lemma {:induction false} OpenMm(s: State, s': State, c: nat, mm: nat, sid: nat, id: nat)
    requires Open(s, s', c, mm, sid, id)
    ensures MmStays(s, s') && c in s'.ctxs && s'.ctxs[c].sid == sid
    ensures sid in s'.sessions && s'.sessions[sid].mm == mm
  {
    var s1, s2 :| Opening(s, s1, s2, mm, sid, id) && s' == s2.(ctxs := s2.ctxs[c := Ctx(sid, 1, true)]);
    GetMm(s, s1, mm, sid);
    EnsureMm(s1, s2, sid, id);
  }

  lemma {:induction false} OpenFailsMm(s: State, s': State, mm: nat, sid: nat, id: nat)
    requires OpenFails(s, s', mm, sid, id)
    ensures MmStays(s, s')
  {
    var s1, s2 :| Failing(s, s1, s2, mm, sid, id) && s' == SessionPut(s2, sid);
    GetMm(s, s1, mm, sid);
    if EnsureIsolate(s1, s2, sid, id) {
      EnsureMm(s1, s2, sid, id);
    }
    PutMm(s2, sid);
  }

  lemma {:induction false} CtxPutMm(s: State, c: nat)
    requires c in s.ctxs && s.ctxs[c].refs > 0 && s.ctxs[c].sid in s.sessions && s.sessions[s.ctxs[c].sid].refs > 0
    ensures MmStays(s, CtxPut(s, c))
  {
    if s.ctxs[c].refs == 1 {
      PutMm(s.(ctxs := s.ctxs - {c}, destroyed := s.destroyed + [c], names := Closed(s.names, c)), s.ctxs[c].sid);
    }
  }

  lemma {:induction false} CloseMm(s: State, s': State, c: nat)
    requires CloseFile(s, s', c)
    ensures MmStays(s, s')
  {
    CtxPutMm(s.(ctxs := s.ctxs[c := s.ctxs[c].(file := false)]), c);
  }

  lemma {:induction false} FreeMm(s: State, s': State, p: nat)
    requires ProxyFree(s, s', p)
    ensures MmStays(s, s')
  {
    CtxPutMm(Unproxied(s, p), s.proxies[p].ctx);
  }

  /** Every step: sessions keep their address space, and contexts their session. */
  lemma {:induction false} NextMm(s: State, s': State)
    requires Next(s, s')
    ensures MmStays(s, s')
  {
    if c, mm, sid, id :| Open(s, s', c, mm, sid, id) {
      OpenMm(s, s', c, mm, sid, id);
    } else if mm, sid, id :| OpenFails(s, s', mm, sid, id) {
      OpenFailsMm(s, s', mm, sid, id);
    } else if c :| CloseFile(s, s', c) {
      CloseMm(s, s', c);
    } else if p :| ProxyFree(s, s', p) {
      FreeMm(s, s', p);
    }
  }

  lemma {:induction false} CreateCtxs(s: State, s': State, p: nat, c: nat, v: nat)
    requires ProxyCreate(s, s', p, c, v)
    ensures CtxsStep(s, s')
  {
  }

  lemma {:induction false} ImportCtxs(s: State, s': State, p: nat, c: nat, gem: nat)
    requires ImportBuffer(s, s', p, c, gem)
    ensures CtxsStep(s, s')
  {
  }

  lemma {:induction false} NextCtxs(s: State, s': State)
    requires Next(s, s')
    ensures CtxsStep(s, s')
  {
    if c, mm, sid, id :| Open(s, s', c, mm, sid, id) {
      OpenStep(s, s', c, mm, sid, id);
    } else if mm, sid, id :| OpenFails(s, s', mm, sid, id) {
      OpenFailsStep(s, s', mm, sid, id);
    } else if c :| CloseFile(s, s', c) {
      CloseStep(s, s', c);
    } else if p :| ProxyFree(s, s', p) {
      FreeStep(s, s', p);
    } else if p, c, v :| ProxyCreate(s, s', p, c, v) {
      CreateCtxs(s, s', p, c, v);
    } else if p, c, gem :| ImportBuffer(s, s', p, c, gem) {
      ImportCtxs(s, s', p, c, gem);
    }
  }

  /** The context serves the address space. */
  ghost predicate Serves(s: State, c: nat, mm: nat) {
    c in s.ctxs && s.ctxs[c].sid in s.sessions && s.sessions[s.ctxs[c].sid].mm == mm
  }

  lemma {:induction false} ServesOn(s: State, s': State, c: nat, mm: nat)
    requires Steady(s) && Steady(s') && MmStays(s, s') && CtxsStep(s, s') && (Serves(s, c, mm) || c in s.destroyed)
    ensures Serves(s', c, mm) || c in s'.destroyed
  {
  }

  /** Every step of the run keeps sessions and contexts together. */
  ghost predicate AllStay(run: seq<State>) {
    && (forall i | 0 <= i < |run| :: Steady(run[i]))
    && (forall i | 0 < i < |run| :: MmStays(run[i - 1], run[i]) && CtxsStep(run[i - 1], run[i]))
  }

  lemma {:induction false} RunStays(run: seq<State>)
    requires IsRun(run)
    ensures AllStay(run)
  {
    forall i | 0 <= i < |run|
      ensures Steady(run[i])
    {
      RunKeeps(run, i);
    }
    forall i | 0 < i < |run|
      ensures MmStays(run[i - 1], run[i]) && CtxsStep(run[i - 1], run[i])
    {
      NextMm(run[i - 1], run[i]);
      NextCtxs(run[i - 1], run[i]);
    }
  }

  /** From the open on, the context serves the address space it was opened from, until it is destroyed. */
  lemma {:induction false} RunServes(run: seq<State>, k: nat, i: nat, c: nat, mm: nat)
    requires AllStay(run) && k <= i < |run| && Serves(run[k], c, mm)
    ensures Serves(run[i], c, mm) || c in run[i].destroyed
    decreases i
  {
    if k < i {
      RunServes(run, k, i - 1, c, mm);
      ServesOn(run[i - 1], run[i], c, mm);
    }
  }

  /** Contexts of one session run in its isolate; those of two sessions run in two. */
  lemma {:induction false} SharesExactly(s: State, c: nat, d: nat, mm: nat, mm': nat)
    requires Inv(s) && Serves(s, c, mm) && Serves(s, d, mm')
    ensures IncOf(s, c).Some? && IncOf(s, d).Some?
    ensures IncOf(s, c).value.inc == IncOf(s, d).value.inc <==> mm == mm'
    ensures IncOf(s, c).value.id == IncOf(s, d).value.id <==> mm == mm'
  {
    assert Running(IncOf(s, c).value, s.ctxs[c].sid, s.live, s.issued, s.killed);
    assert Running(IncOf(s, d).value, s.ctxs[d].sid, s.live, s.issued, s.killed);
  }

  /** In every run: two open contexts run in the same isolate exactly when they were opened from the same
      address space. */
  lemma {:induction false} OneIsolatePerProcess(
    run: seq<State>, i: nat, k: nat, c: nat, mm: nat, sid: nat, id: nat, l: nat, d: nat, mm': nat, sid': nat, id': nat)
    requires IsRun(run) && 0 < k <= i < |run| && 0 < l <= i && c in run[i].ctxs && d in run[i].ctxs
    requires Open(run[k - 1], run[k], c, mm, sid, id) && Open(run[l - 1], run[l], d, mm', sid', id')
    ensures IncOf(run[i], c).Some? && IncOf(run[i], d).Some?
    ensures IncOf(run[i], c).value.inc == IncOf(run[i], d).value.inc <==> mm == mm'
    ensures IncOf(run[i], c).value.id == IncOf(run[i], d).value.id <==> mm == mm'
  {
    RunStays(run);
    OpenMm(run[k - 1], run[k], c, mm, sid, id);
    OpenMm(run[l - 1], run[l], d, mm', sid', id');
    RunServes(run, k, i, c, mm);
    RunServes(run, l, i, d, mm');
    RunInv(run, i);
    SharesExactly(run[i], c, d, mm, mm');
  }

  lemma {:induction false} RunInv(run: seq<State>, i: nat)
    requires IsRun(run) && i < |run|
    ensures Inv(run[i]) && forall c | c in run[i].destroyed :: c !in run[i].ctxs
  {
    RunKeeps(run, i);
  }
}

/**
  Open files, sessions, isolates and proxy buffer objects: who keeps whom alive.

  Each system call is one step. Isolate ids are handed out by the host and may be used again after
  an isolate is killed, so every isolate also has an incarnation number that is never reused;
  a buffer handle remembers the incarnation and the context it was minted in.
 */
module Lifetimes {
  import opened Options

  datatype Iso = Iso(id: nat, inc: nat)

  /** One per address space; `refs` is the driver's count. */
  datatype Session = Session(mm: nat, refs: nat, iso: Option<Iso>)

  /** One per open device file; `file` says the file itself is still open. */
  datatype Ctx = Ctx(sid: nat, refs: nat, file: bool)

  /** A buffer handle, with the incarnation and the context whose descriptor it was minted in. */
  datatype Handle = Handle(value: nat, inc: nat, ctx: nat)

  /** A guest stand-in for a buffer in an isolate, with the one-entry cache of its last importer; `buf` is
      the buffer it was made for, which the driver does not see. */
  datatype Proxy = Proxy(ctx: nat, handle: Handle, importer: nat, imported: Handle, buf: nat)

  /** The id an incarnation had and the session it was made for. */
  datatype Issue = Issue(id: nat, sid: nat)

  /** `live` is the host's table of running isolates by id. `destroyed` and `killed` log contexts torn
      down and incarnations killed, `issued` every incarnation made, and `owner` which session an
      address space was last given. `names` is the host's: which buffer a number names in the descriptor
      of a context. */
  datatype State = State(
    sessions: map<nat, Session>, ctxs: map<nat, Ctx>, proxies: map<nat, Proxy>, live: map<nat, nat>,
    destroyed: seq<nat>, killed: seq<nat>, issued: map<nat, Issue>, owner: map<nat, nat>, nextInc: nat,
    names: map<(nat, nat), nat>, nextBuf: nat)

  // ── The driver's operations ────────────────────────────────────────────────

  /** The session of an address space, with one more reference; a new one if there is none. */
  ghost predicate GetOrCreate(s: State, s': State, mm: nat, sid: nat) {
    if sid in s.sessions then
      && s.sessions[sid].mm == mm
      && s' == s.(sessions := s.sessions[sid := s.sessions[sid].(refs := s.sessions[sid].refs + 1)])
    else
      && (forall x | x in s.sessions :: s.sessions[x].mm != mm)
      && s' == s.(sessions := s.sessions[sid := Session(mm, 1, None)], owner := s.owner[mm := sid])
  }

  /** The session's isolate; the host picks any non-zero id no live isolate has. */
  ghost predicate EnsureIsolate(s: State, s': State, sid: nat, id: nat) {
    && sid in s.sessions
    && if s.sessions[sid].iso.Some? then s' == s else
         && id != 0 && id !in s.live
         && s' == s.(sessions := s.sessions[sid := s.sessions[sid].(iso := Some(Iso(id, s.nextInc)))],
                     live := s.live[id := s.nextInc], issued := s.issued[s.nextInc := Issue(id, sid)],
                     nextInc := s.nextInc + 1)
  }

  /** Drops a session reference; the last one unregisters it and kills its isolate. */
  function SessionPut(s: State, sid: nat): State
    requires sid in s.sessions && s.sessions[sid].refs > 0
  {
    var x := s.sessions[sid];
    var last, kill := x.refs == 1, x.refs == 1 && x.iso.Some?;
    s.(sessions := if last then s.sessions - {sid} else s.sessions[sid := x.(refs := x.refs - 1)],
       live := if kill then s.live - {x.iso.value.id} else s.live,
       killed := if kill then s.killed + [x.iso.value.inc] else s.killed)
  }

  /** Closing a context's descriptor: its numbers name nothing any more. */
  function Closed(names: map<(nat, nat), nat>, c: nat): map<(nat, nat), nat> {
    map k | k in names && k.0 != c :: names[k]
  }

  /** Drops a context reference; the last one destroys it. */
  function CtxPut(s: State, c: nat): State
    requires c in s.ctxs && s.ctxs[c].refs > 0 && s.ctxs[c].sid in s.sessions && s.sessions[s.ctxs[c].sid].refs > 0
  {
    var x := s.ctxs[c];
    if x.refs == 1 then
      SessionPut(s.(ctxs := s.ctxs - {c}, destroyed := s.destroyed + [c], names := Closed(s.names, c)), x.sid)
    else
      s.(ctxs := s.ctxs[c := x.(refs := x.refs - 1)])
  }

  ghost predicate Open(s: State, s': State, c: nat, mm: nat, sid: nat, id: nat) {
    && c !in s.ctxs && c !in s.destroyed
    && exists s1, s2 :: Opening(s, s1, s2, mm, sid, id) && s' == s2.(ctxs := s2.ctxs[c := Ctx(sid, 1, true)])
  }

  ghost predicate Opening(s: State, s1: State, s2: State, mm: nat, sid: nat, id: nat) {
    GetOrCreate(s, s1, mm, sid) && EnsureIsolate(s1, s2, sid, id)
  }

  /** The isolate or the host handle could not be had: the session reference is given back. */
  ghost predicate OpenFails(s: State, s': State, mm: nat, sid: nat, id: nat) {
    exists s1, s2 :: Failing(s, s1, s2, mm, sid, id) && s' == SessionPut(s2, sid)
  }

  ghost predicate Failing(s: State, s1: State, s2: State, mm: nat, sid: nat, id: nat) {
    && GetOrCreate(s, s1, mm, sid) && (s2 == s1 || EnsureIsolate(s1, s2, sid, id))
    && sid in s2.sessions && s2.sessions[sid].refs > 0
  }

  ghost predicate CloseFile(s: State, s': State, c: nat) {
    && c in s.ctxs && s.ctxs[c].file && s.ctxs[c].refs > 0
    && s.ctxs[c].sid in s.sessions && s.sessions[s.ctxs[c].sid].refs > 0
    && s' == CtxPut(s.(ctxs := s.ctxs[c := s.ctxs[c].(file := false)]), c)
  }

  /** The incarnation a context's calls run in. */
  function IncOf(s: State, c: nat): Option<Iso>
    requires c in s.ctxs
  {
    if s.ctxs[c].sid in s.sessions then s.sessions[s.ctxs[c].sid].iso else None
  }

  /** The host made a new buffer and numbered it `v` in the context's descriptor. */
  ghost predicate ProxyCreate(s: State, s': State, p: nat, c: nat, v: nat) {
    && p !in s.proxies && c in s.ctxs && s.ctxs[c].file && IncOf(s, c).Some? && (c, v) !in s.names
    && s' == s.(proxies := s.proxies[p := Proxy(c, Handle(v, IncOf(s, c).value.inc, c), 0, Handle(0, 0, 0), s.nextBuf)],
                ctxs := s.ctxs[c := s.ctxs[c].(refs := s.ctxs[c].refs + 1)],
                names := s.names[(c, v) := s.nextBuf], nextBuf := s.nextBuf + 1)
  }

  /** The proxy gone and its number closed in the owner's descriptor. */
  function Unproxied(s: State, p: nat): State
    requires p in s.proxies
  {
    s.(proxies := s.proxies - {p}, names := s.names - {(s.proxies[p].ctx, s.proxies[p].handle.value)})
  }

  /** The close is forwarded on the owner, whose reference is then dropped. */
  ghost predicate ProxyFree(s: State, s': State, p: nat) {
    && p in s.proxies
    && var c := s.proxies[p].ctx;
    && c in s.ctxs && s.ctxs[c].refs > 0 && s.ctxs[c].sid in s.sessions && s.sessions[s.ctxs[c].sid].refs > 0
    && s' == CtxPut(Unproxied(s, p), c)
  }

  datatype Resolved = NoEntry | Forward(handle: Handle, ctx: nat) | Import

  /** Where a buffer operation of context `caller` on proxy `p` goes. */
  function Resolve(s: State, p: nat, caller: nat): Resolved {
    if p !in s.proxies || caller !in s.ctxs || s.proxies[p].ctx !in s.ctxs then NoEntry else
      var x := s.proxies[p];
      var owner, me := IncOf(s, x.ctx), IncOf(s, caller);
      if owner.None? || (me.Some? && owner.value.id == me.value.id) then Forward(x.handle, x.ctx)
      else if me.Some? && x.importer == me.value.id && x.imported.value != 0 then Forward(x.imported, caller)
      else Import
  }

  /** The host looks the owner's number up in the owner's descriptor, numbers that buffer `gem` in the
      caller's, and the proxy caches the number. */
  ghost predicate ImportBuffer(s: State, s': State, p: nat, caller: nat, gem: nat) {
    && Resolve(s, p, caller).Import? && IncOf(s, caller).Some? && gem != 0
    && var me, x := IncOf(s, caller).value, s.proxies[p];
    && (x.ctx, x.handle.value) in s.names
    && var b := s.names[(x.ctx, x.handle.value)];
    && ((caller, gem) in s.names ==> s.names[(caller, gem)] == b)
    && s' == s.(proxies := s.proxies[p := x.(importer := me.id, imported := Handle(gem, me.inc, caller))],
                names := s.names[(caller, gem) := b])
  }

  ghost predicate Next(s: State, s': State) {
    || (exists c, mm, sid, id :: Open(s, s', c, mm, sid, id)) || (exists mm, sid, id :: OpenFails(s, s', mm, sid, id))
    || (exists c :: CloseFile(s, s', c)) || (exists p, c, v :: ProxyCreate(s, s', p, c, v))
    || (exists p :: ProxyFree(s, s', p)) || (exists p, c, gem :: ImportBuffer(s, s', p, c, gem))
  }

  // ── Counting references ────────────────────────────────────────────────────

  function HolderSet(proxies: map<nat, Proxy>, c: nat): set<nat> {
    set p | p in proxies && proxies[p].ctx == c
  }

  function MemberSet(ctxs: map<nat, Ctx>, sid: nat): set<nat> {
    set c | c in ctxs && ctxs[c].sid == sid
  }

  /** How many proxies hold a reference to context `c`. */
  function Holders(proxies: map<nat, Proxy>, c: nat): nat {
    |HolderSet(proxies, c)|
  }

  /** How many contexts hold a reference to session `sid`. */
  function Members(ctxs: map<nat, Ctx>, sid: nat): nat {
    |MemberSet(ctxs, sid)|
  }

  function One(b: bool): nat {
    if b then 1 else 0
  }

  lemma {:induction false} HoldersAdd(proxies: map<nat, Proxy>, p: nat, x: Proxy, c: nat)
    requires p !in proxies
    ensures Holders(proxies[p := x], c) == Holders(proxies, c) + One(x.ctx == c)
  {
    assert HolderSet(proxies[p := x], c) == HolderSet(proxies, c) + if x.ctx == c then {p} else {};
  }

  lemma {:induction false} HoldersDrop(proxies: map<nat, Proxy>, p: nat, c: nat)
    requires p in proxies
    ensures Holders(proxies, c) == Holders(proxies - {p}, c) + One(proxies[p].ctx == c)
  {
    assert HolderSet(proxies, c) == HolderSet(proxies - {p}, c) + if proxies[p].ctx == c then {p} else {};
  }

  lemma {:induction false} HoldersSame(proxies: map<nat, Proxy>, p: nat, x: Proxy, c: nat)
    requires p in proxies && x.ctx == proxies[p].ctx
    ensures Holders(proxies[p := x], c) == Holders(proxies, c)
  {
    assert HolderSet(proxies[p := x], c) == HolderSet(proxies, c);
  }

  lemma {:induction false} HoldersNone(proxies: map<nat, Proxy>, c: nat)
    ensures Holders(proxies, c) == 0 <==> forall p | p in proxies :: proxies[p].ctx != c
  {
    if Holders(proxies, c) == 0 {
      forall p | p in proxies
        ensures proxies[p].ctx != c
      {
        assert p !in HolderSet(proxies, c);
      }
    } else {
      assert HolderSet(proxies, c) != {};
    }
  }

  lemma {:induction false} MembersAdd(ctxs: map<nat, Ctx>, c: nat, x: Ctx, sid: nat)
    requires c !in ctxs
    ensures Members(ctxs[c := x], sid) == Members(ctxs, sid) + One(x.sid == sid)
  {
    assert MemberSet(ctxs[c := x], sid) == MemberSet(ctxs, sid) + if x.sid == sid then {c} else {};
  }

  lemma {:induction false} MembersDrop(ctxs: map<nat, Ctx>, c: nat, sid: nat)
    requires c in ctxs
    ensures Members(ctxs, sid) == Members(ctxs - {c}, sid) + One(ctxs[c].sid == sid)
  {
    assert MemberSet(ctxs, sid) == MemberSet(ctxs - {c}, sid) + if ctxs[c].sid == sid then {c} else {};
  }

  lemma {:induction false} MembersSame(ctxs: map<nat, Ctx>, c: nat, x: Ctx, sid: nat)
    requires c in ctxs && x.sid == ctxs[c].sid
    ensures Members(ctxs[c := x], sid) == Members(ctxs, sid)
  {
    assert MemberSet(ctxs[c := x], sid) == MemberSet(ctxs, sid);
  }

  lemma {:induction false} MembersNone(ctxs: map<nat, Ctx>, sid: nat)
    ensures Members(ctxs, sid) == 0 <==> forall c | c in ctxs :: ctxs[c].sid != sid
  {
    if Members(ctxs, sid) == 0 {
      forall c | c in ctxs
        ensures ctxs[c].sid != sid
      {
        assert c !in MemberSet(ctxs, sid);
      }
    } else {
      assert MemberSet(ctxs, sid) != {};
    }
  }

  // ── The invariant ──────────────────────────────────────────────────────────

  /** A context's count is its file plus its proxies, plus one for a reference about to be dropped. */
  ghost predicate CtxRefs(ctxs: map<nat, Ctx>, proxies: map<nat, Proxy>, dropping: Option<nat>) {
    forall c | c in ctxs ::
      ctxs[c].refs == Holders(proxies, c) + One(ctxs[c].file) + One(dropping == Some(c)) && ctxs[c].refs > 0
  }

  /** A session's count is the number of its contexts, plus one for an open in progress. */
  ghost predicate SessionRefs(sessions: map<nat, Session>, ctxs: map<nat, Ctx>, opening: Option<nat>) {
    forall x | x in sessions :: sessions[x].refs == Members(ctxs, x) + One(opening == Some(x)) && sessions[x].refs > 0
  }

  /** Every context's session is registered and has an isolate; an address space has one session. */
  ghost predicate Registered(sessions: map<nat, Session>, ctxs: map<nat, Ctx>, owner: map<nat, nat>) {
    && (forall c | c in ctxs :: ctxs[c].sid in sessions && sessions[ctxs[c].sid].iso.Some?)
    && (forall x | x in sessions :: sessions[x].mm in owner && owner[sessions[x].mm] == x)
  }

  /** A session's isolate is running, and was made for it; no incarnation was killed twice. */
  ghost predicate Isolates(sessions: map<nat, Session>, live: map<nat, nat>, issued: map<nat, Issue>,
                           killed: seq<nat>, nextInc: nat)
  {
    && (forall x | x in sessions && sessions[x].iso.Some? :: Running(sessions[x].iso.value, x, live, issued, killed))
    && (forall i | i in issued :: i < nextInc) && (forall i | i in killed :: i in issued)
    && (forall i, j | 0 <= i < j < |killed| :: killed[i] != killed[j])
  }

  predicate Running(i: Iso, sid: nat, live: map<nat, nat>, issued: map<nat, Issue>, killed: seq<nat>) {
    && i.id != 0 && i.id in live && live[i.id] == i.inc
    && i.inc in issued && issued[i.inc] == Issue(i.id, sid) && i.inc !in killed
  }

  /** A proxy's owner is alive, and its handle was minted in the owner's isolate; a cached handle was
      minted in an isolate that had the cached id. */
  ghost predicate Proxies(
    proxies: map<nat, Proxy>, ctxs: map<nat, Ctx>, sessions: map<nat, Session>, issued: map<nat, Issue>)
  {
    forall p | p in proxies ::
      && proxies[p].ctx in ctxs && ctxs[proxies[p].ctx].sid in sessions && sessions[ctxs[proxies[p].ctx].sid].iso.Some?
      && proxies[p].handle.inc == sessions[ctxs[proxies[p].ctx].sid].iso.value.inc
      && (proxies[p].importer != 0 ==>
            proxies[p].imported.inc in issued && issued[proxies[p].imported.inc].id == proxies[p].importer)
  }

  ghost predicate Destroyed(destroyed: seq<nat>, ctxs: map<nat, Ctx>) {
    && (forall c | c in destroyed :: c !in ctxs)
    && (forall i, j | 0 <= i < j < |destroyed| :: destroyed[i] != destroyed[j])
  }

  ghost predicate InvBut(s: State, opening: Option<nat>, dropping: Option<nat>) {
    && CtxRefs(s.ctxs, s.proxies, dropping) && SessionRefs(s.sessions, s.ctxs, opening)
    && Registered(s.sessions, s.ctxs, s.owner) && Isolates(s.sessions, s.live, s.issued, s.killed, s.nextInc)
    && Proxies(s.proxies, s.ctxs, s.sessions, s.issued) && Destroyed(s.destroyed, s.ctxs)
  }

  ghost predicate Inv(s: State) {
    InvBut(s, None, None)
  }

  // ── Every step keeps it ────────────────────────────────────────────────────

  /** Everything about sessions that does not count references. */
  ghost predicate Sessions(s: State) {
    && Registered(s.sessions, s.ctxs, s.owner) && Isolates(s.sessions, s.live, s.issued, s.killed, s.nextInc)
    && Proxies(s.proxies, s.ctxs, s.sessions, s.issued)
  }

  lemma {:induction false} RecountSession(s: State, sid: nat, refs: nat)
    requires Sessions(s) && sid in s.sessions
    ensures Sessions(s.(sessions := s.sessions[sid := s.sessions[sid].(refs := refs)]))
  {
  }

  lemma {:induction false} NewSession(s: State, sid: nat, mm: nat)
    requires Sessions(s) && sid !in s.sessions && forall x | x in s.sessions :: s.sessions[x].mm != mm
    ensures Sessions(s.(sessions := s.sessions[sid := Session(mm, 1, None)], owner := s.owner[mm := sid]))
  {
  }

  lemma {:induction false} GetOrCreateKeeps(s: State, s': State, mm: nat, sid: nat)
    requires Inv(s) && GetOrCreate(s, s', mm, sid)
    ensures InvBut(s', Some(sid), None) && sid in s'.sessions
  {
    if sid in s.sessions {
      RecountSession(s, sid, s.sessions[sid].refs + 1);
    } else {
      NewSession(s, sid, mm);
      MembersNone(s.ctxs, sid);
    }
    assert SessionRefs(s'.sessions, s'.ctxs, Some(sid));
  }

  lemma {:induction false} NewIsolate(s: State, s': State, sid: nat, id: nat)
    requires Sessions(s) && EnsureIsolate(s, s', sid, id) && s.sessions[sid].iso.None?
    ensures Sessions(s')
  {
  }

  lemma {:induction false} EnsureKeeps(s: State, s': State, sid: nat, id: nat)
    requires InvBut(s, Some(sid), None) && EnsureIsolate(s, s', sid, id)
    ensures InvBut(s', Some(sid), None) && sid in s'.sessions && s'.sessions[sid].iso.Some?
  {
    if s.sessions[sid].iso.None? {
      NewIsolate(s, s', sid, id);
    }
  }

  lemma {:induction false} DropSession(s: State, sid: nat)
    requires Sessions(s) && sid in s.sessions && s.sessions[sid].refs == 1
    requires forall c | c in s.ctxs :: s.ctxs[c].sid != sid
    ensures var s' := SessionPut(s, sid); Sessions(s')
  {
  }

  lemma {:induction false} SessionPutKeeps(s: State, sid: nat)
    requires InvBut(s, Some(sid), None) && sid in s.sessions
    ensures Inv(SessionPut(s, sid))
  {
    PutSessions(s, sid);
    PutCounts(s, sid);
    PutKeepsCtxs(s, sid);
    PutRest(s, sid);
  }

  lemma {:induction false} PutSessions(s: State, sid: nat)
    requires Sessions(s) && SessionRefs(s.sessions, s.ctxs, Some(sid)) && sid in s.sessions
    ensures s.sessions[sid].refs > 0 && Sessions(SessionPut(s, sid))
  {
    if s.sessions[sid].refs == 1 {
      MembersNone(s.ctxs, sid);
      DropSession(s, sid);
    } else {
      RecountSession(s, sid, s.sessions[sid].refs - 1);
    }
  }

  lemma {:induction false} PutCounts(s: State, sid: nat)
    requires SessionRefs(s.sessions, s.ctxs, Some(sid)) && sid in s.sessions && s.sessions[sid].refs > 0
    ensures SessionRefs(SessionPut(s, sid).sessions, s.ctxs, None)
  {
  }

  lemma {:induction false} AddCtxRefs(s: State, ctxs: map<nat, Ctx>, c: nat, sid: nat)
    requires CtxRefs(s.ctxs, s.proxies, None) && SessionRefs(s.sessions, s.ctxs, Some(sid))
    requires c !in s.ctxs && (forall p | p in s.proxies :: s.proxies[p].ctx in s.ctxs)
    requires ctxs == s.ctxs[c := Ctx(sid, 1, true)]
    ensures CtxRefs(ctxs, s.proxies, None) && SessionRefs(s.sessions, ctxs, None)
  {
    HoldersNone(s.proxies, c);
    forall x | x in s.sessions
      ensures s.sessions[x].refs == Members(ctxs, x)
    {
      MembersAdd(s.ctxs, c, Ctx(sid, 1, true), x);
    }
  }

  lemma {:induction false} AddCtx(s: State, s': State, c: nat, sid: nat)
    requires InvBut(s, Some(sid), None) && sid in s.sessions && s.sessions[sid].iso.Some?
    requires c !in s.ctxs && c !in s.destroyed && s' == s.(ctxs := s.ctxs[c := Ctx(sid, 1, true)])
    ensures Inv(s')
  {
    AddCtxRefs(s, s'.ctxs, c, sid);
    AddCtxSession(s, s', c, sid);
  }

  lemma {:induction false} AddCtxSession(s: State, s': State, c: nat, sid: nat)
    requires Sessions(s) && sid in s.sessions && s.sessions[sid].iso.Some?
    requires c !in s.ctxs && s' == s.(ctxs := s.ctxs[c := Ctx(sid, 1, true)])
    ensures Sessions(s')
  {
  }

  lemma {:induction false} OpenKeeps(s: State, s': State, c: nat, mm: nat, sid: nat, id: nat)
    requires Inv(s) && Open(s, s', c, mm, sid, id)
    ensures Inv(s')
  {
    var s1, s2 :| Opening(s, s1, s2, mm, sid, id) && s' == s2.(ctxs := s2.ctxs[c := Ctx(sid, 1, true)]);
    OpeningKeeps(s, s1, s2, mm, sid, id);
    OpeningFrame(s, s1, s2, mm, sid, id);
    AddCtx(s2, s', c, sid);
  }

  lemma {:induction false} OpeningFrame(s: State, s1: State, s2: State, mm: nat, sid: nat, id: nat)
    requires Opening(s, s1, s2, mm, sid, id)
    ensures s2.ctxs == s.ctxs && s2.destroyed == s.destroyed
  {
    assert s1.ctxs == s.ctxs && s1.destroyed == s.destroyed;
  }

  lemma {:induction false} OpeningKeeps(s: State, s1: State, s2: State, mm: nat, sid: nat, id: nat)
    requires Inv(s) && Opening(s, s1, s2, mm, sid, id)
    ensures InvBut(s2, Some(sid), None) && sid in s2.sessions && s2.sessions[sid].iso.Some?
  {
    GetOrCreateKeeps(s, s1, mm, sid);
    EnsureKeeps(s1, s2, sid, id);
  }

  lemma {:induction false} OpenFailsKeeps(s: State, s': State, mm: nat, sid: nat, id: nat)
    requires Inv(s) && OpenFails(s, s', mm, sid, id)
    ensures Inv(s')
  {
    var s1, s2 :| Failing(s, s1, s2, mm, sid, id) && s' == SessionPut(s2, sid);
    GetOrCreateKeeps(s, s1, mm, sid);
    if EnsureIsolate(s1, s2, sid, id) {
      EnsureKeeps(s1, s2, sid, id);
    }
    SessionPutKeeps(s2, sid);
  }

  /** Dropping a reference that is still counted. */
  lemma {:induction false} CtxPutKeeps(s: State, c: nat)
    requires InvBut(s, None, Some(c)) && c in s.ctxs
    ensures s.ctxs[c].refs > 0 && s.ctxs[c].sid in s.sessions && s.sessions[s.ctxs[c].sid].refs > 0
    ensures Inv(CtxPut(s, c))
  {
    if s.ctxs[c].refs == 1 {
      LastPutKeeps(s, c);
    } else {
      var x := s.ctxs[c].(refs := s.ctxs[c].refs - 1);
      OtherPutKeeps(s, s.(ctxs := s.ctxs[c := x]), c, x);
    }
  }

  lemma {:induction false} LastPutKeeps(s: State, c: nat)
    requires InvBut(s, None, Some(c)) && c in s.ctxs && s.ctxs[c].refs == 1
    requires s.ctxs[c].sid in s.sessions && s.sessions[s.ctxs[c].sid].refs > 0
    ensures Inv(CtxPut(s, c))
  {
    var s1 := s.(ctxs := s.ctxs - {c}, destroyed := s.destroyed + [c], names := Closed(s.names, c));
    DropCtx(s, s1, c);
    SessionPutKeeps(s1, s.ctxs[c].sid);
  }

  lemma {:induction false} OtherPutKeeps(s: State, s': State, c: nat, x: Ctx)
    requires InvBut(s, None, Some(c)) && c in s.ctxs && s.ctxs[c].refs > 1
    requires x == s.ctxs[c].(refs := s.ctxs[c].refs - 1) && s' == s.(ctxs := s.ctxs[c := x])
    ensures Inv(s')
  {
    UpdateCtx(s, s', c, x, Some(c));
    FewerRefs(s.ctxs, s.proxies, c);
  }

  lemma {:induction false} FewerRefs(ctxs: map<nat, Ctx>, proxies: map<nat, Proxy>, c: nat)
    requires CtxRefs(ctxs, proxies, Some(c)) && c in ctxs && ctxs[c].refs > 1
    ensures CtxRefs(ctxs[c := ctxs[c].(refs := ctxs[c].refs - 1)], proxies, None)
  {
  }

  lemma {:induction false} FileGone(ctxs: map<nat, Ctx>, proxies: map<nat, Proxy>, c: nat)
    requires CtxRefs(ctxs, proxies, None) && c in ctxs && ctxs[c].file
    ensures CtxRefs(ctxs[c := ctxs[c].(file := false)], proxies, Some(c))
  {
  }

  /** Changing a context without changing its session. */
  lemma {:induction false} UpdateCtx(s: State, s': State, c: nat, x: Ctx, dropping: Option<nat>)
    requires InvBut(s, None, dropping) && c in s.ctxs && x.sid == s.ctxs[c].sid
    requires s' == s.(ctxs := s.ctxs[c := x], names := s'.names, nextBuf := s'.nextBuf)
    ensures SessionRefs(s'.sessions, s'.ctxs, None) && Sessions(s') && Destroyed(s'.destroyed, s'.ctxs)
  {
    SameMembers(s.sessions, s.ctxs, c, x);
    SameSessions(s, s', c, x);
  }

  lemma {:induction false} SameMembers(sessions: map<nat, Session>, ctxs: map<nat, Ctx>, c: nat, x: Ctx)
    requires SessionRefs(sessions, ctxs, None) && c in ctxs && x.sid == ctxs[c].sid
    ensures SessionRefs(sessions, ctxs[c := x], None)
  {
    forall y | y in sessions
      ensures Members(ctxs[c := x], y) == Members(ctxs, y)
    {
      MembersSame(ctxs, c, x, y);
    }
  }

  lemma {:induction false} SameSessions(s: State, s': State, c: nat, x: Ctx)
    requires Sessions(s) && c in s.ctxs && x.sid == s.ctxs[c].sid
    requires s' == s.(ctxs := s.ctxs[c := x], names := s'.names, nextBuf := s'.nextBuf)
    ensures Sessions(s')
  {
  }

  lemma {:induction false} DropCtxRefs(s: State, c: nat)
    requires CtxRefs(s.ctxs, s.proxies, Some(c)) && SessionRefs(s.sessions, s.ctxs, None)
    requires c in s.ctxs && s.ctxs[c].refs == 1
    ensures CtxRefs(s.ctxs - {c}, s.proxies, None) && SessionRefs(s.sessions, s.ctxs - {c}, Some(s.ctxs[c].sid))
    ensures forall p | p in s.proxies :: s.proxies[p].ctx != c
  {
    HoldersNone(s.proxies, c);
    forall x | x in s.sessions
      ensures s.sessions[x].refs == Members(s.ctxs - {c}, x) + One(s.ctxs[c].sid == x)
    {
      MembersDrop(s.ctxs, c, x);
    }
  }

  lemma {:induction false} DropCtx(s: State, s1: State, c: nat)
    requires InvBut(s, None, Some(c)) && c in s.ctxs && s.ctxs[c].refs == 1
    requires s1 == s.(ctxs := s.ctxs - {c}, destroyed := s.destroyed + [c], names := s1.names)
    ensures InvBut(s1, Some(s.ctxs[c].sid), None) && s.ctxs[c].sid in s1.sessions
  {
    DropCtxRefs(s, c);
    DropSessions(s, s1, c);
  }

  lemma {:induction false} DropSessions(s: State, s1: State, c: nat)
    requires Sessions(s) && Destroyed(s.destroyed, s.ctxs) && c in s.ctxs
    requires forall p | p in s.proxies :: s.proxies[p].ctx != c
    requires s1 == s.(ctxs := s.ctxs - {c}, destroyed := s.destroyed + [c], names := s1.names)
    ensures Sessions(s1) && Destroyed(s1.destroyed, s1.ctxs)
  {
  }

  lemma {:induction false} CloseFileKeeps(s: State, s': State, c: nat)
    requires Inv(s) && CloseFile(s, s', c)
    ensures Inv(s')
  {
    var x := s.ctxs[c].(file := false);
    var s1 := s.(ctxs := s.ctxs[c := x]);
    UpdateCtx(s, s1, c, x, None);
    FileGone(s.ctxs, s.proxies, c);
    CtxPutKeeps(s1, c);
  }

  lemma {:induction false} ProxyCreateKeeps(s: State, s': State, p: nat, c: nat, v: nat)
    requires Inv(s) && ProxyCreate(s, s', p, c, v)
    ensures Inv(s')
  {
    var x := s.ctxs[c].(refs := s.ctxs[c].refs + 1);
    var s1 := s.(ctxs := s.ctxs[c := x], names := s'.names, nextBuf := s'.nextBuf);
    UpdateCtx(s, s1, c, x, None);
    MoreRefs(s.ctxs, s.proxies, p, s'.proxies[p], c);
    NewProxy(s1, s', p, c);
  }

  lemma {:induction false} MoreRefs(ctxs: map<nat, Ctx>, proxies: map<nat, Proxy>, p: nat, x: Proxy, c: nat)
    requires CtxRefs(ctxs, proxies, None) && c in ctxs && p !in proxies && x.ctx == c
    ensures CtxRefs(ctxs[c := ctxs[c].(refs := ctxs[c].refs + 1)], proxies[p := x], None)
  {
    forall y | y in ctxs
      ensures Holders(proxies[p := x], y) == Holders(proxies, y) + One(c == y)
    {
      HoldersAdd(proxies, p, x, y);
    }
  }

  lemma {:induction false} NewProxy(s: State, s': State, p: nat, c: nat)
    requires Sessions(s) && p !in s.proxies && s' == s.(proxies := s'.proxies) && p in s'.proxies
    requires s'.proxies == s.proxies[p := s'.proxies[p]] && c in s.ctxs && IncOf(s, c).Some?
    requires s'.proxies[p].ctx == c && s'.proxies[p].handle.inc == IncOf(s, c).value.inc && s'.proxies[p].importer == 0
    ensures Sessions(s')
  {
  }

  lemma {:induction false} ProxyFreeKeeps(s: State, s': State, p: nat)
    requires Inv(s) && ProxyFree(s, s', p)
    ensures Inv(s')
  {
    var c := s.proxies[p].ctx;
    var s1 := Unproxied(s, p);
    forall x | x in s.ctxs
      ensures Holders(s.proxies, x) == Holders(s1.proxies, x) + One(c == x)
    {
      HoldersDrop(s.proxies, p, x);
    }
    assert InvBut(s1, None, Some(c));
    CtxPutKeeps(s1, c);
  }

  lemma {:induction false} ImportKeeps(s: State, s': State, p: nat, caller: nat, gem: nat)
    requires Inv(s) && ImportBuffer(s, s', p, caller, gem)
    ensures Inv(s')
  {
    forall x | x in s.ctxs
      ensures Holders(s'.proxies, x) == Holders(s.proxies, x)
    {
      HoldersSame(s.proxies, p, s'.proxies[p], x);
    }
  }

  lemma {:induction false} NextKeeps(s: State, s': State)
    requires Inv(s) && Next(s, s')
    ensures Inv(s')
  {
    if c, mm, sid, id :| Open(s, s', c, mm, sid, id) {
      OpenKeeps(s, s', c, mm, sid, id);
    } else if mm, sid, id :| OpenFails(s, s', mm, sid, id) {
      OpenFailsKeeps(s, s', mm, sid, id);
    } else if c :| CloseFile(s, s', c) {
      CloseFileKeeps(s, s', c);
    } else if p, c, v :| ProxyCreate(s, s', p, c, v) {
      ProxyCreateKeeps(s, s', p, c, v);
    } else if p :| ProxyFree(s, s', p) {
      ProxyFreeKeeps(s, s', p);
    } else if p, c, gem :| ImportBuffer(s, s', p, c, gem) {
      ImportKeeps(s, s', p, c, gem);
    }
  }

  /** Incarnation `i`, made as `x` says, is its session's isolate. */
  predicate Serving(sessions: map<nat, Session>, x: Issue, i: nat) {
    x.sid in sessions && sessions[x.sid].iso == Some(Iso(x.id, i))
  }

  /** Every isolate ever made has been killed or still serves the session it was made for. */
  ghost predicate NoneLost(sessions: map<nat, Session>, issued: map<nat, Issue>, killed: seq<nat>) {
    forall i | i in issued :: i in killed || Serving(sessions, issued[i], i)
  }

  lemma {:induction false} GetLosesNone(s: State, s': State, mm: nat, sid: nat)
    requires NoneLost(s.sessions, s.issued, s.killed) && GetOrCreate(s, s', mm, sid)
    ensures NoneLost(s'.sessions, s'.issued, s'.killed)
  {
  }

  lemma {:induction false} EnsureLosesNone(s: State, s': State, sid: nat, id: nat)
    requires NoneLost(s.sessions, s.issued, s.killed) && EnsureIsolate(s, s', sid, id)
    requires forall i | i in s.issued :: i < s.nextInc
    ensures NoneLost(s'.sessions, s'.issued, s'.killed)
  {
  }

  /** The last reference kills the only isolate the session still has. */
  lemma {:induction false} PutLosesNone(s: State, sid: nat)
    requires NoneLost(s.sessions, s.issued, s.killed) && sid in s.sessions && s.sessions[sid].refs > 0
    ensures var s' := SessionPut(s, sid); NoneLost(s'.sessions, s'.issued, s'.killed)
  {
    var s' := SessionPut(s, sid);
    forall i | i in s.issued
      ensures i in s'.killed || Serving(s'.sessions, s.issued[i], i)
    {
      if i in s.killed {
        assert i in s'.killed;
      } else if s.issued[i].sid == sid && s.sessions[sid].refs == 1 {
        assert s'.killed[|s.killed|] == i;
      }
    }
  }

  ghost predicate Numbered(s: State) {
    forall i | i in s.issued :: i < s.nextInc
  }

  lemma {:induction false} OpenLosesNone(s: State, s': State, c: nat, mm: nat, sid: nat, id: nat)
    requires Numbered(s) && NoneLost(s.sessions, s.issued, s.killed) && Open(s, s', c, mm, sid, id)
    ensures NoneLost(s'.sessions, s'.issued, s'.killed)
  {
    var s1, s2 :| Opening(s, s1, s2, mm, sid, id) && s' == s2.(ctxs := s2.ctxs[c := Ctx(sid, 1, true)]);
    GetLosesNone(s, s1, mm, sid);
    EnsureLosesNone(s1, s2, sid, id);
  }

  lemma {:induction false} OpenFailsLosesNone(s: State, s': State, mm: nat, sid: nat, id: nat)
    requires Numbered(s) && NoneLost(s.sessions, s.issued, s.killed) && OpenFails(s, s', mm, sid, id)
    ensures NoneLost(s'.sessions, s'.issued, s'.killed)
  {
    var s1, s2 :| Failing(s, s1, s2, mm, sid, id) && s' == SessionPut(s2, sid);
    GetLosesNone(s, s1, mm, sid);
    if EnsureIsolate(s1, s2, sid, id) {
      EnsureLosesNone(s1, s2, sid, id);
    }
    PutLosesNone(s2, sid);
  }

  lemma {:induction false} CtxPutLosesNone(s: State, c: nat)
    requires NoneLost(s.sessions, s.issued, s.killed)
    requires c in s.ctxs && s.ctxs[c].refs > 0 && s.ctxs[c].sid in s.sessions && s.sessions[s.ctxs[c].sid].refs > 0
    ensures var s' := CtxPut(s, c); NoneLost(s'.sessions, s'.issued, s'.killed)
  {
    if s.ctxs[c].refs == 1 {
      var s1 := s.(ctxs := s.ctxs - {c}, destroyed := s.destroyed + [c], names := Closed(s.names, c));
      PutLosesNone(s1, s.ctxs[c].sid);
    }
  }

  lemma {:induction false} NextLosesNone(s: State, s': State)
    requires Numbered(s) && NoneLost(s.sessions, s.issued, s.killed) && Next(s, s')
    ensures NoneLost(s'.sessions, s'.issued, s'.killed)
  {
    if c, mm, sid, id :| Open(s, s', c, mm, sid, id) {
      OpenLosesNone(s, s', c, mm, sid, id);
    } else if mm, sid, id :| OpenFails(s, s', mm, sid, id) {
      OpenFailsLosesNone(s, s', mm, sid, id);
    } else if c :| CloseFile(s, s', c) {
      CtxPutLosesNone(s.(ctxs := s.ctxs[c := s.ctxs[c].(file := false)]), c);
    } else if p :| ProxyFree(s, s', p) {
      CtxPutLosesNone(Unproxied(s, p), s.proxies[p].ctx);
    }
  }

  /** A context is put for the last time. */
  ghost predicate LastPut(s: State, s': State, c: nat) {
    c in s.ctxs && s.ctxs[c].refs == 1 && s'.destroyed == s.destroyed + [c] && s'.proxies == s.proxies
  }

  lemma {:induction false} PutDestroys(s: State, c: nat, d: nat)
    requires d in s.ctxs && s.ctxs[d].refs > 0 && s.ctxs[d].sid in s.sessions && s.sessions[s.ctxs[d].sid].refs > 0
    requires c in s.ctxs && c !in CtxPut(s, d).ctxs
    ensures c == d && LastPut(s, CtxPut(s, d), c)
  {
    if s.ctxs[d].refs == 1 {
      var s1 := s.(ctxs := s.ctxs - {d}, destroyed := s.destroyed + [d], names := Closed(s.names, d));
      PutKeepsCtxs(s1, s.ctxs[d].sid);
      PutRest(s1, s.ctxs[d].sid);
    }
  }

  lemma {:induction false} PutKeepsCtxs(s: State, sid: nat)
    requires sid in s.sessions && s.sessions[sid].refs > 0
    ensures SessionPut(s, sid).ctxs == s.ctxs
  {
  }

  lemma {:induction false} PutRest(s: State, sid: nat)
    requires sid in s.sessions && s.sessions[sid].refs > 0
    ensures var s' := SessionPut(s, sid); s'.destroyed == s.destroyed && s'.proxies == s.proxies
  {
  }

  lemma {:induction false} FailingKeepsCtxs(s: State, s1: State, s2: State, mm: nat, sid: nat, id: nat)
    requires Failing(s, s1, s2, mm, sid, id)
    ensures s2.ctxs == s.ctxs
  {
    assert s1.ctxs == s.ctxs;
  }

  lemma {:induction false} OpenDestroysNone(s: State, s': State, d: nat, mm: nat, sid: nat, id: nat)
    requires Open(s, s', d, mm, sid, id)
    ensures s'.ctxs == s.ctxs[d := Ctx(sid, 1, true)]
  {
    var s1, s2 :| Opening(s, s1, s2, mm, sid, id) && s' == s2.(ctxs := s2.ctxs[d := Ctx(sid, 1, true)]);
  }

  lemma {:induction false} OpenFailsDestroysNone(s: State, s': State, mm: nat, sid: nat, id: nat)
    requires OpenFails(s, s', mm, sid, id)
    ensures s'.ctxs == s.ctxs
  {
    var s1, s2 :| Failing(s, s1, s2, mm, sid, id) && s' == SessionPut(s2, sid);
    FailingKeepsCtxs(s, s1, s2, mm, sid, id);
    PutKeepsCtxs(s2, sid);
  }

  lemma {:induction false} ClosingDestroys(s: State, s': State, c: nat, d: nat)
    requires CtxRefs(s.ctxs, s.proxies, None) && CloseFile(s, s', d) && c in s.ctxs && c !in s'.ctxs
    ensures s'.destroyed == s.destroyed + [c] && Holders(s'.proxies, c) == 0
    ensures s.ctxs[c].file && Holders(s.proxies, c) == 0
  {
    PutDestroys(s.(ctxs := s.ctxs[d := s.ctxs[d].(file := false)]), c, d);
  }

  lemma {:induction false} FreeingDestroys(s: State, s': State, c: nat, p: nat)
    requires CtxRefs(s.ctxs, s.proxies, None) && ProxyFree(s, s', p) && c in s.ctxs && c !in s'.ctxs
    ensures s'.destroyed == s.destroyed + [c] && Holders(s'.proxies, c) == 0
    ensures !s.ctxs[c].file && Holders(s.proxies, c) == 1
  {
    PutDestroys(Unproxied(s, p), c, s.proxies[p].ctx);
    HoldersDrop(s.proxies, p, c);
  }

  /** A step that takes a context away destroys it, once its file is closed and no proxy is left. */
  lemma {:induction false} DestroyedLast(s: State, s': State, c: nat)
    requires CtxRefs(s.ctxs, s.proxies, None) && Next(s, s') && c in s.ctxs && c !in s'.ctxs
    ensures s'.destroyed == s.destroyed + [c] && Holders(s'.proxies, c) == 0
    ensures Holders(s.proxies, c) == if s.ctxs[c].file then 0 else 1
  {
    if d, mm, sid, id :| Open(s, s', d, mm, sid, id) {
      OpenDestroysNone(s, s', d, mm, sid, id);
    } else if mm, sid, id :| OpenFails(s, s', mm, sid, id) {
      OpenFailsDestroysNone(s, s', mm, sid, id);
    } else if d :| CloseFile(s, s', d) {
      ClosingDestroys(s, s', c, d);
    } else if p :| ProxyFree(s, s', p) {
      FreeingDestroys(s, s', c, p);
    }
  }

  // ── Whole runs ─────────────────────────────────────────────────────────────

  function Start(): State {
    State(map[], map[], map[], map[], [], [], map[], map[], 0, map[], 0)
  }

  ghost predicate IsRun(run: seq<State>) {
    && run != [] && run[0] == Start()
    && forall i | 0 < i < |run| :: Next(run[i - 1], run[i])
  }

  lemma {:induction false} RunKeeps(run: seq<State>, i: nat)
    requires IsRun(run) && i < |run|
    ensures Inv(run[i]) && NoneLost(run[i].sessions, run[i].issued, run[i].killed)
  {
    if i > 0 {
      RunKeeps(run, i - 1);
      NextKeeps(run[i - 1], run[i]);
      NextLosesNone(run[i - 1], run[i]);
    }
  }

  /** In every run: a context in use counts its file and its proxies, and none of its proxies outlives
      it; contexts are destroyed once; a session counts its contexts and is registered exactly while it
      has some, and no two sessions share an address space; an isolate in use is running and was never
      killed, none is killed twice, and every other isolate ever made has been killed. */
  lemma {:induction false} ReferencesAreExact(run: seq<State>, i: nat)
    requires IsRun(run) && i < |run|
    ensures var s := run[i];
            && (forall c | c in s.ctxs ::
                  s.ctxs[c].refs == Holders(s.proxies, c) + One(s.ctxs[c].file) && s.ctxs[c].refs > 0)
            && (forall p | p in s.proxies :: s.proxies[p].ctx in s.ctxs && s.proxies[p].ctx !in s.destroyed)
            && (forall j, k | 0 <= j < k < |s.destroyed| :: s.destroyed[j] != s.destroyed[k])
            && (forall x | x in s.sessions :: s.sessions[x].refs == Members(s.ctxs, x) && s.sessions[x].refs > 0)
            && (forall x, y | x in s.sessions && y in s.sessions && s.sessions[x].mm == s.sessions[y].mm :: x == y)
            && (forall x | x in s.sessions && s.sessions[x].iso.Some? ::
                  Running(s.sessions[x].iso.value, x, s.live, s.issued, s.killed))
            && (forall j, k | 0 <= j < k < |s.killed| :: s.killed[j] != s.killed[k])
            && (forall x: nat :: x in s.sessions <==> Members(s.ctxs, x) > 0)
            && (forall j | j in s.issued :: j in s.killed <==> !Serving(s.sessions, s.issued[j], j))
  {
    RunKeeps(run, i);
    var s := run[i];
    forall x: nat
      ensures x in s.sessions <==> Members(s.ctxs, x) > 0
    {
      MembersNone(s.ctxs, x);
    }
  }
}

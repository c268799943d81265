/** The session cache as a state machine: what each section of engine.Manager under the mutex does to the cache, and
    what every interleaving of them with the opening and closing done outside it keeps. */
module Sessions {
  type Name = string

  /** A session, and the managedSession made for it. */
  type Sid = nat

  datatype Entry = Entry(refs: int, lastUsed: int, doomed: bool)

  /** `sessions` is the cache; `entries` also has the managed sessions only their holders still reach. */
  datatype Cache = Cache(sessions: map<Name, Sid>, entries: map<Sid, Entry>, closed: bool)

  datatype Found = Canceled | Hit(sid: Sid) | Miss

  // ---- The sections under the mutex ----

  predicate Usable(c: Cache, name: Name)
  {
    name in c.sessions && c.sessions[name] in c.entries && !c.entries[c.sessions[name]].doomed
  }

  function Use(c: Cache, sid: Sid, now: int): Cache
    requires sid in c.entries
  {
    c.(entries := c.entries[sid := c.entries[sid].(refs := c.entries[sid].refs + 1, lastUsed := now)])
  }

  /** Acquire, up to the first unlock. */
  function Lookup(c: Cache, name: Name, now: int): (Cache, Found)
  {
    if c.closed then (c, Canceled)
    else if Usable(c, name) then (Use(c, c.sessions[name], now), Hit(c.sessions[name]))
    else (c, Miss)
  }

  /** Acquire, after opening `sid`: Miss means it went into the cache, anything else that it is surplus. */
  function Insert(c: Cache, name: Name, sid: Sid, now: int): (Cache, Found)
  {
    var (c', found) := Lookup(c, name, now);
    if found.Miss?
    then (c'.(sessions := c'.sessions[name := sid], entries := c'.entries[sid := Entry(1, now, false)]), Miss)
    else (c', found)
  }

  /** The release function of a handle on `sid`, the first time; and whether to close the session now. */
  function Release(c: Cache, sid: Sid, now: int): (Cache, bool)
    requires sid in c.entries
  {
    var e := c.entries[sid].(refs := c.entries[sid].refs - 1, lastUsed := now);
    (c.(entries := c.entries[sid := e]), e.doomed && e.refs == 0)
  }

  function Doom(entries: map<Sid, Entry>, sids: set<Sid>): map<Sid, Entry>
  {
    map sid | sid in entries :: if sid in sids then entries[sid].(doomed := true) else entries[sid]
  }

  function Invalidate(c: Cache, name: Name): (Cache, set<Sid>)
  {
    if name in c.sessions
    then (c.(sessions := c.sessions - {name}, entries := Doom(c.entries, {c.sessions[name]})), Idle(c, {c.sessions[name]}))
    else (c, {})
  }

  /** Those of the sessions that nobody holds. */
  function Idle(c: Cache, sids: set<Sid>): set<Sid>
  {
    set sid | sid in sids && sid in c.entries && c.entries[sid].refs == 0
  }

  function CloseAll(c: Cache): (Cache, set<Sid>)
  {
    if c.closed then (c, {})
    else (Cache(map[], Doom(c.entries, c.sessions.Values), true), Idle(c, c.sessions.Values))
  }

  predicate Stale(c: Cache, sid: Sid, now: int, ttl: int)
  {
    sid in c.entries && c.entries[sid].refs == 0 && now - c.entries[sid].lastUsed > ttl
  }

  function EvictIdle(c: Cache, now: int, ttl: int): (Cache, set<Sid>)
  {
    (c.(sessions := map name | name in c.sessions && !Stale(c, c.sessions[name], now, ttl) :: c.sessions[name]),
     set name | name in c.sessions && Stale(c, c.sessions[name], now, ttl) :: c.sessions[name])
  }

  // ---- The whole system ----

  type CallId = nat
  type HandleId = nat

  /** An Acquire between its two sections: connecting, or with its own session in hand. */
  datatype Call = Opening(name: Name) | Opened(name: Name, sid: Sid)

  datatype Handle = Handle(sid: Sid, released: bool)

  /** `due` are the Session.Close calls decided under the mutex and not made yet, `closes` the ones made; `ever` is
      every session ever opened. */
  datatype World = World(cache: Cache, calls: map<CallId, Call>, handles: map<HandleId, Handle>, ever: set<Sid>,
                         due: multiset<Sid>, closes: multiset<Sid>)

  const NEW_MANAGER: World := World(Cache(map[], map[], false), map[], map[], {}, multiset{}, multiset{})

  datatype Step =
    | StartAcquire(call: CallId, name: Name, handle: HandleId, now: int)
    | OpenFails(call: CallId)
    | OpenSucceeds(call: CallId, sid: Sid)
    | FinishAcquire(call: CallId, handle: HandleId, now: int)
    | CallRelease(handle: HandleId, now: int)
    | CallInvalidate(name: Name)
    | CallClose
    | CallEvictIdle(now: int, ttl: int)
    | CloseSession(sid: Sid)

  predicate Enabled(w: World, step: Step)
  {
    match step
    case StartAcquire(call, _, handle, _) => call !in w.calls && handle !in w.handles
    case OpenFails(call) => call in w.calls && w.calls[call].Opening?
    case OpenSucceeds(call, sid) => call in w.calls && w.calls[call].Opening? && sid !in w.ever
    case FinishAcquire(call, handle, _) => call in w.calls && w.calls[call].Opened? && handle !in w.handles
    case CallRelease(handle, _) => handle in w.handles && w.handles[handle].sid in w.cache.entries
    case CallInvalidate(_) => true
    case CallClose => true
    case CallEvictIdle(_, _) => true
    case CloseSession(sid) => sid in w.due
  }

  function Apply(w: World, step: Step): World
    requires Enabled(w, step)
  {
    match step
    case StartAcquire(call, name, handle, now) =>
      var (cache, found) := Lookup(w.cache, name, now);
      match found {
        case Canceled => w
        case Hit(sid) => w.(cache := cache, handles := w.handles[handle := Handle(sid, false)])
        case Miss => w.(calls := w.calls[call := Opening(name)])
      }
    case OpenFails(call) => w.(calls := w.calls - {call})
    case OpenSucceeds(call, sid) => w.(calls := w.calls[call := Opened(w.calls[call].name, sid)], ever := w.ever + {sid})
    case FinishAcquire(call, handle, now) =>
      var own := w.calls[call].sid;
      var (cache, found) := Insert(w.cache, w.calls[call].name, own, now);
      var w' := w.(cache := cache, calls := w.calls - {call});
      match found {
        case Canceled => w'.(due := w.due + multiset{own})
        case Hit(sid) => w'.(due := w.due + multiset{own}, handles := w.handles[handle := Handle(sid, false)])
        case Miss => w'.(handles := w.handles[handle := Handle(own, false)])
      }
    case CallRelease(handle, now) =>
      var sid := w.handles[handle].sid;
      if w.handles[handle].released then w else
      var (cache, closeNow) := Release(w.cache, sid, now);
      w.(cache := cache, handles := w.handles[handle := Handle(sid, true)], due := if closeNow then w.due + multiset{sid} else w.due)
    case CallInvalidate(name) =>
      var (cache, idle) := Invalidate(w.cache, name);
      w.(cache := cache, due := w.due + multiset(idle))
    case CallClose =>
      var (cache, idle) := CloseAll(w.cache);
      w.(cache := cache, due := w.due + multiset(idle))
    case CallEvictIdle(now, ttl) =>
      var (cache, idle) := EvictIdle(w.cache, now, ttl);
      w.(cache := cache, due := w.due + multiset(idle))
    case CloseSession(sid) => w.(due := w.due - multiset{sid}, closes := w.closes + multiset{sid})
  }

  ghost predicate IsRun(w: World, steps: seq<Step>)
    decreases |steps|
  {
    steps == [] || (Enabled(w, steps[0]) && IsRun(Apply(w, steps[0]), steps[1..]))
  }

  ghost function Final(w: World, steps: seq<Step>): World
    requires IsRun(w, steps)
    decreases |steps|
  {
    if steps == [] then w else Final(Apply(w, steps[0]), steps[1..])
  }

  // ---- The invariant ----

  /** The handles on a session that have not been released. */
  function Outstanding(handles: map<HandleId, Handle>, sid: Sid): set<HandleId>
  {
    set h | h in handles && handles[h] == Handle(sid, false)
  }

  predicate Held(w: World, sid: Sid)
  {
    sid in w.cache.entries && w.cache.entries[sid].refs > 0
  }

  /** Another Acquire could still be given it. */
  predicate Obtainable(w: World, sid: Sid)
  {
    sid in w.cache.sessions.Values
  }

  /** An Acquire in flight has opened it and not yet taken it to the cache. */
  ghost predicate InFlight(w: World, sid: Sid)
  {
    exists call :: call in w.calls && w.calls[call] == Opened(w.calls[call].name, sid)
  }

  predicate CacheInv(c: Cache)
  {
    && (forall name :: name in c.sessions ==> c.sessions[name] in c.entries && !c.entries[c.sessions[name]].doomed)
    && (forall a, b :: a in c.sessions && b in c.sessions && c.sessions[a] == c.sessions[b] ==> a == b)
    && (forall sid :: sid in c.entries ==> c.entries[sid].refs >= 0)
    && (forall sid :: sid in c.entries && sid !in c.sessions.Values && c.entries[sid].refs > 0 ==> c.entries[sid].doomed)
    && (c.closed ==> c.sessions == map[])
  }

  /** refs counts the handles out. */
  ghost predicate RefsInv(w: World)
  {
    && (forall sid :: sid in w.cache.entries ==> w.cache.entries[sid].refs == |Outstanding(w.handles, sid)|)
    && (forall h :: h in w.handles ==> w.handles[h].sid in w.cache.entries)
  }

  ghost predicate CallsInv(w: World)
  {
    && (forall call :: call in w.calls && w.calls[call].Opened? ==> w.calls[call].sid in w.ever && w.calls[call].sid !in w.cache.entries)
    && (forall a, b :: a in w.calls && b in w.calls && w.calls[a].Opened? && w.calls[b].Opened? && w.calls[a].sid == w.calls[b].sid ==> a == b)
    && w.cache.entries.Keys <= w.ever
  }

  /** Who is to close a session: nobody while it is in flight, obtainable or held; then exactly one Close is due or made. */
  ghost predicate ClosedOnce(w: World, sid: Sid)
  {
    w.due[sid] + w.closes[sid] == if sid !in w.ever || InFlight(w, sid) || Obtainable(w, sid) || Held(w, sid) then 0 else 1
  }

  ghost predicate OwnersInv(w: World)
  {
    forall sid: Sid :: ClosedOnce(w, sid)
  }

  ghost predicate Inv(w: World)
  {
    CacheInv(w.cache) && RefsInv(w) && CallsInv(w) && OwnersInv(w)
  }

  lemma InvNew()
    ensures Inv(NEW_MANAGER)
  {
  }

  // ---- Sets of handles ----

  lemma HandleAdded(handles: map<HandleId, Handle>, h: HandleId, sid: Sid)
    requires h !in handles
    ensures var handles' := handles[h := Handle(sid, false)];
      |Outstanding(handles', sid)| == |Outstanding(handles, sid)| + 1 &&
      forall s :: s != sid ==> Outstanding(handles', s) == Outstanding(handles, s)
  {
    assert Outstanding(handles[h := Handle(sid, false)], sid) == Outstanding(handles, sid) + {h};
  }

  lemma HandleReleased(handles: map<HandleId, Handle>, h: HandleId)
    requires h in handles && !handles[h].released
    ensures var sid := handles[h].sid; var handles' := handles[h := Handle(sid, true)];
      |Outstanding(handles', sid)| == |Outstanding(handles, sid)| - 1 &&
      forall s :: s != sid ==> Outstanding(handles', s) == Outstanding(handles, s)
  {
    var sid := handles[h].sid;
    assert h in Outstanding(handles, sid);
    assert Outstanding(handles[h := Handle(sid, true)], sid) == Outstanding(handles, sid) - {h};
  }

  // ---- Each step keeps it ----

  lemma UseKeepsCache(c: Cache, sid: Sid, now: int)
    requires CacheInv(c) && sid in c.sessions.Values
    ensures sid in c.entries && CacheInv(Use(c, sid, now))
  {
  }

  /** refs follows the handles when one session's count and handles change together. */
  lemma RefsFollow(w: World, w': World, sid: Sid)
    requires RefsInv(w) && sid in w'.cache.entries
    requires forall s :: s != sid ==> (s in w'.cache.entries <==> s in w.cache.entries)
    requires forall s :: s != sid && s in w.cache.entries ==> w'.cache.entries[s].refs == w.cache.entries[s].refs
    requires forall s :: s != sid ==> Outstanding(w'.handles, s) == Outstanding(w.handles, s)
    requires w'.cache.entries[sid].refs == |Outstanding(w'.handles, sid)|
    requires sid in w.cache.entries || forall h :: h in w.handles ==> w.handles[h].sid != sid
    requires forall h :: h in w'.handles ==> w'.handles[h].sid == sid || (h in w.handles && w'.handles[h] == w.handles[h])
    ensures RefsInv(w')
  {
  }

  /** Handing out one more handle on a cached session. */
  lemma HitKeeps(w: World, name: Name, handle: HandleId, now: int)
    requires Inv(w) && handle !in w.handles && name in w.cache.sessions
    ensures Inv(w.(cache := Use(w.cache, w.cache.sessions[name], now), handles := w.handles[handle := Handle(w.cache.sessions[name], false)]))
  {
    var sid := w.cache.sessions[name];
    var w' := w.(cache := Use(w.cache, sid, now), handles := w.handles[handle := Handle(sid, false)]);
    HandleAdded(w.handles, handle, sid);
    hide Outstanding;
    UseKeepsCache(w.cache, sid, now);
    RefsFollow(w, w', sid);
    forall s: Sid ensures ClosedOnce(w', s) {
      assert ClosedOnce(w, s);
      SameInFlight(w, w', s);
    }
  }

  lemma SameInFlight(w: World, w': World, sid: Sid)
    requires w'.calls == w.calls
    ensures InFlight(w', sid) == InFlight(w, sid)
  {
  }

  lemma OpeningMoves(w: World, w': World, call: CallId)
    requires Inv(w) && w' == w.(calls := w'.calls)
    requires call in w.calls ==> w.calls[call].Opening?
    requires w'.calls - {call} == w.calls - {call}
    requires call in w'.calls ==> w'.calls[call].Opening?
    ensures Inv(w')
  {
    hide CacheInv;
    hide Outstanding;
    assert forall c :: c != call ==> (c in w'.calls <==> c in w'.calls - {call});
    assert forall c :: c != call ==> (c in w.calls <==> c in w.calls - {call});
    assert forall c :: c != call && c in w.calls ==> w.calls[c] == (w.calls - {call})[c];
    assert forall c :: c != call && c in w'.calls ==> w'.calls[c] == (w'.calls - {call})[c];
    forall sid: Sid ensures ClosedOnce(w', sid) {
      assert ClosedOnce(w, sid);
      assert InFlight(w', sid) == InFlight(w, sid);
    }
  }

  lemma OpenSucceedsKeeps(w: World, call: CallId, sid: Sid)
    requires Inv(w) && Enabled(w, OpenSucceeds(call, sid))
    ensures Inv(Apply(w, OpenSucceeds(call, sid)))
  {
    hide CacheInv;
    hide Outstanding;
    var w' := Apply(w, OpenSucceeds(call, sid));
    forall s: Sid ensures ClosedOnce(w', s) {
      assert ClosedOnce(w, s);
      if s == sid {
        assert w'.calls[call] == Opened(w'.calls[call].name, sid);
        assert InFlight(w', sid);
      } else {
        assert InFlight(w', s) == InFlight(w, s) by {
          assert forall c :: c in w'.calls && c != call ==> w'.calls[c] == w.calls[c];
        }
      }
    }
  }

  /** A call that ends takes only its own session out of flight. */
  lemma CallEnds(w: World, w': World, call: CallId)
    requires CallsInv(w) && call in w.calls && w.calls[call].Opened? && w'.calls == w.calls - {call}
    ensures forall s :: s != w.calls[call].sid ==> InFlight(w', s) == InFlight(w, s)
    ensures InFlight(w, w.calls[call].sid) && !InFlight(w', w.calls[call].sid)
  {
    var own := w.calls[call].sid;
    assert w.calls[call] == Opened(w.calls[call].name, own);
    forall s | s != own && InFlight(w, s) ensures InFlight(w', s) {
      var c :| c in w.calls && w.calls[c] == Opened(w.calls[c].name, s);
      assert c in w'.calls && w'.calls[c] == Opened(w'.calls[c].name, s);
    }
    forall s | InFlight(w', s) ensures InFlight(w, s) && s != own {
      var c :| c in w'.calls && w'.calls[c] == Opened(w'.calls[c].name, s);
      assert w.calls[c] == Opened(w.calls[c].name, s);
    }
  }

  /** A surplus session goes to be closed by the call that opened it. */
  lemma SurplusKeeps(w: World, call: CallId)
    requires Inv(w) && call in w.calls && w.calls[call].Opened?
    ensures Inv(w.(calls := w.calls - {call}, due := w.due + multiset{w.calls[call].sid}))
  {
    var own := w.calls[call].sid;
    var w' := w.(calls := w.calls - {call}, due := w.due + multiset{own});
    CallEnds(w, w', call);
    assert own !in w.cache.sessions.Values;
    hide InFlight;
    hide RefsInv;
    forall s: Sid ensures ClosedOnce(w', s) {
      assert ClosedOnce(w, s);
    }
  }

  lemma MissRefs(w: World, w': World, own: Sid, handle: HandleId)
    requires RefsInv(w) && own !in w.cache.entries && handle !in w.handles
    requires own in w'.cache.entries && w'.cache.entries == w.cache.entries[own := w'.cache.entries[own]] && w'.cache.entries[own].refs == 1
    requires w'.handles == w.handles[handle := Handle(own, false)]
    ensures RefsInv(w')
  {
    HandleAdded(w.handles, handle, own);
    assert Outstanding(w.handles, own) == {};
    hide Outstanding;
    RefsFollow(w, w', own);
  }

  lemma MissOwner(w: World, w': World, own: Sid, s: Sid)
    requires ClosedOnce(w, s) && own in w.ever && own !in w.cache.entries
    requires w'.due == w.due && w'.closes == w.closes && w'.ever == w.ever
    requires own in w'.cache.entries && w'.cache.entries == w.cache.entries[own := w'.cache.entries[own]] && w'.cache.entries[own].refs == 1
    requires w'.cache.sessions.Values == w.cache.sessions.Values + {own}
    requires s != own ==> InFlight(w', s) == InFlight(w, s)
    requires InFlight(w, own)
    ensures ClosedOnce(w', s)
  {
  }

  lemma MissKeeps(w: World, call: CallId, handle: HandleId, now: int)
    requires Inv(w) && Enabled(w, FinishAcquire(call, handle, now))
    requires !w.cache.closed && !Usable(w.cache, w.calls[call].name)
    ensures Inv(Apply(w, FinishAcquire(call, handle, now)))
  {
    var w' := Apply(w, FinishAcquire(call, handle, now));
    var own := w.calls[call].sid;
    InsertKeeps(w.cache, w.calls[call].name, own, now);
    hide CacheInv;
    MissRefs(w, w', own, handle);
    hide RefsInv;
    CallEnds(w, w', call);
    OwnCallGone(w, w', call);
    forall s: Sid ensures ClosedOnce(w', s) {
      assert ClosedOnce(w, s);
      MissOwner(w, w', own, s);
    }
  }

  lemma OwnCallGone(w: World, w': World, call: CallId)
    requires CallsInv(w) && call in w.calls && w.calls[call].Opened?
    requires w'.calls == w.calls - {call} && w'.ever == w.ever
    requires w'.cache.entries.Keys == w.cache.entries.Keys + {w.calls[call].sid}
    ensures CallsInv(w')
  {
  }

  lemma InsertKeeps(c: Cache, name: Name, sid: Sid, now: int)
    requires CacheInv(c) && sid !in c.entries && !c.closed && !Usable(c, name)
    ensures CacheInv(Insert(c, name, sid, now).0)
    ensures Insert(c, name, sid, now).0.sessions.Values == c.sessions.Values + {sid}
  {
    var c' := Insert(c, name, sid, now).0;
    assert name !in c.sessions;
    assert c'.sessions[name] == sid;
    assert forall n :: n in c.sessions ==> c'.sessions[n] == c.sessions[n];
  }

  lemma FinishAcquireKeeps(w: World, call: CallId, handle: HandleId, now: int)
    requires Inv(w) && Enabled(w, FinishAcquire(call, handle, now))
    ensures Inv(Apply(w, FinishAcquire(call, handle, now)))
  {
    if w.cache.closed {
      SurplusKeeps(w, call);
    } else if Usable(w.cache, w.calls[call].name) {
      SurplusKeeps(w, call);
      var own := w.calls[call].sid;
      HitKeeps(w.(calls := w.calls - {call}, due := w.due + multiset{own}), w.calls[call].name, handle, now);
    } else {
      MissKeeps(w, call, handle, now);
    }
  }

  lemma ReleaseKeepsCache(c: Cache, sid: Sid, now: int)
    requires CacheInv(c) && sid in c.entries && c.entries[sid].refs > 0
    ensures CacheInv(Release(c, sid, now).0)
  {
  }

  lemma OwnerAfterRelease(w: World, handle: HandleId, now: int, s: Sid)
    requires CacheInv(w.cache) && Enabled(w, CallRelease(handle, now)) && !w.handles[handle].released
    requires w.cache.entries[w.handles[handle].sid].refs > 0 && w.handles[handle].sid in w.ever
    requires ClosedOnce(w, s) && !InFlight(w, w.handles[handle].sid)
    ensures ClosedOnce(Apply(w, CallRelease(handle, now)), s)
  {
  }

  lemma ReleaseKeeps(w: World, handle: HandleId, now: int)
    requires Inv(w) && Enabled(w, CallRelease(handle, now)) && !w.handles[handle].released
    ensures Inv(Apply(w, CallRelease(handle, now)))
  {
    var w' := Apply(w, CallRelease(handle, now));
    var sid := w.handles[handle].sid;
    assert handle in Outstanding(w.handles, sid);
    HandleReleased(w.handles, handle);
    hide Outstanding;
    ReleaseKeepsCache(w.cache, sid, now);
    RefsFollow(w, w', sid);
    SameCalls(w, w');
    hide RefsInv;
    hide CacheInv;
    hide CallsInv;
    forall s: Sid ensures ClosedOnce(w', s) {
      assert ClosedOnce(w, s);
      OwnerAfterRelease(w, handle, now, s);
    }
  }

  lemma SameCalls(w: World, w': World)
    requires CallsInv(w) && w'.calls == w.calls && w'.ever == w.ever && w'.cache.entries.Keys == w.cache.entries.Keys
    ensures CallsInv(w')
    ensures forall sid :: sid in w.cache.entries ==> sid in w.ever && !InFlight(w, sid)
  {
  }

  /** Taking sessions out of the cache: those nobody holds go to be closed now, the others are left to their holders. */
  lemma RetireKeeps(w: World, w': World, idle: set<Sid>)
    requires Inv(w) && w' == w.(cache := w'.cache, due := w.due + multiset(idle))
    requires forall name :: name in w'.cache.sessions ==> name in w.cache.sessions && w'.cache.sessions[name] == w.cache.sessions[name]
    requires w'.cache.entries.Keys == w.cache.entries.Keys
    requires forall sid :: sid in w.cache.entries ==> w'.cache.entries[sid].refs == w.cache.entries[sid].refs
    requires var gone := w.cache.sessions.Values - w'.cache.sessions.Values;
      && idle == Idle(w.cache, gone)
      && forall sid :: sid in w.cache.entries ==>
           (w'.cache.entries[sid].doomed == w.cache.entries[sid].doomed) || (sid in gone && w'.cache.entries[sid].doomed)
    requires forall sid :: sid in w.cache.sessions.Values - w'.cache.sessions.Values && w.cache.entries[sid].refs > 0 ==>
      w'.cache.entries[sid].doomed
    requires w'.cache.closed ==> w'.cache.sessions == map[]
    ensures Inv(w')
  {
    assert w'.cache.sessions.Values <= w.cache.sessions.Values;
    assert forall sid :: multiset(idle)[sid] == if sid in idle then 1 else 0;
    forall s: Sid ensures ClosedOnce(w', s) {
      assert ClosedOnce(w, s);
      SameInFlight(w, w', s);
      if s in idle {
        assert !InFlight(w, s);
      }
    }
  }

  lemma InvalidateKeeps(w: World, name: Name)
    requires Inv(w)
    ensures Inv(Apply(w, CallInvalidate(name)))
  {
    var w' := Apply(w, CallInvalidate(name));
    var idle := Invalidate(w.cache, name).1;
    if name in w.cache.sessions {
      ValuesWithout(w.cache.sessions, name);
    }
    assert CacheInv(w.cache);
    hide Inv;
    RetireKeeps(w, w', idle);
  }

  lemma ValuesWithout(m: map<Name, Sid>, name: Name)
    requires name in m && forall a, b :: a in m && b in m && m[a] == m[b] ==> a == b
    ensures (m - {name}).Values == m.Values - {m[name]}
    ensures m.Values - (m - {name}).Values == {m[name]}
  {
    forall sid | sid in m.Values && sid != m[name] ensures sid in (m - {name}).Values {
      var n :| n in m && m[n] == sid;
      assert (m - {name})[n] == sid;
    }
  }

  lemma CloseAllKeeps(w: World)
    requires Inv(w)
    ensures Inv(Apply(w, CallClose))
  {
    var w' := Apply(w, CallClose);
    if w.cache.closed {
      assert w' == w.(cache := w'.cache, due := w.due + multiset({}));
    }
    assert CacheInv(w.cache);
    hide Inv;
    RetireKeeps(w, w', CloseAll(w.cache).1);
  }

  lemma EvictIdleKeeps(w: World, now: int, ttl: int)
    requires Inv(w)
    ensures Inv(Apply(w, CallEvictIdle(now, ttl)))
  {
    var w' := Apply(w, CallEvictIdle(now, ttl));
    var idle := EvictIdle(w.cache, now, ttl).1;
    EvictedValues(w.cache, now, ttl);
    assert CacheInv(w.cache);
    hide Inv;
    RetireKeeps(w, w', idle);
  }

  lemma EvictedValues(c: Cache, now: int, ttl: int)
    requires CacheInv(c)
    ensures var (c', idle) := EvictIdle(c, now, ttl);
      c.sessions.Values - c'.sessions.Values == idle && Idle(c, idle) == idle
  {
    var (c', idle) := EvictIdle(c, now, ttl);
    forall sid ensures sid in c.sessions.Values - c'.sessions.Values <==> sid in idle {
      if sid in c.sessions.Values {
        var name :| name in c.sessions && c.sessions[name] == sid;
        if !Stale(c, sid, now, ttl) {
          assert c'.sessions[name] == sid;
        }
      }
    }
  }

  lemma CloseSessionKeeps(w: World, sid: Sid)
    requires Inv(w) && sid in w.due
    ensures Inv(Apply(w, CloseSession(sid)))
  {
    var w' := Apply(w, CloseSession(sid));
    hide CacheInv;
    hide Outstanding;
    forall s: Sid ensures ClosedOnce(w', s) {
      assert ClosedOnce(w, s);
      SameInFlight(w, w', s);
    }
  }

  lemma StepKeeps(w: World, step: Step)
    requires Inv(w) && Enabled(w, step)
    ensures Inv(Apply(w, step))
  {
    match step
    case StartAcquire(call, name, handle, now) =>
      assert CacheInv(w.cache);
      hide Inv;
      if !w.cache.closed {
        if Usable(w.cache, name) {
          HitKeeps(w, name, handle, now);
        } else {
          OpeningMoves(w, Apply(w, step), call);
        }
      }
    case OpenFails(call) =>
      hide Inv;
      OpeningMoves(w, Apply(w, step), call);
    case OpenSucceeds(call, sid) => OpenSucceedsKeeps(w, call, sid);
    case FinishAcquire(call, handle, now) => FinishAcquireKeeps(w, call, handle, now);
    case CallRelease(handle, now) =>
      hide Inv;
      if !w.handles[handle].released {
        ReleaseKeeps(w, handle, now);
      }
    case CallInvalidate(name) => InvalidateKeeps(w, name);
    case CallClose => CloseAllKeeps(w);
    case CallEvictIdle(now, ttl) => EvictIdleKeeps(w, now, ttl);
    case CloseSession(sid) => CloseSessionKeeps(w, sid);
  }

  lemma {:induction false} RunKeeps(w: World, steps: seq<Step>)
    requires Inv(w) && IsRun(w, steps)
    ensures Inv(Final(w, steps))
    decreases |steps|
  {
    hide Inv;
    if steps != [] {
      StepKeeps(w, steps[0]);
      RunKeeps(Apply(w, steps[0]), steps[1..]);
    }
  }

  // ---- What the manager promises ----

  /** In every interleaving: refs counts the outstanding handles, and a session is closed at most once, and not before it
      has left the cache and its last holder has let go. */
  lemma ClosedAtMostOnce(steps: seq<Step>)
    requires IsRun(NEW_MANAGER, steps)
    ensures var w := Final(NEW_MANAGER, steps);
      && (forall sid :: sid in w.cache.entries ==> w.cache.entries[sid].refs == |Outstanding(w.handles, sid)|)
      && (forall name :: name in w.cache.sessions ==>
            w.cache.sessions[name] in w.cache.entries && !w.cache.entries[w.cache.sessions[name]].doomed)
      && (forall sid: Sid :: w.closes[sid] + w.due[sid] <= 1)
      && (forall sid: Sid :: Outstanding(w.handles, sid) != {} || Obtainable(w, sid) ==> w.closes[sid] == w.due[sid] == 0)
  {
    InvNew();
    RunKeeps(NEW_MANAGER, steps);
    var w := Final(NEW_MANAGER, steps);
    forall sid: Sid ensures w.closes[sid] + w.due[sid] <= 1 {
      assert ClosedOnce(w, sid);
    }
    forall sid: Sid | Outstanding(w.handles, sid) != {} || Obtainable(w, sid) ensures w.closes[sid] == w.due[sid] == 0 {
      assert ClosedOnce(w, sid);
      if Outstanding(w.handles, sid) != {} {
        var h :| h in Outstanding(w.handles, sid);
        assert Held(w, sid);
      }
    }
  }

  /** Once Close has run, every handle is released, every Acquire has returned and every Close call decided on is made:
      every session ever opened has been closed exactly once. */
  lemma AllClosedInTheEnd(steps: seq<Step>)
    requires IsRun(NEW_MANAGER, steps)
    requires var w := Final(NEW_MANAGER, steps);
      w.cache.closed && w.calls == map[] && w.due == multiset{} && forall h :: h in w.handles ==> w.handles[h].released
    ensures var w := Final(NEW_MANAGER, steps); forall sid: Sid :: w.closes[sid] == if sid in w.ever then 1 else 0
  {
    InvNew();
    RunKeeps(NEW_MANAGER, steps);
    var w := Final(NEW_MANAGER, steps);
    forall sid: Sid ensures w.closes[sid] == if sid in w.ever then 1 else 0 {
      assert ClosedOnce(w, sid);
      assert Outstanding(w.handles, sid) == {};
    }
  }

  function Unreleased(handles: map<HandleId, Handle>): set<HandleId>
  {
    set h | h in handles && !handles[h].released
  }

  /** The manager is closed, all calls have returned, and nothing is left to release or to close. */
  predicate AtTheEnd(w: World)
  {
    w.cache.closed && w.calls == map[] && w.due == multiset{} && Unreleased(w.handles) == {}
  }

  lemma {:induction false} FreshHandle(handles: set<HandleId>) returns (h: HandleId)
    ensures h !in handles && forall x :: x in handles ==> x < h
    decreases |handles|
  {
    if handles == {} {
      h := 0;
    } else {
      var x :| x in handles;
      var y := FreshHandle(handles - {x});
      assert forall z :: z in handles ==> z == x || z in handles - {x};
      h := if y <= x then x + 1 else y;
    }
  }

  /** A call in flight returns, and with the manager closed it hands out nothing. */
  lemma CallReturns(w: World, call: CallId) returns (step: Step)
    requires w.cache.closed && call in w.calls
    ensures Enabled(w, step) && Apply(w, step).cache == w.cache && |Apply(w, step).calls| < |w.calls|
  {
    FewerCalls(w.calls, call);
    if w.calls[call].Opening? {
      step := OpenFails(call);
    } else {
      var handle := FreshHandle(w.handles.Keys);
      step := FinishAcquire(call, handle, 0);
    }
  }

  lemma HandleReturns(w: World, h: HandleId)
    requires RefsInv(w) && w.cache.closed && h in Unreleased(w.handles)
    ensures Enabled(w, CallRelease(h, 0))
    ensures var w' := Apply(w, CallRelease(h, 0));
      w'.cache.closed && w'.calls == w.calls && |Unreleased(w'.handles)| < |Unreleased(w.handles)|
  {
    hide Outstanding;
    assert Unreleased(w.handles) == Unreleased(Apply(w, CallRelease(h, 0)).handles) + {h};
  }

  lemma SessionCloses(w: World, sid: Sid)
    requires w.cache.closed && sid in w.due
    ensures Enabled(w, CloseSession(sid))
    ensures var w' := Apply(w, CloseSession(sid));
      w'.cache.closed && w'.calls == w.calls && w'.handles == w.handles && |w'.due| < |w.due|
  {
    assert w.due == Apply(w, CloseSession(sid)).due + multiset{sid};
  }

  /** The step that brings the end nearer. */
  lemma NextToTheEnd(w: World) returns (step: Step)
    requires Inv(w) && w.cache.closed && !AtTheEnd(w)
    ensures Enabled(w, step) && Apply(w, step).cache.closed
    ensures var w' := Apply(w, step);
      || |w'.calls| < |w.calls|
      || (w'.calls == w.calls && |Unreleased(w'.handles)| < |Unreleased(w.handles)|)
      || (w'.calls == w.calls && w'.handles == w.handles && |w'.due| < |w.due|)
  {
    assert RefsInv(w);
    hide Inv;
    hide RefsInv;
    hide Apply;
    hide Enabled;
    hide Unreleased;
    if w.calls != map[] {
      var call :| call in w.calls;
      step := CallReturns(w, call);
    } else if h :| h in Unreleased(w.handles) {
      step := CallRelease(h, 0);
      HandleReturns(w, h);
    } else {
      var sid :| sid in w.due;
      step := CloseSession(sid);
      SessionCloses(w, sid);
    }
  }

  lemma FewerCalls(calls: map<CallId, Call>, call: CallId)
    requires call in calls
    ensures |calls - {call}| < |calls|
  {
    assert calls.Keys == (calls - {call}).Keys + {call};
    assert |calls| == |calls.Keys| && |calls - {call}| == |(calls - {call}).Keys|;
  }

  lemma {:induction false} ReachesTheEnd(w: World) returns (rest: seq<Step>)
    requires Inv(w) && w.cache.closed
    ensures IsRun(w, rest) && AtTheEnd(Final(w, rest))
    decreases |w.calls|, |Unreleased(w.handles)|, |w.due|
  {
    if AtTheEnd(w) {
      rest := [];
    } else {
      var step := NextToTheEnd(w);
      StepKeeps(w, step);
      hide Inv;
      hide AtTheEnd;
      hide Apply;
      hide Enabled;
      hide Unreleased;
      var more := ReachesTheEnd(Apply(w, step));
      rest := [step] + more;
      assert rest[0] == step && rest[1..] == more;
    }
  }

  lemma ClosedAtTheEnd(w: World)
    requires Inv(w) && AtTheEnd(w)
    ensures forall sid: Sid :: w.closes[sid] == if sid in w.ever then 1 else 0
  {
    forall sid: Sid ensures w.closes[sid] == if sid in w.ever then 1 else 0 {
      assert ClosedOnce(w, sid);
      assert Outstanding(w.handles, sid) <= Unreleased(w.handles);
      assert Outstanding(w.handles, sid) == {};
    }
  }

  /** From wherever a run has got to: close the manager, let the calls return, release the handles and make the Close calls
      that are due, and every session ever opened has been closed exactly once. */
  lemma NothingLeaks(w: World) returns (rest: seq<Step>)
    requires Inv(w)
    ensures IsRun(w, rest) && AtTheEnd(Final(w, rest))
    ensures var w' := Final(w, rest); forall sid: Sid :: w'.closes[sid] == if sid in w'.ever then 1 else 0
  {
    StepKeeps(w, CallClose);
    var closed := Apply(w, CallClose);
    assert closed.cache.closed;
    hide Inv;
    hide AtTheEnd;
    hide Apply;
    var more := ReachesTheEnd(closed);
    rest := [CallClose] + more;
    assert rest[0] == CallClose && rest[1..] == more;
    RunKeeps(w, rest);
    ClosedAtTheEnd(Final(w, rest));
  }

  /** Out of the cache, never to be handed out again. */
  predicate Retired(w: World, sid: Sid)
  {
    sid in w.cache.entries && !Obtainable(w, sid)
  }

  lemma RetiredStays(w: World, step: Step, sid: Sid)
    requires Inv(w) && Enabled(w, step) && Retired(w, sid)
    ensures var w' := Apply(w, step); Retired(w', sid) && Outstanding(w'.handles, sid) <= Outstanding(w.handles, sid)
  {
    hide OwnersInv;
    hide RefsInv;
    var w' := Apply(w, step);
    forall name | name in w'.cache.sessions ensures w'.cache.sessions[name] != sid {
    }
  }

  /** A session that Invalidate, Close or the reaper took out of the cache is never given to a later Acquire. */
  lemma {:induction false} RetiredForever(w: World, steps: seq<Step>, sid: Sid)
    requires Inv(w) && IsRun(w, steps) && Retired(w, sid)
    ensures var w' := Final(w, steps); Retired(w', sid) && Outstanding(w'.handles, sid) <= Outstanding(w.handles, sid)
    decreases |steps|
  {
    hide Inv;
    hide Retired;
    hide Outstanding;
    if steps != [] {
      RetiredStays(w, steps[0], sid);
      StepKeeps(w, steps[0]);
      RetiredForever(Apply(w, steps[0]), steps[1..], sid);
    }
  }

  /** Invalidate retires the session cached under the name and no other, and closes it at once if nobody holds it. */
  lemma InvalidateRetires(w: World, name: Name, sid: Sid)
    requires Inv(w) && Obtainable(w, sid)
    ensures var w' := Apply(w, CallInvalidate(name));
      && (Retired(w', sid) <==> name in w.cache.sessions && w.cache.sessions[name] == sid)
      && w'.due[sid] == w.due[sid] + (if Retired(w', sid) && Outstanding(w.handles, sid) == {} then 1 else 0)
  {
    assert CacheInv(w.cache);
    assert sid in w.cache.entries;
    assert w.cache.entries[sid].refs == |Outstanding(w.handles, sid)|;
    hide Inv;
    hide Outstanding;
    var w' := Apply(w, CallInvalidate(name));
    if name in w.cache.sessions && w.cache.sessions[name] != sid {
      var n :| n in w.cache.sessions && w.cache.sessions[n] == sid;
      assert w'.cache.sessions[n] == sid;
    }
  }

  lemma CloseRetires(w: World, sid: Sid)
    requires Inv(w) && Obtainable(w, sid)
    ensures Retired(Apply(w, CallClose), sid)
  {
  }

  /** The reaper retires exactly the cached sessions with no holder that were last used longer ago than the limit. */
  lemma ReaperRetires(w: World, sid: Sid, now: int, ttl: int)
    requires Inv(w) && Obtainable(w, sid)
    ensures Retired(Apply(w, CallEvictIdle(now, ttl)), sid) <==>
              Outstanding(w.handles, sid) == {} && now - w.cache.entries[sid].lastUsed > ttl
  {
    assert CacheInv(w.cache);
    assert w.cache.entries[sid].refs == |Outstanding(w.handles, sid)|;
    hide Inv;
    hide Outstanding;
    EvictedValues(w.cache, now, ttl);
    assert sid in EvictIdle(w.cache, now, ttl).1 <==> Stale(w.cache, sid, now, ttl);
  }

  // ---- Who asked for what ----

  /** What the steps so far asked for, from their own arguments: the name each call and each handle was asked for under, and
      the name each session was opened for. */
  datatype Asked = Asked(calls: map<CallId, Name>, sessions: map<Sid, Name>, handles: map<HandleId, Name>)

  function AlsoAsked(a: Asked, step: Step): Asked
  {
    match step
    case StartAcquire(call, name, handle, _) => a.(calls := a.calls[call := name], handles := a.handles[handle := name])
    case OpenSucceeds(call, sid) => if call in a.calls then a.(sessions := a.sessions[sid := a.calls[call]]) else a
    case FinishAcquire(call, handle, _) => if call in a.calls then a.(handles := a.handles[handle := a.calls[call]]) else a
    case _ => a
  }

  function AskedIn(steps: seq<Step>): Asked
  {
    if steps == [] then Asked(map[], map[], map[]) else AlsoAsked(AskedIn(steps[..|steps| - 1]), steps[|steps| - 1])
  }

  predicate OpenedFor(a: Asked, sid: Sid, name: Name)
  {
    sid in a.sessions && a.sessions[sid] == name
  }

  /** Every call, cached session and handle goes by the name it was asked for under, and has a session opened for it. */
  ghost predicate NamesInv(a: Asked, w: World)
  {
    && (forall c :: c in w.calls ==> c in a.calls && w.calls[c].name == a.calls[c])
    && (forall c :: c in w.calls && w.calls[c].Opened? ==> OpenedFor(a, w.calls[c].sid, a.calls[c]))
    && (forall name :: name in w.cache.sessions ==> OpenedFor(a, w.cache.sessions[name], name))
    && (forall h :: h in w.handles ==> h in a.handles && OpenedFor(a, w.handles[h].sid, a.handles[h]))
    && a.sessions.Keys <= w.ever
  }

  lemma NamesKept(a: Asked, w: World, step: Step)
    requires Inv(w) && NamesInv(a, w) && Enabled(w, step)
    ensures NamesInv(AlsoAsked(a, step), Apply(w, step))
  {
    match step
    case StartAcquire(call, name, handle, now) => StartNames(a, w, call, name, handle, now);
    case OpenFails(call) => QuietNames(a, w, step);
    case OpenSucceeds(call, sid) => OpenNames(a, w, call, sid);
    case FinishAcquire(call, handle, now) => FinishNames(a, w, call, handle, now);
    case CallRelease(handle, now) => QuietNames(a, w, step);
    case CallInvalidate(name) => QuietNames(a, w, step);
    case CallClose => QuietNames(a, w, step);
    case CallEvictIdle(now, ttl) => QuietNames(a, w, step);
    case CloseSession(sid) => QuietNames(a, w, step);
  }

  /** A step that starts, opens and hands out nothing. */
  lemma QuietNames(a: Asked, w: World, step: Step)
    requires NamesInv(a, w) && Enabled(w, step) && !step.StartAcquire? && !step.OpenSucceeds? && !step.FinishAcquire?
    ensures NamesInv(AlsoAsked(a, step), Apply(w, step))
  {
    OnlyLess(w, step);
    hide Apply;
    hide Enabled;
    hide OpenedFor;
  }

  lemma OnlyLess(w: World, step: Step)
    requires Enabled(w, step) && !step.StartAcquire? && !step.OpenSucceeds? && !step.FinishAcquire?
    ensures var w' := Apply(w, step);
      && (forall c :: c in w'.calls ==> c in w.calls && w'.calls[c] == w.calls[c])
      && (forall name :: name in w'.cache.sessions ==> name in w.cache.sessions && w'.cache.sessions[name] == w.cache.sessions[name])
      && (forall h :: h in w'.handles ==> h in w.handles && w'.handles[h].sid == w.handles[h].sid)
      && w'.ever == w.ever
  {
  }

  lemma StartNames(a: Asked, w: World, call: CallId, name: Name, handle: HandleId, now: int)
    requires NamesInv(a, w) && Enabled(w, StartAcquire(call, name, handle, now))
    ensures NamesInv(AlsoAsked(a, StartAcquire(call, name, handle, now)), Apply(w, StartAcquire(call, name, handle, now)))
  {
  }

  lemma OpenNames(a: Asked, w: World, call: CallId, sid: Sid)
    requires CallsInv(w) && NamesInv(a, w) && Enabled(w, OpenSucceeds(call, sid))
    ensures NamesInv(AlsoAsked(a, OpenSucceeds(call, sid)), Apply(w, OpenSucceeds(call, sid)))
  {
    assert sid !in a.sessions;
  }

  lemma FinishNames(a: Asked, w: World, call: CallId, handle: HandleId, now: int)
    requires NamesInv(a, w) && Enabled(w, FinishAcquire(call, handle, now))
    ensures NamesInv(AlsoAsked(a, FinishAcquire(call, handle, now)), Apply(w, FinishAcquire(call, handle, now)))
  {
    assert w.calls[call].name == a.calls[call];
  }

  lemma {:induction false} NamesOverRun(steps: seq<Step>, w: World, rest: seq<Step>)
    requires Inv(w) && NamesInv(AskedIn(steps), w) && IsRun(w, rest)
    ensures NamesInv(AskedIn(steps + rest), Final(w, rest))
    decreases |rest|
  {
    hide Inv;
    hide NamesInv;
    if rest == [] {
      assert steps + rest == steps;
    } else {
      var more := steps + [rest[0]];
      assert more[..|more| - 1] == steps;
      NamesKept(AskedIn(steps), w, rest[0]);
      StepKeeps(w, rest[0]);
      NamesOverRun(more, Apply(w, rest[0]), rest[1..]);
      assert more + rest[1..] == steps + rest;
    }
  }

  /** After any run, whatever is handed out for a name is a session that was opened for that name, and so is what the cache
      has under it. */
  lemma RightSession(steps: seq<Step>)
    requires IsRun(NEW_MANAGER, steps)
    ensures var (a, w) := (AskedIn(steps), Final(NEW_MANAGER, steps));
      && (forall h :: h in w.handles ==> h in a.handles && OpenedFor(a, w.handles[h].sid, a.handles[h]))
      && (forall name :: name in w.cache.sessions ==> OpenedFor(a, w.cache.sessions[name], name))
      && (forall c :: c in w.calls && w.calls[c].Opened? ==> c in a.calls && OpenedFor(a, w.calls[c].sid, a.calls[c]))
  {
    InvNew();
    NamesOverRun([], NEW_MANAGER, steps);
    assert [] + steps == steps;
    hide Inv;
  }

  /** What an Acquire comes to. While the manager is open: a session cached under the name is handed out at once, without
      opening another; and at the end of its second section a call has the session then cached under its name, its own if it
      was the first. A closed manager hands out nothing. */
  lemma AcquireGetsCached(w: World, step: Step)
    requires Inv(w) && Enabled(w, step)
    ensures step.StartAcquire? && !w.cache.closed && step.name in w.cache.sessions ==>
      var w' := Apply(w, step);
      w'.handles == w.handles[step.handle := Handle(w.cache.sessions[step.name], false)] && w'.calls == w.calls &&
      w'.cache.sessions == w.cache.sessions
    ensures step.StartAcquire? && !w.cache.closed && step.name !in w.cache.sessions ==>
      Apply(w, step) == w.(calls := w.calls[step.call := Opening(step.name)])
    ensures step.FinishAcquire? && !w.cache.closed ==>
      var (w', name, own) := (Apply(w, step), w.calls[step.call].name, w.calls[step.call].sid);
      && w'.calls == w.calls - {step.call} && name in w'.cache.sessions
      && w'.handles == w.handles[step.handle := Handle(w'.cache.sessions[name], false)]
      && w'.cache.sessions[name] == (if name in w.cache.sessions then w.cache.sessions[name] else own)
      && w'.due == (if name in w.cache.sessions then w.due + multiset{own} else w.due)
    ensures w.cache.closed && (step.StartAcquire? || step.FinishAcquire?) ==> Apply(w, step).handles == w.handles
    ensures w.cache.closed && step.FinishAcquire? ==> Apply(w, step).due == w.due + multiset{w.calls[step.call].sid}
  {
    assert CacheInv(w.cache);
    hide Inv;
  }

  /** An Acquire of an open manager can always come to a handle: on the cached session, or on one opened for it. */
  lemma AcquireCanSucceed(w: World, call: CallId, name: Name, handle: HandleId, now: int, sid: Sid) returns (steps: seq<Step>)
    requires Inv(w) && !w.cache.closed && call !in w.calls && handle !in w.handles && sid !in w.ever
    ensures IsRun(w, steps)
    ensures var w' := Final(w, steps);
      && name in w'.cache.sessions && w'.cache.sessions[name] == (if name in w.cache.sessions then w.cache.sessions[name] else sid)
      && w'.handles == w.handles[handle := Handle(w'.cache.sessions[name], false)] && w'.calls == w.calls
  {
    assert CacheInv(w.cache);
    hide Inv;
    var start := StartAcquire(call, name, handle, now);
    if name in w.cache.sessions {
      steps := [start];
      assert steps[1..] == [];
    } else {
      steps := OpensAndFinishes(w, call, name, handle, now, sid);
    }
  }

  lemma OpensAndFinishes(w: World, call: CallId, name: Name, handle: HandleId, now: int, sid: Sid) returns (steps: seq<Step>)
    requires !w.cache.closed && name !in w.cache.sessions && call !in w.calls && handle !in w.handles && sid !in w.ever
    ensures IsRun(w, steps)
    ensures var w' := Final(w, steps);
      && name in w'.cache.sessions && w'.cache.sessions[name] == sid
      && w'.handles == w.handles[handle := Handle(sid, false)] && w'.calls == w.calls
  {
    var (start, opens, finish) := (StartAcquire(call, name, handle, now), OpenSucceeds(call, sid), FinishAcquire(call, handle, now));
    var w1 := w.(calls := w.calls[call := Opening(name)]);
    var w2 := w.(calls := w.calls[call := Opened(name, sid)], ever := w.ever + {sid});
    assert Enabled(w, start) && Apply(w, start) == w1;
    assert Enabled(w1, opens) && Apply(w1, opens) == w2;
    assert Enabled(w2, finish);
    var w3 := Apply(w2, finish);
    assert w3.calls == w.calls && w3.handles == w.handles[handle := Handle(sid, false)];
    assert name in w3.cache.sessions && w3.cache.sessions[name] == sid;
    hide Enabled;
    hide Apply;
    assert [finish][1..] == [] && IsRun(w2, [finish]) && Final(w2, [finish]) == w3;
    assert [opens, finish][1..] == [finish] && IsRun(w1, [opens, finish]) && Final(w1, [opens, finish]) == w3;
    steps := [start, opens, finish];
    assert steps[1..] == [opens, finish];
  }

  // ---- When a session was last used ----

  function TimeOf(step: Step): int
  {
    match step
    case StartAcquire(_, _, _, now) => now
    case FinishAcquire(_, _, now) => now
    case CallRelease(_, now) => now
    case _ => 0
  }

  /** The step changes who holds the session. */
  ghost predicate Uses(w: World, step: Step, sid: Sid)
    requires Enabled(w, step)
  {
    Outstanding(Apply(w, step).handles, sid) != Outstanding(w.handles, sid)
  }

  /** The time of the last step that handed out a session or took it back; `so` is the time before these steps. */
  ghost function LastUse(w: World, steps: seq<Step>, sid: Sid, so: int): int
    requires IsRun(w, steps)
    decreases |steps|
  {
    if steps == [] then so
    else LastUse(Apply(w, steps[0]), steps[1..], sid, if Uses(w, steps[0], sid) then TimeOf(steps[0]) else so)
  }

  lemma UseIsTimed(w: World, step: Step, sid: Sid)
    requires Inv(w) && Enabled(w, step) && sid in Apply(w, step).cache.entries
    ensures if Uses(w, step, sid) then Apply(w, step).cache.entries[sid].lastUsed == TimeOf(step)
            else sid in w.cache.entries && Apply(w, step).cache.entries[sid].lastUsed == w.cache.entries[sid].lastUsed
  {
    match step
    case StartAcquire(call, name, handle, now) => StartIsTimed(w, call, name, handle, now, sid);
    case FinishAcquire(call, handle, now) => FinishIsTimed(w, call, handle, now, sid);
    case CallRelease(handle, now) => ReleaseIsTimed(w, handle, now, sid);
    case _ =>
      hide Inv;
      hide Outstanding;
  }

  lemma StartIsTimed(w: World, call: CallId, name: Name, handle: HandleId, now: int, sid: Sid)
    requires CacheInv(w.cache) && Enabled(w, StartAcquire(call, name, handle, now)) && sid in Apply(w, StartAcquire(call, name, handle, now)).cache.entries
    ensures var (step, w') := (StartAcquire(call, name, handle, now), Apply(w, StartAcquire(call, name, handle, now)));
      if Uses(w, step, sid) then w'.cache.entries[sid].lastUsed == now
      else sid in w.cache.entries && w'.cache.entries[sid].lastUsed == w.cache.entries[sid].lastUsed
  {
    if !w.cache.closed && Usable(w.cache, name) {
      HandleAdded(w.handles, handle, w.cache.sessions[name]);
    }
    hide Outstanding;
  }

  lemma ReleaseIsTimed(w: World, handle: HandleId, now: int, sid: Sid)
    requires Enabled(w, CallRelease(handle, now)) && sid in Apply(w, CallRelease(handle, now)).cache.entries
    ensures var (step, w') := (CallRelease(handle, now), Apply(w, CallRelease(handle, now)));
      if Uses(w, step, sid) then w'.cache.entries[sid].lastUsed == now
      else sid in w.cache.entries && w'.cache.entries[sid].lastUsed == w.cache.entries[sid].lastUsed
  {
    if !w.handles[handle].released {
      HandleReleased(w.handles, handle);
    }
    hide Outstanding;
  }

  lemma FinishIsTimed(w: World, call: CallId, handle: HandleId, now: int, sid: Sid)
    requires Inv(w) && Enabled(w, FinishAcquire(call, handle, now)) && sid in Apply(w, FinishAcquire(call, handle, now)).cache.entries
    ensures var (step, w') := (FinishAcquire(call, handle, now), Apply(w, FinishAcquire(call, handle, now)));
      if Uses(w, step, sid) then w'.cache.entries[sid].lastUsed == now
      else sid in w.cache.entries && w'.cache.entries[sid].lastUsed == w.cache.entries[sid].lastUsed
  {
    hide RefsInv;
    hide CallsInv;
    hide OwnersInv;
    if !w.cache.closed {
      HandleAdded(w.handles, handle, if Usable(w.cache, w.calls[call].name) then w.cache.sessions[w.calls[call].name] else w.calls[call].sid);
    }
    hide Outstanding;
  }

  lemma {:induction false} LastUsedIsLastUse(w: World, steps: seq<Step>, sid: Sid, so: int)
    requires Inv(w) && IsRun(w, steps) && sid in Final(w, steps).cache.entries
    requires sid in w.cache.entries ==> w.cache.entries[sid].lastUsed == so
    ensures Final(w, steps).cache.entries[sid].lastUsed == LastUse(w, steps, sid, so)
    decreases |steps|
  {
    hide Inv;
    hide Uses;
    if steps != [] {
      StepKeeps(w, steps[0]);
      var w' := Apply(w, steps[0]);
      if sid in w'.cache.entries {
        UseIsTimed(w, steps[0], sid);
      }
      LastUsedIsLastUse(w', steps[1..], sid, if Uses(w, steps[0], sid) then TimeOf(steps[0]) else so);
    }
  }

  /** After any run the reaper takes out exactly the cached sessions that nobody holds and that were last handed out or
      taken back longer ago than the limit. */
  lemma ReaperTakesIdle(steps: seq<Step>, sid: Sid, now: int, ttl: int)
    requires IsRun(NEW_MANAGER, steps) && Obtainable(Final(NEW_MANAGER, steps), sid)
    ensures var w := Final(NEW_MANAGER, steps); Retired(Apply(w, CallEvictIdle(now, ttl)), sid) <==>
              Outstanding(w.handles, sid) == {} && now - LastUse(NEW_MANAGER, steps, sid, 0) > ttl
  {
    InvNew();
    RunKeeps(NEW_MANAGER, steps);
    var w := Final(NEW_MANAGER, steps);
    assert CacheInv(w.cache);
    hide Inv;
    hide Retired;
    hide Outstanding;
    ReaperRetires(w, sid, now, ttl);
    LastUsedIsLastUse(NEW_MANAGER, steps, sid, 0);
  }
}

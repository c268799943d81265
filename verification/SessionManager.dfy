/** engine.Manager itself: its fields, and the code that runs between its locks and unlocks. Each section is one step of
    the state machine in Sessions. */
module SessionManager {
  import S = Sessions

  class ManagedSession {
    const sess: S.Sid
    var refs: int
    var lastUsed: int
    var doomed: bool

    constructor (sess: S.Sid, now: int)
      ensures this.sess == sess && Value() == S.Entry(1, now, false)
    {
      this.sess, refs, lastUsed, doomed := sess, 1, now, false;
    }

    function Value(): S.Entry
      reads this
    {
      S.Entry(refs, lastUsed, doomed)
    }
  }

  /** What releaseFunc closes over. */
  class ReleaseFunc {
    const ms: ManagedSession
    var released: bool

    constructor (ms: ManagedSession)
      ensures this.ms == ms && !released
    {
      this.ms, released := ms, false;
    }
  }

  datatype Acquired = Canceled | Found(ms: ManagedSession) | NotFound

  class Manager {
    const idleTTL: int
    var sessions: map<S.Name, ManagedSession>
    var closed: bool
    /** Every managed session ever made, by its session. */
    ghost var all: map<S.Sid, ManagedSession>

    ghost predicate Made(ms: ManagedSession)
      reads `all
    {
      ms.sess in all && all[ms.sess] == ms
    }

    ghost predicate Valid()
      reads this, all.Values
    {
      && (forall sid :: sid in all ==> all[sid].sess == sid)
      && (forall name :: name in sessions ==> sessions[name].sess in all && all[sessions[name].sess] == sessions[name])
    }

    ghost function Cached(): map<S.Name, S.Sid>
      reads this
    {
      map name | name in sessions :: sessions[name].sess
    }

    ghost function Entries(): map<S.Sid, S.Entry>
      reads `all, all.Values
    {
      map sid | sid in all :: all[sid].Value()
    }

    ghost function Value(): S.Cache
      reads this, all.Values
    {
      S.Cache(Cached(), Entries(), closed)
    }

    /** The value, field by field. */
    ghost predicate Is(c: S.Cache)
      reads this, all.Values
    {
      && c.sessions.Keys == sessions.Keys && c.entries.Keys == all.Keys && c.closed == closed
      && (forall sid :: sid in all ==> all[sid].sess == sid && c.entries[sid] == S.Entry(all[sid].refs, all[sid].lastUsed, all[sid].doomed))
      && (forall name :: name in sessions ==>
            c.sessions[name] == sessions[name].sess && sessions[name].sess in all && all[sessions[name].sess] == sessions[name])
    }

    lemma IsValue(c: S.Cache)
      ensures Is(c) <==> Valid() && Value() == c
    {
    }

    constructor (idleTTL: int)
      ensures Valid() && Value() == S.NEW_MANAGER.cache && this.idleTTL == idleTTL
    {
      this.idleTTL := idleTTL;
      sessions, closed, all := map[], false, map[];
    }

    /** Acquire, first section. */
    method Lookup(name: S.Name, now: int) returns (r: Acquired)
      requires Valid()
      modifies all.Values
      ensures Valid() && Value() == S.Lookup(old(Value()), name, now).0
      ensures Same(r, S.Lookup(old(Value()), name, now).1)
      ensures r.Found? ==> r.ms in all.Values
    {
      if closed {
        return Canceled;
      }
      if name in sessions && !sessions[name].doomed {
        var ms := sessions[name];
        ghost var before := Value();
        ms.refs := ms.refs + 1;
        ms.lastUsed := now;
        assert Entries() == S.Use(before, ms.sess, now).entries;
        return Found(ms);
      }
      return NotFound;
    }

    ghost predicate Same(r: Acquired, found: S.Found)
    {
      match r
      case Canceled => found.Canceled?
      case Found(ms) => found == S.Hit(ms.sess)
      case NotFound => found.Miss?
    }

    /** Acquire, second section: the session `sess` has just been opened. NotFound means it is cached now, anything else
        that the caller closes it. */
    method Insert(name: S.Name, sess: S.Sid, now: int) returns (r: Acquired, made: ManagedSession?)
      requires Valid() && sess !in all
      modifies this, all.Values
      ensures Valid() && Value() == S.Insert(old(Value()), name, sess, now).0
      ensures Same(r, S.Insert(old(Value()), name, sess, now).1)
      ensures r.NotFound? <==> made != null
      ensures made != null ==> made.sess == sess
    {
      hide *;
      ghost var before := Value();
      r := Lookup(name, now);
      made := null;
      InsertIs(before, name, sess, now);
      if r.NotFound? {
        MissIs(r, S.Lookup(before, name, now).1);
        AtStart(before);
        ghost var was, wasAll := sessions, all;
        var ms := new ManagedSession(sess, now);
        sessions := sessions[name := ms];
        all := all[sess := ms];
        made := ms;
        Inserted(before, was, wasAll, name, ms);
      } else {
        MissIs(r, S.Lookup(before, name, now).1);
      }
    }

    lemma MissIs(r: Acquired, found: S.Found)
      requires Same(r, found)
      ensures r.NotFound? <==> found.Miss?
    {
    }

    lemma Inserted(before: S.Cache, was: map<S.Name, ManagedSession>, wasAll: map<S.Sid, ManagedSession>, name: S.Name,
                   ms: ManagedSession)
      requires sessions == was[name := ms] && all == wasAll[ms.sess := ms] && ms.sess !in wasAll
      requires before.closed == closed && before.sessions.Keys == was.Keys && before.entries.Keys == wasAll.Keys
      requires forall sid :: sid in wasAll ==> wasAll[sid].sess == sid && before.entries[sid] == wasAll[sid].Value()
      requires forall n :: n in was ==>
        was[n].sess in wasAll && wasAll[was[n].sess] == was[n] && was[n].sess == before.sessions[n]
      ensures Valid() && Value() == S.Cache(before.sessions[name := ms.sess], before.entries[ms.sess := ms.Value()], before.closed)
    {
      IsValue(S.Cache(before.sessions[name := ms.sess], before.entries[ms.sess := ms.Value()], before.closed));
    }

    /** The function releaseFunc returns, up to the unlock; closeNow says whether it goes on to close the session. */
    method Release(f: ReleaseFunc, now: int) returns (closeNow: bool)
      requires Valid() && f.ms in all.Values
      modifies f, f.ms
      ensures Valid() && f.released
      ensures old(f.released) ==> !closeNow && Value() == old(Value())
      ensures !old(f.released) ==> (Value(), closeNow) == S.Release(old(Value()), f.ms.sess, now)
    {
      if f.released {
        return false;
      }
      f.released := true;
      ghost var before := Value();
      var ms := f.ms;
      ms.refs := ms.refs - 1;
      ms.lastUsed := now;
      closeNow := ms.doomed && ms.refs == 0;
      assert Entries() == S.Release(before, ms.sess, now).0.entries;
    }

    /** The lines Invalidate and Close share: out of the cache, doomed, and whether to close it at once. */
    method Retire(name: S.Name) returns (ms: ManagedSession, idle: bool)
      requires Valid() && name in sessions
      modifies `sessions, all.Values
      ensures Valid() && Value() == S.Invalidate(old(Value()), name).0
      ensures S.Invalidate(old(Value()), name).1 == (if idle then {ms.sess} else {})
      ensures sessions.Keys == Value().sessions.Keys && |sessions.Keys| < |old(sessions.Keys)|
      ensures ms.sess == old(Value()).sessions[name]
    {
      ghost var before := Value();
      AtStart(before);
      hide *;
      ghost var was := sessions;
      ms := sessions[name];
      Fewer(sessions, name);
      sessions := sessions - {name};
      ms.doomed := true;
      idle := ms.refs == 0;
      Retired(before, was, name, ms);
    }

    lemma Retired(before: S.Cache, was: map<S.Name, ManagedSession>, name: S.Name, ms: ManagedSession)
      requires name in was && ms == was[name] && ms.doomed && sessions == was - {name}
      requires before.closed == closed && before.sessions.Keys == was.Keys && before.entries.Keys == all.Keys
      requires forall n :: n in was ==> was[n].sess in all && all[was[n].sess] == was[n] && was[n].sess == before.sessions[n]
      requires forall sid :: sid in all ==> all[sid].sess == sid
      requires forall sid :: sid in all && all[sid] != ms ==> before.entries[sid] == all[sid].Value()
      requires before.entries[ms.sess].(doomed := true) == S.Entry(ms.refs, ms.lastUsed, true)
      ensures Valid() && Value() == S.Invalidate(before, name).0 && sessions.Keys == Value().sessions.Keys
      ensures S.Invalidate(before, name).1 == if ms.refs == 0 then {ms.sess} else {}
    {
      IsValue(S.Invalidate(before, name).0);
      assert S.Idle(before, {ms.sess}) == if ms.refs == 0 then {ms.sess} else {};
    }

    /** Invalidate; idle is the session to close after the unlock, if any. */
    method Invalidate(name: S.Name) returns (idle: set<S.Sid>)
      requires Valid()
      modifies `sessions, all.Values
      ensures Valid() && (Value(), idle) == S.Invalidate(old(Value()), name)
    {
      idle := {};
      if name in sessions {
        var ms, now := Retire(name);
        if now {
          idle := {ms.sess};
        }
      }
    }

    /** Close; toClose are the sessions to close after the unlock. */
    method Close() returns (toClose: seq<S.Sid>)
      requires Valid() && S.CacheInv(Value())
      modifies `sessions, `closed, all.Values
      ensures Valid() && Value() == S.CloseAll(old(Value())).0
      ensures multiset(toClose) == multiset(S.CloseAll(old(Value())).1)
    {
      ghost var before := Value();
      hide *;
      toClose := [];
      RestOf(before);
      if closed {
        AlreadyClosed(before);
        return;
      }
      closed := true;
      ghost var gone: set<S.Name> := {};
      ClosingStart(before);
      ValueFrom(before);
      while sessions.Keys != {}
        invariant Valid() && Value() == Closing(before, gone) && sessions.Keys == Value().sessions.Keys
        invariant Lists(toClose, S.Idle(before, Sids(before, gone)))
        decreases |sessions.Keys|
      {
        var name :| name in sessions.Keys;
        ClosingStep(before, gone, name, toClose);
        var ms, idle := Retire(name);
        if idle {
          toClose := toClose + [ms.sess];
        }
        gone := gone + {name};
      }
      ClosingEnd(before, gone);
      ListsBag(toClose, S.CloseAll(before).1);
    }

    /** All of the value but `closed`. */
    ghost predicate Rest(c: S.Cache)
      reads `sessions, `all, all.Values
    {
      && c.sessions.Keys == sessions.Keys && c.entries == Entries()
      && (forall sid :: sid in all ==> all[sid].sess == sid)
      && (forall name :: name in sessions ==>
            sessions[name].sess in all && all[sessions[name].sess] == sessions[name] && sessions[name].sess == c.sessions[name])
    }

    lemma RestOf(c: S.Cache)
      requires Valid() && Value() == c
      ensures Rest(c) && closed == c.closed
    {
    }

    lemma ValueFrom(c: S.Cache)
      requires Rest(c)
      ensures Valid() && Value() == c.(closed := closed) && sessions.Keys == Value().sessions.Keys
    {
    }

    lemma AtStart(before: S.Cache)
      requires Valid() && Value() == before
      ensures before.closed == closed && before.sessions.Keys == sessions.Keys && before.entries == Entries()
      ensures before.entries.Keys == all.Keys && forall sid :: sid in all ==> all[sid].sess == sid && before.entries[sid] == all[sid].Value()
      ensures forall sid :: sid in all ==> all[sid].Value() == S.Entry(all[sid].refs, all[sid].lastUsed, all[sid].doomed)
      ensures forall name :: name in sessions ==>
        sessions[name].sess in all && all[sessions[name].sess] == sessions[name]
      ensures forall name :: name in sessions ==>
        Made(sessions[name]) && sessions[name].sess == before.sessions[name] &&
        sessions[name].sess in before.entries && before.entries[sessions[name].sess] == sessions[name].Value()
      ensures Lists([], Sids(before, {}))
    {
    }

    /** evictIdle; toClose are the sessions to close after the unlock. */
    method EvictIdle(now: int) returns (toClose: seq<S.Sid>)
      requires Valid() && S.CacheInv(Value())
      modifies `sessions
      ensures Valid() && Value() == S.EvictIdle(old(Value()), now, idleTTL).0
      ensures multiset(toClose) == multiset(S.EvictIdle(old(Value()), now, idleTTL).1)
    {
      ghost var before := Value();
      hide *;
      toClose := [];
      AtStart(before);
      SiftedStart(before, sessions, now, idleTTL);
      ghost var was := sessions;
      ghost var gone: set<S.Name> := {};
      var todo := sessions.Keys;
      while todo != {}
        invariant Sifted(before, was, sessions, todo, gone, now, idleTTL)
        invariant Lists(toClose, Sids(before, gone))
        decreases |todo|
      {
        var name :| name in todo;
        SiftedStep(before, was, sessions, todo, gone, name, now, idleTTL);
        todo := todo - {name};
        var ms := sessions[name];
        StaleIs(before, ms, now, idleTTL);
        if ms.refs == 0 && now - ms.lastUsed > idleTTL {
          SidsMore(before, gone, name);
          SidsNext(before, gone, name, toClose);
          sessions := sessions - {name};
          toClose := toClose + [ms.sess];
          gone := gone + {name};
        }
      }
      SiftedEnd(before, was, sessions, todo, gone, now, idleTTL);
      EvictIdleIs(before, gone, now, idleTTL);
      ListsBag(toClose, S.EvictIdle(before, now, idleTTL).1);
      Evicted(before, was, gone, now);
    }

    lemma Evicted(before: S.Cache, was: map<S.Name, ManagedSession>, gone: set<S.Name>, now: int)
      requires sessions == was - gone && closed == before.closed && was.Keys == before.sessions.Keys
      requires forall name :: name in was ==> was[name].sess == before.sessions[name] && Made(was[name])
      requires before.entries == Entries() && forall sid :: sid in all ==> all[sid].sess == sid
      requires S.EvictIdle(before, now, idleTTL).0 == before.(sessions := before.sessions - gone)
      ensures Valid() && Value() == S.EvictIdle(before, now, idleTTL).0
    {
    }
  }

  /** `gone` are the names taken out so far: the stale ones among those looked at. */
  ghost predicate Sifted<V>(c: S.Cache, was: map<S.Name, V>, left: map<S.Name, V>, todo: set<S.Name>, gone: set<S.Name>,
                            now: int, ttl: int)
    requires was.Keys == c.sessions.Keys
  {
    && left == was - gone && gone <= was.Keys - todo && todo <= was.Keys
    && forall name :: name in was && name !in todo ==> (name in gone <==> S.Stale(c, c.sessions[name], now, ttl))
  }

  lemma SiftedStart<V>(c: S.Cache, was: map<S.Name, V>, now: int, ttl: int)
    requires was.Keys == c.sessions.Keys
    ensures Sifted(c, was, was, was.Keys, {}, now, ttl)
  {
  }

  lemma SiftedStep<V>(c: S.Cache, was: map<S.Name, V>, left: map<S.Name, V>, todo: set<S.Name>, gone: set<S.Name>,
                      name: S.Name, now: int, ttl: int)
    requires was.Keys == c.sessions.Keys && Sifted(c, was, left, todo, gone, now, ttl) && name in todo
    ensures name in was && name in left && left[name] == was[name] && name !in gone
    ensures if S.Stale(c, c.sessions[name], now, ttl) then Sifted(c, was, left - {name}, todo - {name}, gone + {name}, now, ttl)
            else Sifted(c, was, left, todo - {name}, gone, now, ttl)
  {
  }

  lemma SiftedEnd<V>(c: S.Cache, was: map<S.Name, V>, left: map<S.Name, V>, todo: set<S.Name>, gone: set<S.Name>,
                     now: int, ttl: int)
    requires was.Keys == c.sessions.Keys && Sifted(c, was, left, todo, gone, now, ttl) && todo == {}
    ensures left == was - gone && gone <= c.sessions.Keys
    ensures forall name :: name in c.sessions ==> (name in gone <==> S.Stale(c, c.sessions[name], now, ttl))
  {
  }

  lemma Fewer<V>(m: map<S.Name, V>, name: S.Name)
    requires name in m
    ensures |(m - {name}).Keys| < |m.Keys|
  {
  }

  /** The list has each of these sessions once. */
  ghost predicate Lists(bag: seq<S.Sid>, sids: set<S.Sid>)
  {
    multiset(bag) == multiset(sids)
  }

  lemma ListsBag(bag: seq<S.Sid>, sids: set<S.Sid>)
    requires Lists(bag, sids)
    ensures multiset(bag) == multiset(sids)
  {
  }

  /** The sessions cached under these names. */
  function Sids(c: S.Cache, names: set<S.Name>): set<S.Sid>
  {
    set name | name in names && name in c.sessions :: c.sessions[name]
  }

  lemma SidsMore(c: S.Cache, names: set<S.Name>, name: S.Name)
    requires S.CacheInv(c) && name in c.sessions && name !in names
    ensures Sids(c, names + {name}) == Sids(c, names) + {c.sessions[name]} && c.sessions[name] !in Sids(c, names)
    ensures c.sessions[name] in c.entries
  {
  }

  lemma SidsAll(c: S.Cache, names: set<S.Name>)
    requires c.sessions.Keys <= names
    ensures Sids(c, names) == c.sessions.Values
  {
  }

  lemma AlreadyClosed(c: S.Cache)
    requires c.closed
    ensures S.CloseAll(c) == (c, {})
  {
  }

  lemma InsertIs(c: S.Cache, name: S.Name, sess: S.Sid, now: int)
    ensures S.Insert(c, name, sess, now).1 == S.Lookup(c, name, now).1
    ensures S.Lookup(c, name, now).1.Miss? ==> S.Lookup(c, name, now).0 == c
    ensures S.Lookup(c, name, now).1.Miss? ==>
      S.Insert(c, name, sess, now).0 == S.Cache(c.sessions[name := sess], c.entries[sess := S.Entry(1, now, false)], c.closed)
    ensures !S.Lookup(c, name, now).1.Miss? ==> S.Insert(c, name, sess, now).0 == S.Lookup(c, name, now).0
  {
  }

  lemma StaleIs(c: S.Cache, ms: ManagedSession, now: int, ttl: int)
    requires ms.sess in c.entries && c.entries[ms.sess] == ms.Value()
    ensures S.Stale(c, ms.sess, now, ttl) <==> ms.refs == 0 && now - ms.lastUsed > ttl
  {
  }

  lemma EvictIdleIs(c: S.Cache, gone: set<S.Name>, now: int, ttl: int)
    requires gone <= c.sessions.Keys
    requires forall name :: name in c.sessions ==> (name in gone <==> S.Stale(c, c.sessions[name], now, ttl))
    ensures S.EvictIdle(c, now, ttl) == (c.(sessions := c.sessions - gone), Sids(c, gone))
  {
    var (c', idle) := S.EvictIdle(c, now, ttl);
    assert c'.sessions == c.sessions - gone;
    assert idle == Sids(c, gone);
  }

  /** The cache when Close has got through these names. */
  function Closing(c: S.Cache, gone: set<S.Name>): S.Cache
  {
    S.Cache(c.sessions - gone, S.Doom(c.entries, Sids(c, gone)), true)
  }

  lemma ClosingStart(c: S.Cache)
    ensures !c.closed ==> Closing(c, {}) == c.(closed := true)
    ensures Lists([], S.Idle(c, Sids(c, {})))
  {
  }

  lemma ClosingStep(c: S.Cache, gone: set<S.Name>, name: S.Name, bag: seq<S.Sid>)
    requires S.CacheInv(c) && name in Closing(c, gone).sessions && Lists(bag, S.Idle(c, Sids(c, gone)))
    ensures name in c.sessions && Closing(c, gone).sessions[name] == c.sessions[name]
    ensures S.Invalidate(Closing(c, gone), name).0 == Closing(c, gone + {name})
    ensures var idle := S.Invalidate(Closing(c, gone), name).1;
      idle <= {c.sessions[name]} &&
      Lists(if idle == {} then bag else bag + [c.sessions[name]], S.Idle(c, Sids(c, gone + {name})))
  {
    SidsMore(c, gone, name);
    hide S.CacheInv;
    IdleNext(c, Sids(c, gone), c.sessions[name], bag);
    ClosingMore(c, gone, name);
    ClosingIdle(c, gone, c.sessions[name]);
    hide Sids;
    hide S.Idle;
    hide S.Doom;
  }

  lemma ClosingMore(c: S.Cache, gone: set<S.Name>, name: S.Name)
    requires name in c.sessions && Sids(c, gone + {name}) == Sids(c, gone) + {c.sessions[name]}
    ensures var c' := Closing(c, gone);
      Closing(c, gone + {name}) == S.Cache(c'.sessions - {name}, S.Doom(c'.entries, {c.sessions[name]}), true)
  {
  }

  lemma ClosingIdle(c: S.Cache, gone: set<S.Name>, sid: S.Sid)
    requires sid in c.entries
    ensures S.Idle(Closing(c, gone), {sid}) == if c.entries[sid].refs == 0 then {sid} else {}
  {
  }

  lemma ClosingEnd(c: S.Cache, gone: set<S.Name>)
    requires Closing(c, gone).sessions.Keys == {} && !c.closed
    ensures (Closing(c, gone), S.Idle(c, Sids(c, gone))) == S.CloseAll(c)
  {
    assert forall name :: name in c.sessions && name !in gone ==> name in Closing(c, gone).sessions.Keys;
    SidsAll(c, gone);
    assert Closing(c, gone).sessions == map[];
  }

  lemma SidsNext(c: S.Cache, names: set<S.Name>, name: S.Name, bag: seq<S.Sid>)
    requires S.CacheInv(c) && name in c.sessions && name !in names && Lists(bag, Sids(c, names))
    ensures Lists(bag + [c.sessions[name]], Sids(c, names + {name}))
  {
  }

  lemma IdleNext(c: S.Cache, done: set<S.Sid>, sid: S.Sid, bag: seq<S.Sid>)
    requires sid in c.entries && sid !in done && Lists(bag, S.Idle(c, done))
    ensures Lists(if c.entries[sid].refs == 0 then bag + [sid] else bag, S.Idle(c, done + {sid}))
  {
  }
}

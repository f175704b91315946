/**
 * The session cache: chat history per session, kept in Redis when a connection could be
 * made and otherwise in a process-local map, with a one-way switch to the map after the
 * first Redis failure and at most one connection attempt per process.
 *
 * Redis is an abstract list store whose calls may fail; each method is told whether its
 * Redis calls succeed.
 */
module Cache {
  import opened Wrappers
  import opened Js

  const MissingSessionId: string := "cacheAppendMessage requires sessionId"

  /** `session:${sessionId}:history` */
  function KeyForSession(id: string): (k: string)
    ensures |k| == |id| + 16
  {
    "session:" + id + ":history"
  }

  /** The Redis key names its session: different printed ids never share a list. */
  lemma KeyForSessionInjective(a: string, b: string)
    requires KeyForSession(a) == KeyForSession(b)
    ensures a == b
  {
    assert a == KeyForSession(a)[8..|a| + 8];
    assert b == KeyForSession(b)[8..|b| + 8];
  }

  /** `memoryStore.get(id) || []` */
  function History(store: map<Json, seq<Json>>, id: Json): seq<Json>
  {
    if id in store then store[id] else []
  }

  /** Get, push, set: the message goes to the end of that session's list. */
  function Push(store: map<Json, seq<Json>>, id: Json, msg: Json): (r: map<Json, seq<Json>>)
    ensures r.Keys == store.Keys + {id}
    ensures History(r, id) == History(store, id) + [msg]
    ensures forall other :: other != id ==> History(r, other) == History(store, other)
  {
    store[id := History(store, id) + [msg]]
  }

  /** `memoryStore.delete(id)` */
  function Delete(store: map<Json, seq<Json>>, id: Json): (r: map<Json, seq<Json>>)
    ensures r.Keys == store.Keys - {id}
    ensures History(r, id) == []
    ensures forall other :: other != id ==> History(r, other) == History(store, other)
  {
    store - {id}
  }

  /** The Redis list under a key (`lRange(key, 0, -1)` of a missing key is empty). */
  function RedisList(redis: map<string, seq<Json>>, key: string): seq<Json>
  {
    if key in redis then redis[key] else []
  }

  class SessionCache {
    /** `client !== null` */
    var client: bool
    var useMemory: bool
    var triedRedis: bool
    var memoryStore: map<Json, seq<Json>>
    /** The lists the Redis server holds, by key. */
    var redis: map<string, seq<Json>>
    /** Connection attempts made so far. */
    ghost var attempts: nat

    /** A client exists only after an attempt, and at most one attempt is ever made. */
    ghost predicate Valid()
      reads this
    {
      (client ==> triedRedis) && attempts == (if triedRedis then 1 else 0)
    }

    /** The module as loaded: no client, no flags set, an empty map, and whatever the
        Redis server already holds. */
    constructor (server: map<string, seq<Json>>)
      ensures Valid()
      ensures !client && !useMemory && !triedRedis && memoryStore == map[] && redis == server
    {
      client := false;
      useMemory := false;
      triedRedis := false;
      memoryStore := map[];
      redis := server;
      attempts := 0;
    }

    /** Redis is in use: not switched to memory and a client exists. */
    predicate OnRedis()
      reads this
    {
      !useMemory && client
    }

    /** `tryConnectRedis()`: skipped once memory is in use or an attempt was made;
        otherwise the one attempt, which on failure switches to memory for good. */
    method TryConnectRedis(connects: bool) returns (connected: bool)
      requires Valid()
      modifies this
      ensures Valid()
      ensures old(useMemory || triedRedis) ==>
        !connected && client == old(client) && useMemory == old(useMemory) && triedRedis == old(triedRedis)
      ensures !old(useMemory || triedRedis) ==>
        triedRedis && connected == connects && client == connects && useMemory == !connects
      ensures old(useMemory) ==> useMemory
      ensures memoryStore == old(memoryStore) && redis == old(redis)
    {
      if useMemory || triedRedis {
        return false;
      }
      triedRedis := true;
      attempts := attempts + 1;
      client := true;
      if connects {
        return true;
      }
      useMemory := true;
      client := false;
      return false;
    }

    /** `cacheAppendMessage(sessionId, message)`: on Redis, `rPush` then `expire`; a
        failure of either switches to memory and the message also goes to the map. */
    method AppendMessage(sessionId: Json, message: Json, pushOk: bool, expireOk: bool, rt: Runtime)
      returns (r: Result<(), Exception>)
      requires Valid()
      modifies this
      ensures Valid()
      ensures r.Err? <==> !Truthy(sessionId)
      ensures r.Err? ==> r.error == Error(MissingSessionId)
      ensures !Truthy(sessionId) || !Truthy(message) ==>
        memoryStore == old(memoryStore) && redis == old(redis) && useMemory == old(useMemory)
      ensures Truthy(sessionId) && Truthy(message) && old(OnRedis()) && pushOk ==>
        redis == old(redis)[KeyForSession(Display(sessionId, rt)) :=
          RedisList(old(redis), KeyForSession(Display(sessionId, rt))) + [message]]
      ensures Truthy(sessionId) && Truthy(message) && old(OnRedis()) && pushOk && expireOk ==>
        memoryStore == old(memoryStore) && useMemory == old(useMemory)
      ensures Truthy(sessionId) && Truthy(message) && !(old(OnRedis()) && pushOk && expireOk) ==>
        memoryStore == Push(old(memoryStore), sessionId, message)
      ensures Truthy(sessionId) && Truthy(message) && old(OnRedis()) && !(pushOk && expireOk) ==> useMemory
      ensures !(old(OnRedis()) && pushOk) ==> redis == old(redis)
      ensures !old(OnRedis()) ==> useMemory == old(useMemory)
      ensures old(useMemory) ==> useMemory
      ensures client == old(client) && triedRedis == old(triedRedis)
    {
      if !Truthy(sessionId) {
        return Err(Error(MissingSessionId));
      }
      if !Truthy(message) {
        return Ok(());
      }
      if !useMemory && client {
        var key := KeyForSession(Display(sessionId, rt));
        if pushOk {
          redis := redis[key := RedisList(redis, key) + [message]];
          if expireOk {
            return Ok(());
          }
        }
        useMemory := true;
      }
      var arr := History(memoryStore, sessionId);
      arr := arr + [message];
      memoryStore := memoryStore[sessionId := arr];
      r := Ok(());
    }

    /** `cacheGetSessionHistory(sessionId)`: the Redis list while Redis works, otherwise
        the map's list; a failed read switches to memory. */
    method GetSessionHistory(sessionId: Json, readOk: bool, rt: Runtime) returns (history: seq<Json>)
      requires Valid()
      modifies this
      ensures Valid()
      ensures !Truthy(sessionId) ==> history == [] && useMemory == old(useMemory)
      ensures Truthy(sessionId) && old(OnRedis()) && readOk ==>
        history == RedisList(redis, KeyForSession(Display(sessionId, rt))) && useMemory == old(useMemory)
      ensures Truthy(sessionId) && !(old(OnRedis()) && readOk) ==> history == History(memoryStore, sessionId)
      ensures Truthy(sessionId) && old(OnRedis()) && !readOk ==> useMemory
      ensures !old(OnRedis()) ==> useMemory == old(useMemory)
      ensures old(useMemory) ==> useMemory
      ensures memoryStore == old(memoryStore) && redis == old(redis)
      ensures client == old(client) && triedRedis == old(triedRedis)
    {
      if !Truthy(sessionId) {
        return [];
      }
      if !useMemory && client {
        if readOk {
          return RedisList(redis, KeyForSession(Display(sessionId, rt)));
        }
        useMemory := true;
      }
      history := History(memoryStore, sessionId);
    }

    /** `cacheClearSession(sessionId)`: `del` on Redis while Redis works, otherwise the
        session's entry leaves the map; a failed `del` switches to memory. */
    method ClearSession(sessionId: Json, delOk: bool, rt: Runtime)
      requires Valid()
      modifies this
      ensures Valid()
      ensures !Truthy(sessionId) ==> memoryStore == old(memoryStore) && redis == old(redis) && useMemory == old(useMemory)
      ensures Truthy(sessionId) && old(OnRedis()) && delOk ==>
        redis == old(redis) - {KeyForSession(Display(sessionId, rt))} &&
        memoryStore == old(memoryStore) && useMemory == old(useMemory)
      ensures Truthy(sessionId) && !(old(OnRedis()) && delOk) ==>
        memoryStore == Delete(old(memoryStore), sessionId) && redis == old(redis)
      ensures Truthy(sessionId) && old(OnRedis()) && !delOk ==> useMemory
      ensures !old(OnRedis()) ==> useMemory == old(useMemory)
      ensures old(useMemory) ==> useMemory
      ensures client == old(client) && triedRedis == old(triedRedis)
    {
      if !Truthy(sessionId) {
        return;
      }
      if !useMemory && client {
        if delOk {
          redis := redis - {KeyForSession(Display(sessionId, rt))};
          return;
        }
        useMemory := true;
      }
      memoryStore := memoryStore - {sessionId};
    }
  }

  /** Appending a message and then reading the session back: the message comes back last
      whenever the read goes to the map (Redis was not in use, or the append failed and
      switched to it) or both Redis calls and the read succeed; when only the read fails,
      the map is read and the message, which went to Redis alone, is missing. */
  method AppendThenRead(cache: SessionCache, id: Json, msg: Json, pushOk: bool, expireOk: bool,
                        readOk: bool, rt: Runtime) returns (history: seq<Json>)
    requires cache.Valid()
    modifies cache
    ensures cache.Valid()
    ensures Truthy(id) && Truthy(msg) && !(old(cache.OnRedis()) && pushOk && expireOk) ==>
      history == old(History(cache.memoryStore, id)) + [msg]
    ensures Truthy(id) && Truthy(msg) && old(cache.OnRedis()) && pushOk && expireOk && readOk ==>
      history == old(RedisList(cache.redis, KeyForSession(Display(id, rt)))) + [msg]
    ensures Truthy(id) && Truthy(msg) && old(cache.OnRedis()) && pushOk && expireOk && !readOk ==>
      history == old(History(cache.memoryStore, id))
  {
    var r := cache.AppendMessage(id, msg, pushOk, expireOk, rt);
    history := cache.GetSessionHistory(id, readOk, rt);
  }

  /** A process that cannot reach Redis: the first connection attempt fails, a second is
      never made, and from then on every message lives in the map, readable in order. */
  method FallbackScenario(server: map<string, seq<Json>>, rt: Runtime)
    returns (history: seq<Json>, serverAfter: map<string, seq<Json>>)
    ensures history == [JStr("hello"), JStr("again")]
    ensures serverAfter == server
  {
    var cache := new SessionCache(server);
    var connected := cache.TryConnectRedis(false);
    assert !connected && cache.useMemory && cache.attempts == 1;
    connected := cache.TryConnectRedis(true);
    assert !connected && cache.attempts == 1;
    var id := JStr("s1");
    var r := cache.AppendMessage(id, JStr("hello"), true, true, rt);
    r := cache.AppendMessage(id, JStr("again"), true, true, rt);
    history := cache.GetSessionHistory(id, true, rt);
    serverAfter := cache.redis;
  }
}

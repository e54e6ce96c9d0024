/**
 * JsObjectCache: one proxy per DOM element id, fetched again from the document
 * when the cached one is gone (reclaimed by the garbage collector) or disposed.
 */
module ObjectCache {
  import opened Wrappers
  import opened Browser

  /** What a cache lookup observes of the browser. */
  datatype Env = Env(byId: map<string, NodeRef>, nextHandle: nat, disposed: set<nat>, collected: set<nat>)

  /** Every disposed or reclaimed handle was handed out before `nextHandle`. */
  ghost predicate EnvValid(env: Env) {
    && (forall h :: h in env.disposed ==> h < env.nextHandle)
    && (forall h :: h in env.collected ==> h < env.nextHandle)
  }

  /** A weak reference still yields its target and the target is not disposed. */
  predicate Alive(p: JsObject, env: Env) {
    p.handle !in env.collected && p.handle !in env.disposed
  }

  /** Every cached proxy was handed out before `nextHandle`. */
  ghost predicate Bounded(cache: map<string, JsObject>, nextHandle: nat) {
    forall k :: k in cache ==> cache[k].handle < nextHandle
  }

  /** The outcome of one `GetOrCreate`: its result, the cache after it, and the next proxy handle. */
  datatype Fetched = Fetched(result: Result<JsObject>, cache: map<string, JsObject>, nextHandle: nat)

  /** `GetOrCreate(elemId)` as a function of the cache and the browser. */
  function Fetch(cache: map<string, JsObject>, elemId: string, env: Env): Fetched {
    if elemId in cache && Alive(cache[elemId], env) then
      Fetched(Ok(cache[elemId]), cache, env.nextHandle)
    else if elemId in env.byId then
      var p := JsObject(env.nextHandle, env.byId[elemId]);
      Fetched(Ok(p), cache[elemId := p], env.nextHandle + 1)
    else
      Fetched(Err(JsvError), cache, env.nextHandle)
  }

  /** `Remove(elemId)` as a function of the cache. */
  function Removed(cache: map<string, JsObject>, elemId: string): map<string, JsObject> {
    cache - {elemId}
  }

  /**
   * A successful lookup returns a live proxy onto the node the document indexes under
   * `elemId` (or the cached live proxy), and leaves that proxy cached under `elemId`;
   * an id the document does not have is an error that leaves the cache as it was.
   */
  lemma FetchResult(cache: map<string, JsObject>, elemId: string, env: Env)
    requires EnvValid(env) && Bounded(cache, env.nextHandle)
    ensures var f := Fetch(cache, elemId, env);
      && (f.result.Ok? ==> Alive(f.result.value, env) && elemId in f.cache && f.cache[elemId] == f.result.value)
      && (f.result.Ok? && f.result.value.handle >= env.nextHandle ==> f.result.value.node == env.byId[elemId])
      && (f.result.Err? <==> (elemId !in cache || !Alive(cache[elemId], env)) && elemId !in env.byId)
      && (f.result.Err? ==> f.result.error == JsvError && f.cache == cache)
      && Bounded(f.cache, f.nextHandle) && f.nextHandle >= env.nextHandle
  {
  }

  /** A lookup writes at most the entry for the requested id; every other entry is untouched. */
  lemma FetchFrame(cache: map<string, JsObject>, elemId: string, env: Env)
    ensures var f := Fetch(cache, elemId, env);
      forall k :: k != elemId ==> (k in f.cache <==> k in cache) && (k in cache ==> f.cache[k] == cache[k])
  {
  }

  /**
   * Two lookups of the same id, with no disposal, reclamation or removal between
   * them, return the same proxy, and the second one changes nothing.
   */
  lemma {:induction false} FetchTwiceSameProxy(cache: map<string, JsObject>, elemId: string, env: Env)
    requires EnvValid(env) && Bounded(cache, env.nextHandle)
    requires Fetch(cache, elemId, env).result.Ok?
    ensures var f := Fetch(cache, elemId, env);
      var env' := env.(nextHandle := f.nextHandle);
      Fetch(f.cache, elemId, env') == Fetched(f.result, f.cache, f.nextHandle)
  {
    var f := Fetch(cache, elemId, env);
    if !(elemId in cache && Alive(cache[elemId], env)) {
      assert f.result.value.handle == env.nextHandle;
      assert f.result.value.handle !in env.disposed && f.result.value.handle !in env.collected;
    }
  }

  /**
   * Once the cached proxy is disposed, the next lookup fetches a new proxy from the
   * document, different from the disposed one, and caches it in its place.
   */
  lemma {:induction false} FetchAfterDisposeRehydrates(cache: map<string, JsObject>, elemId: string, env: Env)
    requires elemId in cache && elemId in env.byId && Bounded(cache, env.nextHandle)
    ensures var env' := env.(disposed := env.disposed + {cache[elemId].handle});
      var f := Fetch(cache, elemId, env');
      && f.result == Ok(JsObject(env.nextHandle, env.byId[elemId])) && f.cache == cache[elemId := f.result.value]
      && f.result.value != cache[elemId]
  {
    var env' := env.(disposed := env.disposed + {cache[elemId].handle});
    assert !Alive(cache[elemId], env');
    assert cache[elemId].handle < env.nextHandle;
  }

  /**
   * Handles handed out from `nextHandle` on do not change what a lookup finds: it
   * succeeds in the same cases and yields a proxy on the same node.
   */
  lemma FetchIgnoresNewHandles(cache: map<string, JsObject>, elemId: string, env: Env, env': Env)
    requires Bounded(cache, env.nextHandle)
    requires env'.byId == env.byId && env'.collected == env.collected && env.disposed <= env'.disposed
    requires forall h :: h in env'.disposed && h !in env.disposed ==> h >= env.nextHandle
    ensures Fetch(cache, elemId, env).result.Ok? == Fetch(cache, elemId, env').result.Ok?
    ensures Fetch(cache, elemId, env).result.Ok? ==>
      Fetch(cache, elemId, env).result.value.node == Fetch(cache, elemId, env').result.value.node
  {
  }

  /** `Remove` deletes exactly the entry for `elemId`; an absent id leaves the cache as it was. */
  lemma RemovedExactly(cache: map<string, JsObject>, elemId: string)
    ensures elemId !in Removed(cache, elemId)
    ensures forall k :: k != elemId ==> (k in Removed(cache, elemId) <==> k in cache)
    ensures forall k :: k != elemId && k in cache ==> Removed(cache, elemId)[k] == cache[k]
    ensures elemId !in cache ==> Removed(cache, elemId) == cache
  {
  }

  /** After `Remove`, a lookup cannot answer from the cache: it goes to the document. */
  lemma {:induction false} FetchAfterRemove(cache: map<string, JsObject>, elemId: string, env: Env)
    ensures var f := Fetch(Removed(cache, elemId), elemId, env);
      && (elemId in env.byId ==> f.result == Ok(JsObject(env.nextHandle, env.byId[elemId])))
      && (elemId !in env.byId ==> f.result == Err(JsvError))
  {
    assert elemId !in Removed(cache, elemId);
  }

  /** The static `_cache` dictionary. */
  class JsObjectCache {
    var cache: map<string, JsObject>

    constructor()
      ensures cache == map[]
    {
      cache := map[];
    }

    /** The browser as a lookup observes it. */
    static function EnvOf(rt: JsRuntime): Env
      reads rt
    {
      Env(rt.dom.byId, rt.nextHandle, rt.disposed, rt.collected)
    }

    ghost predicate Valid(rt: JsRuntime)
      reads this, rt
    {
      rt.Valid() && Bounded(cache, rt.nextHandle)
    }

    /** `GetOrCreate(elemId)`: the cached proxy while it is alive, otherwise a fresh one from the document. */
    method GetOrCreate(elemId: string, rt: JsRuntime) returns (r: Result<JsObject>)
      requires Valid(rt)
      modifies this, rt
      ensures Valid(rt)
      ensures Fetched(r, cache, rt.nextHandle) == Fetch(old(cache), elemId, old(EnvOf(rt)))
      ensures rt.dom == old(rt.dom) && rt.disposed == old(rt.disposed) && rt.collected == old(rt.collected)
      ensures r.Ok? ==> r.value.handle < rt.nextHandle && !rt.IsDisposed(r.value)
    {
      if elemId in cache && cache[elemId].handle !in rt.collected && !rt.IsDisposed(cache[elemId]) {
        return Ok(cache[elemId]);
      }
      var found := rt.GetElementById(elemId);
      if found.None? {
        return Err(JsvError);
      }
      var p := found.value;
      cache := cache[elemId := p];
      r := Ok(p);
    }

    /** `Remove(elemId)`. */
    method Remove(elemId: string)
      modifies this
      ensures cache == Removed(old(cache), elemId)
    {
      cache := cache - {elemId};
    }
  }
}

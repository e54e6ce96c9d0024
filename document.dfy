/**
 * The `Document` facade: the registry `_jsvElements` from element id to the one Element
 * object that stands for it, filled by `CreateElement` and by lookups of elements the
 * document already has, and the debugging reconciliation of that registry against the
 * elements in the document that carry the framework's marker attribute.
 */
module DocumentFacade {
  import opened Wrappers
  import opened Browser
  import opened ObjectCache
  import opened ElementFacade
  import ElementJs

  /** The static `_jsvElements` dictionary. */
  class Document {
    var jsvElements: map<string, Element>

    /** Every entry is the Element for its own id, and every ephemeral proxy in it was handed out by `rt`. */
    ghost predicate Valid(rt: JsRuntime)
      reads this, rt, jsvElements.Values
    {
      forall k :: k in jsvElements ==> jsvElements[k].id == k && jsvElements[k].Valid(rt)
    }

    constructor()
      ensures jsvElements == map[]
    {
      jsvElements := map[];
    }

    /**
     * `CreateElement(id, tagName)`: an id already in the registry is a JSVException;
     * otherwise a new, unconnected, marked element is created, wrapped in a new Element
     * that holds its proxy, and registered under `id`.
     */
    method CreateElement(id: string, tagName: string, rt: JsRuntime) returns (r: Result<Element>)
      requires Valid(rt) && rt.Valid()
      modifies this, rt
      ensures Valid(rt) && rt.Valid()
      ensures id in old(jsvElements) ==> r == Err(JsvError) && unchanged(this, rt)
      ensures id !in old(jsvElements) ==>
        && r.Ok? && fresh(r.value)
        && r.value.id == id && !r.value.isDisposed && r.value.listenersByType == map[]
        && r.value.ephemeral == Some(JsObject(old(rt.nextHandle), old(rt.dom.nodeCount)))
        && jsvElements == old(jsvElements)[id := r.value]
        && rt.dom == WithNewElement(old(rt.dom), id, tagName, CreatedByJSV)
      ensures rt.disposed == old(rt.disposed) && rt.collected == old(rt.collected) && rt.nextHandle >= old(rt.nextHandle)
    {
      if id in jsvElements {
        return Err(JsvError);
      }
      var p := rt.CreateJSVaporizerElement(id, tagName, CreatedByJSV);
      var elem := new Element(id, Some(p));
      jsvElements := jsvElements[id := elem];
      r := Ok(elem);
    }

    /**
     * `GetElementById(id)`: the registered Element when there is one, without asking the
     * document; otherwise, when the document has the id, a new Element with no proxy of
     * its own is registered and returned (the proxy the lookup produced is disposed);
     * otherwise null, with the registry unchanged.
     */
    method GetElementById(id: string, rt: JsRuntime) returns (r: Option<Element>)
      requires Valid(rt) && rt.Valid()
      modifies this, rt
      ensures Valid(rt) && rt.Valid()
      ensures rt.dom == old(rt.dom) && rt.collected == old(rt.collected) && rt.nextHandle >= old(rt.nextHandle)
      ensures id in old(jsvElements) ==> r == Some(old(jsvElements)[id]) && unchanged(this, rt)
      ensures id !in old(jsvElements) && id in old(rt.dom.byId) ==>
        && r.Some? && fresh(r.value)
        && r.value.id == id && r.value.ephemeral.None? && !r.value.isDisposed && r.value.listenersByType == map[]
        && jsvElements == old(jsvElements)[id := r.value]
        && rt.disposed == old(rt.disposed) + {old(rt.nextHandle)}
      ensures id !in old(jsvElements) && id !in old(rt.dom.byId) ==> r.None? && jsvElements == old(jsvElements) && rt.disposed == old(rt.disposed)
      ensures r.Some? <==> id in jsvElements
      ensures r.Some? ==> r.value == jsvElements[id] && r.value.id == id
    {
      if id in jsvElements {
        return Some(jsvElements[id]);
      }
      var jsObject := rt.GetElementById(id);
      if jsObject.Some? {
        rt.Dispose(jsObject.value);
        var elem := new Element(id, None);
        jsvElements := jsvElements[id := elem];
        return Some(elem);
      } else {
        return None;
      }
    }

    /** `AssertGetElementById(id)`: `GetElementById`, with null turned into a JSVException. */
    method AssertGetElementById(id: string, rt: JsRuntime) returns (r: Result<Element>)
      requires Valid(rt) && rt.Valid()
      modifies this, rt
      ensures Valid(rt) && rt.Valid()
      ensures rt.dom == old(rt.dom) && rt.collected == old(rt.collected) && rt.nextHandle >= old(rt.nextHandle)
      ensures id in old(jsvElements) ==> r == Ok(old(jsvElements)[id]) && unchanged(this, rt)
      ensures id !in old(jsvElements) && id in old(rt.dom.byId) ==>
        r.Ok? && fresh(r.value) && r.value.ephemeral.None? && !r.value.isDisposed && jsvElements == old(jsvElements)[id := r.value]
        && rt.disposed == old(rt.disposed) + {old(rt.nextHandle)}
      ensures r.Err? <==> id !in old(jsvElements) && id !in old(rt.dom.byId)
      ensures r.Err? ==> r.error == JsvError && jsvElements == old(jsvElements) && rt.disposed == old(rt.disposed)
      ensures r.Ok? ==> id in jsvElements && r.value == jsvElements[id] && r.value.id == id
      ensures forall k :: k in old(jsvElements) ==> k in jsvElements && jsvElements[k] == old(jsvElements)[k]
    {
      var elem := GetElementById(id, rt);
      if elem.None? {
        return Err(JsvError);
      }
      r := Ok(elem.value);
    }
  }

  /** What resolving one registered Element depends on: whether it is disposed, and its own proxy. */
  datatype ElemState = ElemState(isDisposed: bool, ephemeral: Option<JsObject>)

  /**
   * The node `Document.AssertGetElementById(id)` followed by `GetJSObject()` reaches,
   * given the Element registered under `id` if there is one: through that Element, or,
   * for an id only the document has, through the proxy cache; none when the lookup or
   * the resolution fails.
   */
  function TargetOf(entry: Option<ElemState>, id: string, cache: map<string, JsObject>, env: Env): Option<NodeRef> {
    if entry.Some? then
      var l := Resolve(entry.value.isDisposed, entry.value.ephemeral, id, cache, env);
      if l.result.Ok? then Some(l.result.value.node) else None
    else if id in env.byId then
      var f := Fetch(cache, id, env);
      if f.result.Ok? then Some(f.result.value.node) else None
    else None
  }

  /**
   * Registering an Element found in the document and handing out new handles moves no
   * id's target: an Element registered by a lookup has no proxy of its own and
   * resolves through the cache, as the unregistered id did.
   */
  lemma TargetIgnoresLookups(entry: Option<ElemState>, entry': Option<ElemState>, id: string, cache: map<string, JsObject>, env: Env, env': Env)
    requires Bounded(cache, env.nextHandle)
    requires entry.Some? && entry.value.ephemeral.Some? ==> entry.value.ephemeral.value.handle < env.nextHandle
    requires env'.byId == env.byId && env'.collected == env.collected && env.disposed <= env'.disposed
    requires forall h :: h in env'.disposed && h !in env.disposed ==> h >= env.nextHandle
    requires entry.Some? ==> entry' == entry
    requires entry.None? && entry'.Some? ==> entry'.value == ElemState(false, None) && id in env.byId
    ensures TargetOf(entry', id, cache, env') == TargetOf(entry, id, cache, env)
  {
    FetchIgnoresNewHandles(cache, id, env, env');
  }

  /**
   * Resolving Element `j`'s proxy moves no id's target: the proxy it settles on is
   * reached again, and every other id's entry is untouched.
   */
  lemma TargetAfterResolve(e: ElemState, j: string, cache: map<string, JsObject>, env: Env, entry: Option<ElemState>, k: string)
    requires EnvValid(env) && Bounded(cache, env.nextHandle)
    requires k == j ==> entry == Some(e)
    ensures var l := Resolve(e.isDisposed, e.ephemeral, j, cache, env);
      var entry' := if k == j then Some(ElemState(e.isDisposed, l.ephemeral)) else entry;
      TargetOf(entry', k, l.cache, env.(nextHandle := l.nextHandle)) == TargetOf(entry, k, cache, env)
  {
    var l := Resolve(e.isDisposed, e.ephemeral, j, cache, env);
    var env' := env.(nextHandle := l.nextHandle);
    FetchResult(cache, j, env);
    if k == j {
      if !e.isDisposed && !(e.ephemeral.Some? && e.ephemeral.value.handle !in env.disposed) {
        if Fetch(cache, j, env).result.Ok? {
          FetchTwiceSameProxy(cache, j, env);
        }
      }
    } else {
      FetchFrame(cache, j, env);
      FetchIgnoresNewHandles(cache, k, env, env');
      assert (k in l.cache <==> k in cache) && (k in cache ==> l.cache[k] == cache[k]);
      assert Fetch(l.cache, k, env').result == Fetch(cache, k, env').result;
    }
  }

  /** What every widget operation goes through: the Element registry, the proxy cache and the browser. */
  datatype Page = Page(doc: Document, cache: JsObjectCache, rt: JsRuntime) {
    ghost predicate Valid()
      reads doc, cache, rt, doc.jsvElements.Values
    {
      doc.Valid(rt) && cache.Valid(rt) && rt.Valid()
    }

    /** The event-listener tokens each registered Element holds, by element id. */
    ghost function Tokens(): map<string, map<string, set<Token>>>
      reads doc, doc.jsvElements.Values
    {
      map k | k in doc.jsvElements :: doc.jsvElements[k].listenersByType
    }

    /** The Element registered under `id`, as far as resolving its proxy goes. */
    ghost function Entry(id: string): Option<ElemState>
      reads doc, doc.jsvElements.Values
    {
      if id in doc.jsvElements then Some(ElemState(doc.jsvElements[id].isDisposed, doc.jsvElements[id].ephemeral)) else None
    }

    /** The node a component's write to its element `id` lands on. */
    ghost function Target(id: string): Option<NodeRef>
      reads doc, doc.jsvElements.Values, cache, rt
    {
      TargetOf(Entry(id), id, cache.cache, JsObjectCache.EnvOf(rt))
    }

    /** The objects an operation on the page may change. */
    ghost function Repr(): set<object>
      reads doc
    {
      {doc, cache, rt} + doc.jsvElements.Values
    }
  }

  /** No registered Element was dropped and none lost a token. */
  ghost predicate TokensGrown(before: map<string, map<string, set<Token>>>, after: map<string, map<string, set<Token>>>) {
    forall k :: k in before ==> k in after && forall ev :: TokensOf(before[k], ev) <= TokensOf(after[k], ev)
  }

  /** The document went from `before` to `after` by one write of `v` to property `name` of node `target`. */
  ghost predicate PropertyWritten(before: DomState, after: DomState, target: Option<NodeRef>, name: string, v: JsValue, parseIds: string -> seq<string>)
    requires before.Valid()
  {
    target.Some? && after == AfterSetProperty(before, target.value, name, v, parseIds)
  }

  /**
   * `Document.AssertGetElementById(id)` on a page: the registered Element, or a new one
   * for an id the document has, or a JSVException. It moves no id's target.
   */
  method Find(page: Page, id: string) returns (r: Result<Element>)
    requires page.Valid()
    modifies page.doc, page.rt
    ensures page.Valid() && fresh(page.Repr() - old(page.Repr()))
    ensures page.rt.dom == old(page.rt.dom) && page.rt.collected == old(page.rt.collected) && page.cache.cache == old(page.cache.cache)
    ensures r.Err? <==> id !in old(page.doc.jsvElements) && id !in old(page.rt.dom.byId)
    ensures r.Err? ==> r.error == JsvError && page.doc.jsvElements == old(page.doc.jsvElements)
    ensures r.Ok? ==> id in page.doc.jsvElements && r.value == page.doc.jsvElements[id] && r.value.id == id
    ensures forall k :: k in old(page.doc.jsvElements) ==> k in page.doc.jsvElements && page.doc.jsvElements[k] == old(page.doc.jsvElements)[k]
    ensures page.doc.jsvElements.Keys <= old(page.doc.jsvElements).Keys + {id}
    ensures forall k :: page.Target(k) == old(page.Target(k))
    ensures TokensGrown(old(page.Tokens()), page.Tokens())
  {
    ghost var env0 := JsObjectCache.EnvOf(page.rt);
    r := page.doc.AssertGetElementById(id, page.rt);
    forall k
      ensures page.Target(k) == old(page.Target(k))
    {
      assert k in old(page.doc.jsvElements) ==> old(page.doc.jsvElements[k].Valid(page.rt));
      TargetIgnoresLookups(old(page.Entry(k)), page.Entry(k), k, page.cache.cache, env0, JsObjectCache.EnvOf(page.rt));
    }
  }

  /**
   * `Document.AssertGetElementById(id).SetProperty(name, v)`, the way the components
   * write to their own elements: an id neither registered nor in the document is a
   * JSVException; on success the marshalled value was written to the node the id
   * resolved to before the call. No write other than `outerHTML` moves any id's node.
   */
  method SetPropertyOf(page: Page, id: string, name: string, v: DotNetValue) returns (o: Outcome)
    requires page.Valid()
    modifies page.Repr()
    ensures page.Valid() && fresh(page.Repr() - old(page.Repr()))
    ensures page.rt.collected == old(page.rt.collected)
    ensures id !in old(page.doc.jsvElements) && id !in old(page.rt.dom.byId) ==> o == Fail(JsvError)
    ensures o.Pass? ==> name != "id" && Marshal(v).Ok? && PropertyWritten(old(page.rt.dom), page.rt.dom, old(page.Target(id)), name, Marshal(v).value, page.rt.parseIds)
    ensures o.Pass? ==> id in page.doc.jsvElements
    ensures o.Fail? ==> page.rt.dom == old(page.rt.dom)
    ensures name != "outerHTML" ==> forall k :: page.Target(k) == old(page.Target(k))
    ensures TokensGrown(old(page.Tokens()), page.Tokens())
  {
    var elem := Find(page, id);
    if elem.Err? {
      return Fail(elem.error);
    }
    o := WriteProperty(page, elem.value, name, v);
  }

  /** `elem.SetProperty(name, v)` on a registered element. */
  method WriteProperty(page: Page, elem: Element, name: string, v: DotNetValue) returns (o: Outcome)
    requires page.Valid() && elem in page.doc.jsvElements.Values
    modifies page.Repr()
    ensures page.Valid() && fresh(page.Repr() - old(page.Repr()))
    ensures page.rt.collected == old(page.rt.collected) && page.doc.jsvElements == old(page.doc.jsvElements)
    ensures o.Pass? ==> name != "id" && Marshal(v).Ok? && PropertyWritten(old(page.rt.dom), page.rt.dom, old(page.Target(elem.id)), name, Marshal(v).value, page.rt.parseIds)
    ensures o.Fail? ==> page.rt.dom == old(page.rt.dom)
    ensures name != "outerHTML" ==> forall k :: page.Target(k) == old(page.Target(k))
    ensures page.Tokens() == old(page.Tokens())
  {
    assert page.doc.jsvElements[elem.id] == elem;
    ghost var e0 := page.Entry(elem.id).value;
    ghost var env0 := JsObjectCache.EnvOf(page.rt);
    ghost var target := Resolve(e0.isDisposed, e0.ephemeral, elem.id, page.cache.cache, env0).result;
    assert page.Target(elem.id) == if target.Ok? then Some(target.value.node) else None;
    o := elem.SetProperty(name, v, page.cache, page.rt);
    if name != "id" && name != "outerHTML" {
      AfterWriteTargets(page, e0, elem.id, old(page.cache.cache), env0);
    }
  }

  /** `Document.AssertGetElementById(id).SetFormElemValue(v)` (or `SetFormElemChecked`, with `name` "checked"). */
  method SetFormElemOf(page: Page, id: string, name: string, v: JsValue) returns (o: Outcome)
    requires page.Valid()
    modifies page.Repr()
    ensures page.Valid() && fresh(page.Repr() - old(page.Repr()))
    ensures page.rt.collected == old(page.rt.collected)
    ensures id !in old(page.doc.jsvElements) && id !in old(page.rt.dom.byId) ==> o == Fail(JsvError)
    ensures o.Pass? ==> PropertyWritten(old(page.rt.dom), page.rt.dom, old(page.Target(id)), name, v, page.rt.parseIds)
    ensures o.Fail? ==> page.rt.dom == old(page.rt.dom)
    ensures name != "outerHTML" ==> forall k :: page.Target(k) == old(page.Target(k))
  {
    var elem := Find(page, id);
    if elem.Err? {
      return Fail(elem.error);
    }
    o := WriteFormElem(page, elem.value, name, v);
  }

  /** `elem.SetFormElemValue(v)` (or `SetFormElemChecked`) on a registered element. */
  method WriteFormElem(page: Page, elem: Element, name: string, v: JsValue) returns (o: Outcome)
    requires page.Valid() && elem in page.doc.jsvElements.Values
    modifies page.Repr()
    ensures page.Valid() && fresh(page.Repr() - old(page.Repr()))
    ensures page.rt.collected == old(page.rt.collected) && page.doc.jsvElements == old(page.doc.jsvElements)
    ensures o.Pass? ==> PropertyWritten(old(page.rt.dom), page.rt.dom, old(page.Target(elem.id)), name, v, page.rt.parseIds)
    ensures o.Fail? ==> page.rt.dom == old(page.rt.dom)
    ensures name != "outerHTML" ==> forall k :: page.Target(k) == old(page.Target(k))
  {
    assert page.doc.jsvElements[elem.id] == elem;
    ghost var e0 := page.Entry(elem.id).value;
    ghost var env0 := JsObjectCache.EnvOf(page.rt);
    ghost var target := Resolve(e0.isDisposed, e0.ephemeral, elem.id, page.cache.cache, env0).result;
    assert page.Target(elem.id) == if target.Ok? then Some(target.value.node) else None;
    o := elem.SetFormElem(name, v, page.cache, page.rt);
    if name != "outerHTML" {
      AfterWriteTargets(page, e0, elem.id, old(page.cache.cache), env0);
    }
  }

  /**
   * A write that resolved Element `j`'s proxy and left the document's ids alone moves
   * no id's target.
   */
  lemma AfterWriteTargets(page: Page, e0: ElemState, j: string, cache0: map<string, JsObject>, env0: Env)
    requires EnvValid(env0) && Bounded(cache0, env0.nextHandle)
    requires var l := Resolve(e0.isDisposed, e0.ephemeral, j, cache0, env0);
      && page.Entry(j) == Some(ElemState(e0.isDisposed, l.ephemeral))
      && page.cache.cache == l.cache && JsObjectCache.EnvOf(page.rt) == env0.(nextHandle := l.nextHandle)
    ensures forall k :: k != j ==> TargetOf(page.Entry(k), k, page.cache.cache, JsObjectCache.EnvOf(page.rt)) == TargetOf(page.Entry(k), k, cache0, env0)
    ensures TargetOf(page.Entry(j), j, page.cache.cache, JsObjectCache.EnvOf(page.rt)) == TargetOf(Some(e0), j, cache0, env0)
  {
    forall k | k != j
      ensures TargetOf(page.Entry(k), k, page.cache.cache, JsObjectCache.EnvOf(page.rt)) == TargetOf(page.Entry(k), k, cache0, env0)
    {
      TargetAfterResolve(e0, j, cache0, env0, page.Entry(k), k);
    }
    TargetAfterResolve(e0, j, cache0, env0, Some(e0), j);
  }

  /**
   * `Document.AssertGetElementById(id).AddEventListener(eventType, funcKey, handler)`, the
   * way the components wire their handlers: an id neither registered nor in the document
   * is a JSVException and registers nothing; a listener id the pool already holds is an
   * error; otherwise the listener is added to the pool for one node, and the document
   * itself is not changed.
   */
  method AddListenerOf(page: Page, id: string, eventType: string, listenerId: int, pool: ElementJs.ListenerPool)
    returns (r: Result<Token>)
    requires page.Valid()
    modifies page.Repr(), pool
    ensures page.Valid() && fresh(page.Repr() - old(page.Repr()))
    ensures page.rt.collected == old(page.rt.collected) && page.rt.dom == old(page.rt.dom)
    ensures id !in old(page.doc.jsvElements) && id !in old(page.rt.dom.byId) ==>
      r == Err(JsvError) && pool.State() == old(pool.State())
    ensures listenerId in old(pool.funcSpace) ==> r.Err? && pool.State() == old(pool.State())
    ensures r.Err? ==> pool.State() == old(pool.State())
    ensures r.Ok? ==> r.value == Token(eventType, listenerId) && listenerId !in old(pool.funcSpace)
    ensures r.Ok? ==> old(page.Target(id)).Some? && pool.State() == ElementJs.Added(old(pool.State()), old(page.Target(id)).value, eventType, listenerId)
    ensures r.Ok? ==> pool.funcSpace.Keys == old(pool.funcSpace).Keys + {listenerId} && pool.funcSpace[listenerId].eventType == eventType
    ensures r.Ok? ==> id in page.Tokens() && Token(eventType, listenerId) in TokensOf(page.Tokens()[id], eventType)
    ensures r.Ok? ==> old(page.Target(id)) == Some(pool.funcSpace[listenerId].elem)
    ensures TokensGrown(old(page.Tokens()), page.Tokens())
  {
    ghost var tokens0 := page.Tokens();
    var elem := Find(page, id);
    if elem.Err? {
      return Err(elem.error);
    }
    var e := elem.value;
    ghost var tokens1 := page.Tokens();
    r := ListenOn(page, e, eventType, listenerId, pool);
    TokensGrownAt(tokens0, tokens1, id, e.listenersByType, Token(eventType, listenerId));
  }

  /**
   * `elem.AddEventListener(eventType, funcKey, handler)` on a registered element, in its
   * corrected form `AddEventListenerKeepingProxy`: the proxy it looked up stays live.
   */
  method ListenOn(page: Page, e: Element, eventType: string, listenerId: int, pool: ElementJs.ListenerPool)
    returns (r: Result<Token>)
    requires page.Valid() && e.id in page.doc.jsvElements && page.doc.jsvElements[e.id] == e
    modifies e`ephemeral, e`listenersByType, page.cache, page.rt, pool
    ensures page.Valid() && page.rt.collected == old(page.rt.collected) && page.rt.dom == old(page.rt.dom)
    ensures page.Tokens() == old(page.Tokens())[e.id := e.listenersByType]
    ensures listenerId in old(pool.funcSpace) ==> r.Err?
    ensures r.Err? ==> pool.State() == old(pool.State()) && e.listenersByType == old(e.listenersByType)
    ensures r.Ok? ==>
      && r.value == Token(eventType, listenerId) && listenerId !in old(pool.funcSpace)
      && e.listenersByType == WithToken(old(e.listenersByType), r.value)
    ensures r.Ok? ==>
      old(page.Target(e.id)).Some? && pool.State() == ElementJs.Added(old(pool.State()), old(page.Target(e.id)).value, eventType, listenerId)
  {
    r := e.AddEventListenerKeepingProxy(eventType, listenerId, page.cache, page.rt, pool);
  }

  /** A token an Element held is still held after the tokens grew. */
  lemma TokenKept(t0: map<string, map<string, set<Token>>>, t1: map<string, map<string, set<Token>>>, id: string, t: Token)
    requires TokensGrown(t0, t1) && id in t0 && t in TokensOf(t0[id], t.eventType)
    ensures id in t1 && t in TokensOf(t1[id], t.eventType)
  {
  }

  /** Adding a token to one Element's map, or leaving it, keeps every earlier token. */
  lemma TokensGrownAt(t0: map<string, map<string, set<Token>>>, t1: map<string, map<string, set<Token>>>, id: string, byType: map<string, set<Token>>, t: Token)
    requires TokensGrown(t0, t1) && id in t1
    requires byType == t1[id] || byType == WithToken(t1[id], t)
    ensures TokensGrown(t0, t1[id := byType])
  {
    forall k | k in t0
      ensures k in t1[id := byType] && forall ev :: TokensOf(t0[k], ev) <= TokensOf(t1[id := byType][k], ev)
    {
      if k == id {
        forall ev
          ensures TokensOf(t1[id], ev) <= TokensOf(byType, ev)
        {
        }
      }
    }
  }

  /**
   * Entries are never removed: an id that has been looked up successfully stays
   * registered, so creating an element with that id afterwards fails.
   */
  method LookupThenCreateFails(doc: Document, id: string, tagName: string, rt: JsRuntime)
    returns (found: Option<Element>, created: Result<Element>)
    requires doc.Valid(rt) && rt.Valid()
    modifies doc, rt
    ensures found.Some? ==> created == Err(JsvError)
    ensures found.Some? <==> id in old(doc.jsvElements) || id in old(rt.dom.byId)
  {
    found := doc.GetElementById(id, rt);
    created := doc.CreateElement(id, tagName, rt);
  }

  /** One element as the reconciliation reads it: its id attribute, its tag name, and whether it carries the marker attribute. */
  datatype DomElementInfo = DomElementInfo(id: Option<string>, tagName: Option<string>, isJsv: bool)

  /** The id the reconciliation groups an element under, "<NO_ID>" without one. */
  function IdOrDefault(e: DomElementInfo): string {
    e.id.GetOr("<NO_ID>")
  }

  /** The group key of an unmarked element: "id : tagName". */
  function NotJsvKey(e: DomElementInfo): string {
    IdOrDefault(e) + " : " + e.tagName.GetOr("<NO_TAG>")
  }

  /** The number of marked elements among `es` grouped under `key`. */
  function JsvCount(es: seq<DomElementInfo>, key: string): nat
    decreases |es|
  {
    if es == [] then 0
    else JsvCount(es[..|es| - 1], key) + (if es[|es| - 1].isJsv && IdOrDefault(es[|es| - 1]) == key then 1 else 0)
  }

  /** The number of unmarked elements among `es` grouped under `key`. */
  function NotJsvCount(es: seq<DomElementInfo>, key: string): nat
    decreases |es|
  {
    if es == [] then 0
    else NotJsvCount(es[..|es| - 1], key) + (if !es[|es| - 1].isJsv && NotJsvKey(es[|es| - 1]) == key then 1 else 0)
  }

  /** The ids of the marked elements. */
  function JsvIds(es: seq<DomElementInfo>): set<string> {
    set i | 0 <= i < |es| && es[i].isJsv :: IdOrDefault(es[i])
  }

  /** A key is counted exactly when some marked element is grouped under it. */
  lemma {:induction false} JsvCountPositive(es: seq<DomElementInfo>, key: string)
    ensures JsvCount(es, key) > 0 <==> key in JsvIds(es)
    decreases |es|
  {
    if es != [] {
      var init := es[..|es| - 1];
      JsvCountPositive(init, key);
      if key in JsvIds(init) {
        var i :| 0 <= i < |init| && init[i].isJsv && IdOrDefault(init[i]) == key;
        assert es[i] == init[i];
      }
      if key in JsvIds(es) {
        var i :| 0 <= i < |es| && es[i].isJsv && IdOrDefault(es[i]) == key;
        if i < |init| {
          assert init[i] == es[i];
        }
      }
    }
  }

  /**
   * The counting loop of the reconciliation: the elements grouped by key, marked ones by
   * id and unmarked ones by "id : tagName".
   */
  method CountGroups(es: seq<DomElementInfo>) returns (domJsvCounts: map<string, nat>, domNotJsvCounts: map<string, nat>)
    ensures forall k :: k in domJsvCounts <==> JsvCount(es, k) > 0
    ensures forall k :: k in domJsvCounts ==> domJsvCounts[k] == JsvCount(es, k)
    ensures forall k :: k in domNotJsvCounts <==> NotJsvCount(es, k) > 0
    ensures forall k :: k in domNotJsvCounts ==> domNotJsvCounts[k] == NotJsvCount(es, k)
  {
    domJsvCounts := map[];
    domNotJsvCounts := map[];
    var i := 0;
    while i < |es|
      invariant 0 <= i <= |es|
      invariant forall k :: k in domJsvCounts <==> JsvCount(es[..i], k) > 0
      invariant forall k :: k in domJsvCounts ==> domJsvCounts[k] == JsvCount(es[..i], k)
      invariant forall k :: k in domNotJsvCounts <==> NotJsvCount(es[..i], k) > 0
      invariant forall k :: k in domNotJsvCounts ==> domNotJsvCounts[k] == NotJsvCount(es[..i], k)
    {
      var e := es[i];
      assert es[..i + 1][..i] == es[..i];
      if e.isJsv {
        var groupKey := IdOrDefault(e);
        if groupKey !in domJsvCounts {
          domJsvCounts := domJsvCounts[groupKey := 0];
        }
        domJsvCounts := domJsvCounts[groupKey := domJsvCounts[groupKey] + 1];
      } else {
        var groupKey := NotJsvKey(e);
        if groupKey !in domNotJsvCounts {
          domNotJsvCounts := domNotJsvCounts[groupKey := 0];
        }
        domNotJsvCounts := domNotJsvCounts[groupKey := domNotJsvCounts[groupKey] + 1];
      }
      i := i + 1;
    }
    assert es[..i] == es;
  }

  /** The group keys of the marked elements, as the counting loop leaves them. */
  method MarkedIds(es: seq<DomElementInfo>) returns (ids: set<string>)
    ensures ids == JsvIds(es)
  {
    var domJsvCounts, domNotJsvCounts := CountGroups(es);
    ids := domJsvCounts.Keys;
    forall k
      ensures k in ids <==> k in JsvIds(es)
    {
      JsvCountPositive(es, k);
    }
  }

  /** `string.Join(sep, items)`. */
  function Join(sep: string, items: seq<string>): string {
    if items == [] then ""
    else if |items| == 1 then items[0]
    else items[0] + sep + Join(sep, items[1..])
  }

  /** The elements of `s` in some order: the enumeration order of a HashSet is left open. */
  method ToList(s: set<string>) returns (items: seq<string>)
    ensures |items| == |s| && (forall x :: x in items <==> x in s)
  {
    items := [];
    var rest := s;
    while rest != {}
      invariant rest !! (set x | x in items) && rest + (set x | x in items) == s
      invariant |items| + |rest| == |s|
      decreases |rest|
    {
      var x :| x in rest;
      items := items + [x];
      rest := rest - {x};
    }
  }

  const JsvNoDomHeader: string := "The following JSV ids were found in _jsvElement but not the DOM:"
  const DomNoJsvHeader: string := "The following JSV ids were found in the DOM but not in _jsvElements:"

  /** The first part of the report: the header, then the ids one per line, comma-separated; nothing when there are none. */
  function JsvNoDomSection(items: seq<string>): string {
    if items == [] then "" else JsvNoDomHeader + NewLine + Join("," + NewLine, items)
  }

  /** The second part of the report, set off from the first by a line break and ending with one; nothing when there are none. */
  function DomNoJsvSection(items: seq<string>): string {
    if items == [] then "" else NewLine + DomNoJsvHeader + NewLine + Join("," + NewLine, items) + NewLine
  }

  /** The report is empty exactly when both lists are, and each non-empty part starts with its header. */
  lemma {:induction false} ReportEmptyExactly(a: seq<string>, b: seq<string>)
    ensures JsvNoDomSection(a) + DomNoJsvSection(b) == "" <==> a == [] && b == []
    ensures a != [] ==> JsvNoDomSection(a)[..|JsvNoDomHeader|] == JsvNoDomHeader
    ensures b != [] ==> DomNoJsvSection(b)[..|NewLine + DomNoJsvHeader|] == NewLine + DomNoJsvHeader
  {
    if a != [] {
      Regroup(JsvNoDomHeader, NewLine, Join("," + NewLine, a), "", "");
      HeadOf(JsvNoDomHeader, NewLine + Join("," + NewLine, a));
    }
    if b != [] {
      Regroup(NewLine, DomNoJsvHeader, NewLine, Join("," + NewLine, b), NewLine);
      HeadOf(NewLine + DomNoJsvHeader, NewLine + Join("," + NewLine, b) + NewLine);
    }
  }

  /** The ways the report's pieces are grouped. */
  lemma Regroup(a: string, b: string, c: string, d: string, e: string)
    ensures a + b + c == a + (b + c)
    ensures a + b + c + d + e == (a + b) + (c + d + e)
  {
  }

  /** A string starts with its first part. */
  lemma HeadOf(h: string, rest: string)
    ensures |h + rest| >= |h| && (h + rest)[..|h|] == h
  {
  }

  /**
   * `JSVToDomReconciliation()` over the elements `getElementsByTagName("*")` yields:
   * the registered ids no marked element has, then the ids of marked elements nobody
   * registered, each list in set enumeration order. The report is empty exactly when
   * the two id sets agree.
   */
  method JSVToDomReconciliation(doc: Document, domElements: seq<DomElementInfo>)
    returns (problems: string, ghost jsvNoDomList: seq<string>, ghost domNoJsvList: seq<string>)
    ensures forall x :: x in jsvNoDomList <==> x in doc.jsvElements && x !in JsvIds(domElements)
    ensures forall x :: x in domNoJsvList <==> x in JsvIds(domElements) && x !in doc.jsvElements
    ensures problems == JsvNoDomSection(jsvNoDomList) + DomNoJsvSection(domNoJsvList)
    ensures problems == "" <==> doc.jsvElements.Keys == JsvIds(domElements)
  {
    var domJsvIds := MarkedIds(domElements);
    var jsvIds := doc.jsvElements.Keys;
    var jsvNoDom := jsvIds - domJsvIds;
    var domNoJsv := domJsvIds - jsvIds;
    problems := "";
    jsvNoDomList := [];
    if |jsvNoDom| > 0 {
      var items := ToList(jsvNoDom);
      jsvNoDomList := items;
      problems := AppendJsvNoDom(problems, items);
    }
    assert problems == JsvNoDomSection(jsvNoDomList);
    domNoJsvList := [];
    if |domNoJsv| > 0 {
      var items := ToList(domNoJsv);
      domNoJsvList := items;
      problems := AppendDomNoJsv(problems, items);
    } else {
      assert DomNoJsvSection(domNoJsvList) == [];
    }
    assert forall x :: x in jsvNoDomList <==> x in jsvNoDom;
    assert forall x :: x in domNoJsvList <==> x in domNoJsv;
    ReportEmptyExactly(jsvNoDomList, domNoJsvList);
  }

  /** Appending pieces one at a time appends their concatenation. */
  lemma AppendPieces(p: string, a: string, b: string, c: string, d: string, e: string)
    ensures p + a + b + c == p + (a + b + c)
    ensures p + a + b + c + (d + e) == p + (a + b + c + d + e)
  {
  }

  /** The `+=` steps that write the first part of the report. */
  method AppendJsvNoDom(problems: string, items: seq<string>) returns (r: string)
    requires items != []
    ensures r == problems + JsvNoDomSection(items)
  {
    r := problems;
    r := r + JsvNoDomHeader;
    r := r + NewLine;
    r := r + Join("," + NewLine, items);
    AppendPieces(problems, JsvNoDomHeader, NewLine, Join("," + NewLine, items), "", "");
  }

  /** The `+=` steps that write the second part of the report. */
  method AppendDomNoJsv(problems: string, items: seq<string>) returns (r: string)
    requires items != []
    ensures r == problems + DomNoJsvSection(items)
  {
    r := problems;
    r := r + NewLine;
    r := r + DomNoJsvHeader;
    r := r + NewLine;
    r := r + Join("," + NewLine, items) + NewLine;
    AppendPieces(problems, NewLine, DomNoJsvHeader, NewLine, Join("," + NewLine, items), NewLine);
  }
}

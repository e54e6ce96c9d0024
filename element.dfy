/**
 * The `Element` facade: a .NET object standing for one DOM element by id. It holds a
 * proxy of its own ("ephemeral") only until the element is connected; after that every
 * access goes through the proxy cache. It keeps the event-listener tokens it handed out
 * per event type, and guards against writing "id" and against upper-case attribute names.
 */
module ElementFacade {
  import opened Wrappers
  import opened Browser
  import opened ObjectCache
  import ElementJs

  /**
   * The attribute that marks a DOM element as created by the framework. The Document
   * facade owns it; it is declared here because `IsJSV` reads it too. It is lower case
   * because `setAttribute` lower-cases names.
   */
  const CreatedByJSV: string := "created-by-jsvaporizer"

  /**
   * The capital letters the model folds: the ASCII capitals, the Latin-1 capitals
   * (the multiplication sign is not a letter), the basic Greek capitals (U+03A2 is
   * unassigned) and the basic Cyrillic capitals.
   */
  predicate IsUpper(c: char) {
    || 'A' <= c <= 'Z'
    || ('\U{C0}' <= c <= '\U{DE}' && c != '\U{D7}')
    || ('\U{391}' <= c <= '\U{3AB}' && c != '\U{3A2}')
    || '\U{400}' <= c <= '\U{42F}'
  }

  /** The small letters those capitals fold to. */
  predicate IsFoldedLower(c: char) {
    || 'a' <= c <= 'z'
    || ('\U{E0}' <= c <= '\U{FE}' && c != '\U{F7}')
    || ('\U{3B1}' <= c <= '\U{3CB}' && c != '\U{3C2}')
    || '\U{430}' <= c <= '\U{45F}'
  }

  /** The capital a folded small letter came from. */
  function UpperChar(c: char): char
    requires IsFoldedLower(c)
  {
    if '\U{450}' <= c <= '\U{45F}' then (c as int - 80) as char else (c as int - 32) as char
  }

  /** Lower-casing of one character: a capital becomes its small letter, anything else is kept. */
  function LowerChar(c: char): (r: char)
    ensures !IsUpper(r)
    ensures IsUpper(c) ==> IsFoldedLower(r) && UpperChar(r) == c
    ensures !IsUpper(c) ==> r == c
  {
    if '\U{400}' <= c <= '\U{40F}' then (c as int + 80) as char
    else if IsUpper(c) then (c as int + 32) as char
    else c
  }

  /**
   * `ToLower()`: the same length, no capital left, every capital replaced by its own
   * small letter and every other character kept.
   */
  function ToLower(s: string): (r: string)
    ensures |r| == |s|
    ensures forall i :: 0 <= i < |s| ==> !IsUpper(r[i])
    ensures forall i :: 0 <= i < |s| && IsUpper(s[i]) ==> IsFoldedLower(r[i]) && UpperChar(r[i]) == s[i]
    ensures forall i :: 0 <= i < |s| && !IsUpper(s[i]) ==> r[i] == s[i]
  {
    seq(|s|, i requires 0 <= i < |s| => LowerChar(s[i]))
  }

  /** `name == name.ToLower()`. */
  predicate IsLowerCase(name: string) {
    name == ToLower(name)
  }

  /** A name passes the lower-case guard exactly when it has no capital letter, and lower-casing always produces such a name. */
  lemma IsLowerCaseCharacterwise(name: string)
    ensures IsLowerCase(name) <==> forall i :: 0 <= i < |name| ==> !IsUpper(name[i])
    ensures IsLowerCase(ToLower(name))
  {
    if !IsLowerCase(name) {
      var i :| 0 <= i < |name| && ToLower(name)[i] != name[i];
      assert IsUpper(name[i]);
    }
    var low := ToLower(name);
    assert forall i :: 0 <= i < |low| ==> !IsUpper(low[i]);
  }

  /** A name with an accented capital fails the guard, as it does with .NET's `ToLower()`. */
  lemma AccentedCapitalRefused()
    ensures !IsLowerCase("\U{C9}a") && ToLower("\U{C9}a") == "\U{E9}a"
  {
    assert ToLower("\U{C9}a")[0] == '\U{E9}';
  }

  lemma CreatedByJSVIsLowerCase()
    ensures IsLowerCase(CreatedByJSV)
  {
    IsLowerCaseCharacterwise(CreatedByJSV);
  }

  /** The object handed to `SetProperty`, by its run-time .NET type. */
  datatype DotNetValue =
    | NullValue
    | BoolValue(b: bool)
    | ByteArray(data: seq<bv8>)
    | DoubleValue(x: real)
    | IntValue(i: int)
    | StringValue(s: string)
    | ProxyValue(p: JsObject)
    | OtherValue(typeName: string)

  /**
   * The JavaScript value `SetProperty` writes for `v`: one of the six accepted types, a
   * JSVException for any other type, and a NullReferenceException for null (the error
   * message asks the value for its type).
   */
  function Marshal(v: DotNetValue): (r: Result<JsValue>) {
    match v
    case BoolValue(b) => Ok(Boolean(b))
    case ByteArray(data) => Ok(Bytes(data))
    case DoubleValue(x) => Ok(Number(x))
    case IntValue(i) => Ok(Number(i as real))
    case StringValue(s) => Ok(Text(s))
    case ProxyValue(p) => Ok(NodeValue(p.node))
    case OtherValue(_) => Err(JsvError)
    case NullValue => Err(NullReference)
  }

  /** What `GetProperty` reports about one property. */
  datatype PropInfo = PropInfo(name: string, propType: string, value: Option<JsValue>, notHandled: bool)

  /** The classification in `GetProperty`, by the property's `typeof`. */
  function Classify(name: string, v: JsValue): PropInfo {
    var t := TypeOf(v);
    if t == "object" || t == "boolean" || t == "number" || t == "string" then PropInfo(name, t, Some(v), false)
    else PropInfo(name, t, None, true)
  }

  /**
   * Only undefined, function, bigint and symbol properties are reported as not handled,
   * always without a value; every other property is reported with its value.
   */
  lemma ClassifyNotHandled(name: string, v: JsValue)
    ensures var info := Classify(name, v);
      && info.name == name && info.propType == TypeOf(v)
      && (info.notHandled <==> v.Undefined? || v.Function? || v.BigInt? || v.Symbol?)
      && (info.value.None? <==> info.notHandled)
      && (info.value.Some? ==> info.value.value == v)
  {
  }

  /**
   * Every value `SetProperty` accepts is one `GetProperty` can report back: a written
   * property is never classified as not handled.
   */
  lemma MarshalledValuesAreHandled(name: string, v: DotNetValue)
    ensures Marshal(v).Ok? <==> !v.NullValue? && !v.OtherValue?
    ensures Marshal(v).Ok? ==> Classify(name, Marshal(v).value) == PropInfo(name, TypeOf(Marshal(v).value), Some(Marshal(v).value), false)
  {
  }

  /** `EventHandlerToken`: the owner is the element whose map holds it. */
  datatype Token = Token(eventType: string, id: int)

  /** The tokens recorded for `eventType`, or none. */
  function TokensOf(byType: map<string, set<Token>>, eventType: string): set<Token> {
    if eventType in byType then byType[eventType] else {}
  }

  /** The listener ids of all recorded tokens. */
  function TokenIds(byType: map<string, set<Token>>): set<int> {
    set t, e | e in byType && t in byType[e] :: t.id
  }

  /** `byType` after a token is added under its event type. */
  function WithToken(byType: map<string, set<Token>>, t: Token): map<string, set<Token>> {
    byType[t.eventType := TokensOf(byType, t.eventType) + {t}]
  }

  /** `byType` after `RemoveWhere(t => t.Id == id)` on the set for `eventType`. */
  function WithoutId(byType: map<string, set<Token>>, eventType: string, id: int): map<string, set<Token>> {
    if eventType in byType then byType[eventType := set t | t in byType[eventType] && t.id != id] else byType
  }

  /** Adding a token and then removing its id from its event type restores that type's tokens, unless the id was already there; other types are never touched. */
  lemma {:induction false} TokenAddRemove(byType: map<string, set<Token>>, t: Token)
    ensures forall e :: e != t.eventType ==> TokensOf(WithToken(byType, t), e) == TokensOf(byType, e)
    ensures forall e :: e != t.eventType ==> TokensOf(WithoutId(byType, t.eventType, t.id), e) == TokensOf(byType, e)
    ensures t in TokensOf(WithToken(byType, t), t.eventType)
    ensures (forall u :: u in TokensOf(byType, t.eventType) ==> u.id != t.id) ==>
      TokensOf(WithoutId(WithToken(byType, t), t.eventType, t.id), t.eventType) == TokensOf(byType, t.eventType)
    ensures forall u :: u in TokensOf(WithoutId(byType, t.eventType, t.id), t.eventType) ==> u.id != t.id
  {
    var before := TokensOf(byType, t.eventType);
    if forall u :: u in before ==> u.id != t.id {
      var after := TokensOf(WithoutId(WithToken(byType, t), t.eventType, t.id), t.eventType);
      assert after == set u | u in before + {t} && u.id != t.id;
      assert after == before;
    }
  }

  /** The outcome of `GetJSObject`: its result, the element's ephemeral proxy after it, the cache after it and the next proxy handle. */
  datatype Lookup = Lookup(result: Result<JsObject>, ephemeral: Option<JsObject>, cache: map<string, JsObject>, nextHandle: nat)

  /** `GetJSObject` as a function of the element's fields, the cache and the browser. */
  function Resolve(isDisposed: bool, ephemeral: Option<JsObject>, id: string, cache: map<string, JsObject>, env: Env): Lookup {
    if isDisposed then Lookup(Err(ObjectDisposed), ephemeral, cache, env.nextHandle)
    else if ephemeral.Some? && ephemeral.value.handle !in env.disposed then
      Lookup(Ok(ephemeral.value), ephemeral, cache, env.nextHandle)
    else
      var f := Fetch(cache, id, env);
      Lookup(f.result, None, f.cache, f.nextHandle)
  }

  /**
   * The ephemeral proxy's lifecycle is one-way: a lookup either keeps it or clears it,
   * never installs another, and once it is gone every lookup goes to the cache. A
   * disposed element fails with ObjectDisposedException and changes nothing.
   */
  lemma ResolveLifecycle(isDisposed: bool, ephemeral: Option<JsObject>, id: string, cache: map<string, JsObject>, env: Env)
    ensures var l := Resolve(isDisposed, ephemeral, id, cache, env);
      && (l.ephemeral == ephemeral || l.ephemeral.None?)
      && (isDisposed ==> l == Lookup(Err(ObjectDisposed), ephemeral, cache, env.nextHandle))
      && (!isDisposed && ephemeral.None? ==> l == Lookup(Fetch(cache, id, env).result, None, Fetch(cache, id, env).cache, Fetch(cache, id, env).nextHandle))
  {
  }

  /**
   * A disposed ephemeral proxy is dropped and never returned: the element is looked up
   * by id through the cache instead.
   */
  lemma {:induction false} ResolveDropsDisposedEphemeral(p: JsObject, id: string, cache: map<string, JsObject>, env: Env)
    requires p.handle in env.disposed
    ensures var l := Resolve(false, Some(p), id, cache, env);
      && l.ephemeral.None? && l.result == Fetch(cache, id, env).result
      && (l.result.Ok? && p.handle < env.nextHandle && EnvValid(env) && Bounded(cache, env.nextHandle) ==> l.result.value != p)
  {
    if p.handle < env.nextHandle && EnvValid(env) && Bounded(cache, env.nextHandle) {
      FetchResult(cache, id, env);
    }
  }

  /**
   * An element whose ephemeral proxy is disposed while the element is not in the
   * document, and which has no live cached proxy, can no longer be looked up at all:
   * the lookup falls through to the document, which does not index it.
   */
  lemma {:induction false} DeadEphemeralUnreachable(p: JsObject, id: string, cache: map<string, JsObject>, env: Env)
    requires p.handle in env.disposed && id !in env.byId && (id !in cache || !Alive(cache[id], env))
    ensures Resolve(false, Some(p), id, cache, env).result == Err(JsvError)
  {
  }

  /** An undisposed ephemeral proxy is what the next lookup returns, whatever the document holds. */
  lemma {:induction false} LiveEphemeralResolves(p: JsObject, id: string, cache: map<string, JsObject>, env: Env)
    requires p.handle !in env.disposed
    ensures Resolve(false, Some(p), id, cache, env) == Lookup(Ok(p), Some(p), cache, env.nextHandle)
  {
  }

  /** A lookup writes at most the cache entry for the element's own id. */
  lemma {:induction false} ResolveCacheFrame(isDisposed: bool, ephemeral: Option<JsObject>, id: string, cache: map<string, JsObject>, env: Env)
    ensures Resolve(isDisposed, ephemeral, id, cache, env).cache - {id} == cache - {id}
  {
    FetchFrame(cache, id, env);
  }

  class Element {
    const id: string
    var isDisposed: bool
    /** The element's own proxy, held only while it is not yet in the document. */
    var ephemeral: Option<JsObject>
    var listenersByType: map<string, set<Token>>

    /** The ephemeral proxy was handed out by `rt`. */
    ghost predicate Valid(rt: JsRuntime)
      reads this, rt
    {
      ephemeral.Some? ==> ephemeral.value.handle < rt.nextHandle
    }

    /** `new Element(id, jSObject)`. */
    constructor(id: string, proxy: Option<JsObject>)
      ensures this.id == id && ephemeral == proxy && !isDisposed && listenersByType == map[]
    {
      this.id := id;
      ephemeral := proxy;
      isDisposed := false;
      listenersByType := map[];
    }

    /** `GetJSObject()`. */
    method GetJSObject(cache: JsObjectCache, rt: JsRuntime) returns (r: Result<JsObject>)
      requires Valid(rt) && cache.Valid(rt)
      modifies this`ephemeral, cache, rt
      ensures Valid(rt) && cache.Valid(rt)
      ensures Lookup(r, ephemeral, cache.cache, rt.nextHandle)
        == Resolve(isDisposed, old(ephemeral), id, old(cache.cache), old(JsObjectCache.EnvOf(rt)))
      ensures rt.dom == old(rt.dom) && rt.disposed == old(rt.disposed) && rt.collected == old(rt.collected)
      ensures rt.nextHandle >= old(rt.nextHandle)
      ensures cache.cache - {id} == old(cache.cache) - {id}
      ensures r.Ok? ==> r.value.handle < rt.nextHandle && !rt.IsDisposed(r.value)
    {
      if isDisposed {
        return Err(ObjectDisposed);
      }
      if ephemeral.Some? && rt.IsDisposed(ephemeral.value) {
        ephemeral := None;
      }
      if ephemeral.Some? {
        return Ok(ephemeral.value);
      }
      r := cache.GetOrCreate(id, rt);
    }

    /**
     * `SetProperty(propName, propVal)`: "id" is refused before any lookup, then the
     * value is marshalled by its type and written through the element's proxy.
     */
    method SetProperty(propName: string, propVal: DotNetValue, cache: JsObjectCache, rt: JsRuntime) returns (o: Outcome)
      requires Valid(rt) && cache.Valid(rt)
      modifies this`ephemeral, cache, rt
      ensures Valid(rt) && cache.Valid(rt)
      ensures rt.disposed == old(rt.disposed) && rt.collected == old(rt.collected)
      ensures propName == "id" ==> o == Fail(JsvError) && unchanged(this, cache, rt)
      ensures propName != "id" ==>
        var l := Resolve(isDisposed, old(ephemeral), id, old(cache.cache), old(JsObjectCache.EnvOf(rt)));
        && ephemeral == l.ephemeral && cache.cache == l.cache && rt.nextHandle == l.nextHandle
        && (l.result.Err? ==> o == Fail(l.result.error) && rt.dom == old(rt.dom))
        && (l.result.Ok? && Marshal(propVal).Err? ==> o == Fail(Marshal(propVal).error) && rt.dom == old(rt.dom))
        && (l.result.Ok? && Marshal(propVal).Ok? ==>
              o == Pass && rt.dom == AfterSetProperty(old(rt.dom), l.result.value.node, propName, Marshal(propVal).value, rt.parseIds))
    {
      if propName == "id" {
        return Fail(JsvError);
      }
      var js := GetJSObject(cache, rt);
      if js.Err? {
        return Fail(js.error);
      }
      var v := Marshal(propVal);
      if v.Err? {
        return Fail(v.error);
      }
      rt.SetProperty(js.value, propName, v.value);
      o := Pass;
    }

    /**
     * The form-element writes `SetFormElemValue(v)` and `SetFormElemChecked(v)`: the value,
     * already a JavaScript value (a null argument is JavaScript null), is written to the
     * `value` or `checked` property through the element's proxy.
     */
    method SetFormElem(propName: string, v: JsValue, cache: JsObjectCache, rt: JsRuntime) returns (o: Outcome)
      requires Valid(rt) && cache.Valid(rt)
      modifies this`ephemeral, cache, rt
      ensures Valid(rt) && cache.Valid(rt)
      ensures rt.disposed == old(rt.disposed) && rt.collected == old(rt.collected)
      ensures var l := Resolve(isDisposed, old(ephemeral), id, old(cache.cache), old(JsObjectCache.EnvOf(rt)));
        && ephemeral == l.ephemeral && cache.cache == l.cache && rt.nextHandle == l.nextHandle
        && (l.result.Err? ==> o == Fail(l.result.error) && rt.dom == old(rt.dom))
        && (l.result.Ok? ==> o == Pass && rt.dom == AfterSetProperty(old(rt.dom), l.result.value.node, propName, v, rt.parseIds))
    {
      var js := GetJSObject(cache, rt);
      if js.Err? {
        return Fail(js.error);
      }
      rt.SetProperty(js.value, propName, v);
      o := Pass;
    }

    /**
     * `GetProperty(propName)`: a property the element does not have is a JSVException;
     * otherwise it is classified by its `typeof`.
     */
    method GetProperty(propName: string, cache: JsObjectCache, rt: JsRuntime) returns (r: Result<PropInfo>)
      requires Valid(rt) && cache.Valid(rt)
      modifies this`ephemeral, cache, rt
      ensures Valid(rt) && cache.Valid(rt)
      ensures rt.dom == old(rt.dom) && rt.disposed == old(rt.disposed) && rt.collected == old(rt.collected)
      ensures var l := Resolve(isDisposed, old(ephemeral), id, old(cache.cache), old(JsObjectCache.EnvOf(rt)));
        && ephemeral == l.ephemeral && cache.cache == l.cache && rt.nextHandle == l.nextHandle
        && (l.result.Err? ==> r == Err(l.result.error))
        && (l.result.Ok? && (l.result.value.node, propName) !in rt.dom.props ==> r == Err(JsvError))
        && (l.result.Ok? && (l.result.value.node, propName) in rt.dom.props ==>
              r == Ok(Classify(propName, rt.dom.props[(l.result.value.node, propName)])))
    {
      var js := GetJSObject(cache, rt);
      if js.Err? {
        return Err(js.error);
      }
      if (js.value.node, propName) !in rt.dom.props {
        return Err(JsvError);
      }
      r := Ok(Classify(propName, rt.dom.props[(js.value.node, propName)]));
    }

    /**
     * `InvokeFuncProp(funcPropName, args)`: the property must exist and be a function;
     * what the function then does is not modelled.
     */
    method InvokeFuncProp(funcPropName: string, cache: JsObjectCache, rt: JsRuntime) returns (o: Outcome)
      requires Valid(rt) && cache.Valid(rt)
      modifies this`ephemeral, cache, rt
      ensures Valid(rt) && cache.Valid(rt)
      ensures rt.dom == old(rt.dom) && rt.disposed == old(rt.disposed) && rt.collected == old(rt.collected)
      ensures ephemeral == old(ephemeral) || ephemeral.None?
      ensures var l := Resolve(isDisposed, old(ephemeral), id, old(cache.cache), old(JsObjectCache.EnvOf(rt)));
        && (l.result.Err? ==> o == Fail(l.result.error))
        && (l.result.Ok? ==>
              var key := (l.result.value.node, funcPropName);
              && (key !in rt.dom.props ==> o == Fail(JsvError))
              && (key in rt.dom.props ==> (o == Pass <==> TypeOf(rt.dom.props[key]) == "function"))
              && (key in rt.dom.props && TypeOf(rt.dom.props[key]) != "function" ==> o == Fail(JsvError)))
    {
      var info := GetProperty(funcPropName, cache, rt);
      if info.Err? {
        return Fail(info.error);
      }
      if info.value.propType != "function" {
        return Fail(JsvError);
      }
      var js := GetJSObject(cache, rt);
      if js.Err? {
        return Fail(js.error);
      }
      o := Pass;
    }

    /** `GetMultiSelectOptionValues()`: the element's `options`, read through its proxy. */
    method GetMultiSelectOptionValues(options: seq<ElementJs.OptionElement>, cache: JsObjectCache, rt: JsRuntime) returns (r: Result<seq<string>>)
      requires Valid(rt) && cache.Valid(rt)
      modifies this`ephemeral, cache, rt
      ensures Valid(rt) && cache.Valid(rt)
      ensures rt.dom == old(rt.dom) && rt.disposed == old(rt.disposed) && rt.collected == old(rt.collected)
      ensures var l := Resolve(isDisposed, old(ephemeral), id, old(cache.cache), old(JsObjectCache.EnvOf(rt)));
        && ephemeral == l.ephemeral && cache.cache == l.cache && rt.nextHandle == l.nextHandle
        && (l.result.Err? ==> r == Err(l.result.error))
        && (l.result.Ok? ==> r == Ok(ElementJs.SelectedValues(options)))
    {
      var js := GetJSObject(cache, rt);
      if js.Err? {
        return Err(js.error);
      }
      var values := ElementJs.GetMultiSelectOptionValues(options);
      r := Ok(values);
    }

    /**
     * `AppendChild(childElem)`: appends the child's node under this element's node; when
     * that connects the child, its proxy is disposed and its ephemeral proxy cleared, so
     * that from then on it is reached through the cache.
     */
    method AppendChild(child: Element, cache: JsObjectCache, rt: JsRuntime) returns (r: Result<Element>)
      requires Valid(rt) && child.Valid(rt) && cache.Valid(rt)
      modifies this`ephemeral, child`ephemeral, cache, rt
      ensures Valid(rt) && child.Valid(rt) && cache.Valid(rt)
      ensures rt.collected == old(rt.collected) && rt.nextHandle >= old(rt.nextHandle)
      ensures ephemeral == old(ephemeral) || ephemeral.None?
      ensures child.ephemeral == old(child.ephemeral) || child.ephemeral.None?
      ensures r.Ok? ==> r.value == child
      ensures var lp := Resolve(isDisposed, old(ephemeral), id, old(cache.cache), old(JsObjectCache.EnvOf(rt)));
        && (lp.result.Err? ==> r == Err(lp.result.error) && rt.dom == old(rt.dom) && rt.disposed == old(rt.disposed))
        && (lp.result.Ok? ==>
              var lc := Resolve(child.isDisposed, if child == this then lp.ephemeral else old(child.ephemeral), child.id,
                                lp.cache, old(JsObjectCache.EnvOf(rt)).(nextHandle := lp.nextHandle));
              && cache.cache == lc.cache && rt.nextHandle == lc.nextHandle
              && (lc.result.Err? ==> r == Err(lc.result.error) && rt.dom == old(rt.dom) && rt.disposed == old(rt.disposed))
              && (lc.result.Ok? && lc.result.value.node == lp.result.value.node ==>
                    r == Err(JsError) && rt.dom == old(rt.dom) && rt.disposed == old(rt.disposed))
              && (lc.result.Ok? && lc.result.value.node != lp.result.value.node ==>
                    && r == Ok(child) && child != this
                    && rt.dom == WithChildAppended(old(rt.dom), lp.result.value.node, lc.result.value.node)
                    && (lc.result.value.node in rt.dom.connected <==> lp.result.value.node in old(rt.dom.connected))
                    && (lc.result.value.node in rt.dom.connected ==>
                          child.ephemeral.None? && rt.disposed == old(rt.disposed) + {lc.result.value.handle})
                    && (lc.result.value.node !in rt.dom.connected ==>
                          child.ephemeral == lc.ephemeral && rt.disposed == old(rt.disposed))))
    {
      var parentJs := GetJSObject(cache, rt);
      if parentJs.Err? {
        return Err(parentJs.error);
      }
      var childJs := child.GetJSObject(cache, rt);
      if childJs.Err? {
        return Err(childJs.error);
      }
      r := Attach(parentJs.value, childJs.value, child, rt);
    }

    /**
     * The part of `AppendChild` after both proxies are resolved: the browser call, then,
     * when the child now sits in the document, its proxy is disposed and its ephemeral
     * proxy cleared.
     */
    static method Attach(parentJs: JsObject, childJs: JsObject, child: Element, rt: JsRuntime) returns (r: Result<Element>)
      requires rt.Valid() && childJs.handle < rt.nextHandle
      modifies child`ephemeral, rt
      ensures rt.Valid() && rt.nextHandle == old(rt.nextHandle) && rt.collected == old(rt.collected)
      ensures parentJs.node == childJs.node ==>
        r == Err(JsError) && rt.dom == old(rt.dom) && rt.disposed == old(rt.disposed) && child.ephemeral == old(child.ephemeral)
      ensures parentJs.node != childJs.node ==>
        && r == Ok(child)
        && rt.dom == WithChildAppended(old(rt.dom), parentJs.node, childJs.node)
        && (childJs.node in rt.dom.connected ==> child.ephemeral.None? && rt.disposed == old(rt.disposed) + {childJs.handle})
        && (childJs.node !in rt.dom.connected ==> child.ephemeral == old(child.ephemeral) && rt.disposed == old(rt.disposed))
    {
      var appended := rt.AppendChild(parentJs, childJs);
      if appended.Fail? {
        return Err(appended.error);
      }
      if childJs.node in rt.dom.connected {
        rt.Dispose(childJs);
        child.ephemeral := None;
      }
      r := Ok(child);
    }

    /** `HasAttribute(attrName)`: refuses a name that is not lower case. */
    method HasAttribute(attrName: string, cache: JsObjectCache, rt: JsRuntime) returns (r: Result<bool>)
      requires Valid(rt) && cache.Valid(rt)
      modifies this`ephemeral, cache, rt
      ensures Valid(rt) && cache.Valid(rt)
      ensures rt.dom == old(rt.dom) && rt.disposed == old(rt.disposed) && rt.collected == old(rt.collected)
      ensures !IsLowerCase(attrName) ==> r == Err(JsvError) && unchanged(this, cache, rt)
      ensures IsLowerCase(attrName) ==>
        var l := Resolve(isDisposed, old(ephemeral), id, old(cache.cache), old(JsObjectCache.EnvOf(rt)));
        && ephemeral == l.ephemeral && cache.cache == l.cache && rt.nextHandle == l.nextHandle
        && (l.result.Err? ==> r == Err(l.result.error))
        && (l.result.Ok? ==> r == Ok((l.result.value.node, attrName) in rt.dom.attrs))
    {
      if !IsLowerCase(attrName) {
        return Err(JsvError);
      }
      var js := GetJSObject(cache, rt);
      if js.Err? {
        return Err(js.error);
      }
      r := Ok((js.value.node, attrName) in rt.dom.attrs);
    }

    /** `GetAttribute(attrName)`: refuses a name that is not lower case; an absent attribute is null. */
    method GetAttribute(attrName: string, cache: JsObjectCache, rt: JsRuntime) returns (r: Result<Option<string>>)
      requires Valid(rt) && cache.Valid(rt)
      modifies this`ephemeral, cache, rt
      ensures Valid(rt) && cache.Valid(rt)
      ensures rt.dom == old(rt.dom) && rt.disposed == old(rt.disposed) && rt.collected == old(rt.collected)
      ensures !IsLowerCase(attrName) ==> r == Err(JsvError) && unchanged(this, cache, rt)
      ensures IsLowerCase(attrName) ==>
        var l := Resolve(isDisposed, old(ephemeral), id, old(cache.cache), old(JsObjectCache.EnvOf(rt)));
        && ephemeral == l.ephemeral && cache.cache == l.cache && rt.nextHandle == l.nextHandle
        && (l.result.Err? ==> r == Err(l.result.error))
        && (l.result.Ok? ==> var key := (l.result.value.node, attrName);
              r == Ok(if key in rt.dom.attrs then Some(rt.dom.attrs[key]) else None))
    {
      if !IsLowerCase(attrName) {
        return Err(JsvError);
      }
      var js := GetJSObject(cache, rt);
      if js.Err? {
        return Err(js.error);
      }
      var key := (js.value.node, attrName);
      r := Ok(if key in rt.dom.attrs then Some(rt.dom.attrs[key]) else None);
    }

    /** `SetAttribute(attrName, attrValue)`: refuses a name that is not lower case, then "id". */
    method SetAttribute(attrName: string, attrValue: string, cache: JsObjectCache, rt: JsRuntime) returns (o: Outcome)
      requires Valid(rt) && cache.Valid(rt)
      modifies this`ephemeral, cache, rt
      ensures Valid(rt) && cache.Valid(rt)
      ensures rt.disposed == old(rt.disposed) && rt.collected == old(rt.collected)
      ensures !IsLowerCase(attrName) || attrName == "id" ==> o == Fail(JsvError) && unchanged(this, cache, rt)
      ensures IsLowerCase(attrName) && attrName != "id" ==>
        var l := Resolve(isDisposed, old(ephemeral), id, old(cache.cache), old(JsObjectCache.EnvOf(rt)));
        && ephemeral == l.ephemeral && cache.cache == l.cache && rt.nextHandle == l.nextHandle
        && (l.result.Err? ==> o == Fail(l.result.error) && rt.dom == old(rt.dom))
        && (l.result.Ok? ==> o == Pass && rt.dom == old(rt.dom).(attrs := old(rt.dom.attrs)[(l.result.value.node, attrName) := attrValue]))
    {
      if !IsLowerCase(attrName) {
        return Fail(JsvError);
      }
      if attrName == "id" {
        return Fail(JsvError);
      }
      var js := GetJSObject(cache, rt);
      if js.Err? {
        return Fail(js.error);
      }
      rt.SetAttribute(js.value, attrName, attrValue);
      o := Pass;
    }

    /** `IsJSV`: whether the element carries the framework's marker attribute. */
    method IsJSV(cache: JsObjectCache, rt: JsRuntime) returns (r: Result<bool>)
      requires Valid(rt) && cache.Valid(rt)
      modifies this`ephemeral, cache, rt
      ensures Valid(rt) && cache.Valid(rt)
      ensures rt.dom == old(rt.dom) && rt.disposed == old(rt.disposed) && rt.collected == old(rt.collected)
      ensures var l := Resolve(isDisposed, old(ephemeral), id, old(cache.cache), old(JsObjectCache.EnvOf(rt)));
        && (l.result.Err? ==> r == Err(l.result.error))
        && (l.result.Ok? ==> r == Ok((l.result.value.node, CreatedByJSV) in rt.dom.attrs))
    {
      CreatedByJSVIsLowerCase();
      r := HasAttribute(CreatedByJSV, cache, rt);
    }

    /**
     * `AddEventListener(eventType, handler)`, with `listenerId` the id the .NET handler
     * pool assigned to the handler. The proxy it looks up is disposed on the way out
     * (`using var js`), also when the JavaScript side throws.
     */
    method AddEventListener(eventType: string, listenerId: int, cache: JsObjectCache, rt: JsRuntime, pool: ElementJs.ListenerPool)
      returns (r: Result<Token>)
      requires Valid(rt) && cache.Valid(rt)
      modifies this`ephemeral, this`listenersByType, cache, rt, pool
      ensures Valid(rt) && cache.Valid(rt)
      ensures rt.dom == old(rt.dom) && rt.collected == old(rt.collected)
      ensures var l := Resolve(isDisposed, old(ephemeral), id, old(cache.cache), old(JsObjectCache.EnvOf(rt)));
        && ephemeral == l.ephemeral && cache.cache == l.cache && rt.nextHandle == l.nextHandle
        && (l.result.Err? ==>
              r == Err(l.result.error) && rt.disposed == old(rt.disposed)
              && pool.State() == old(pool.State()) && listenersByType == old(listenersByType))
        && (l.result.Ok? ==> rt.disposed == old(rt.disposed) + {l.result.value.handle})
        && (l.result.Ok? && listenerId in old(pool.funcSpace) ==>
              r == Err(JsError) && pool.State() == old(pool.State()) && listenersByType == old(listenersByType))
        && (l.result.Ok? && listenerId !in old(pool.funcSpace) ==>
              && r == Ok(Token(eventType, listenerId))
              && pool.State() == ElementJs.Added(old(pool.State()), l.result.value.node, eventType, listenerId)
              && listenersByType == WithToken(old(listenersByType), Token(eventType, listenerId)))
      ensures !isDisposed && old(ephemeral).Some? && old(ephemeral).value.handle !in old(rt.disposed) ==>
        ephemeral == old(ephemeral) && ephemeral.value.handle in rt.disposed
    {
      var js := GetJSObject(cache, rt);
      if js.Err? {
        return Err(js.error);
      }
      r := Listen(js.value, eventType, listenerId, true, rt, pool);
    }

    /**
     * The part of `AddEventListener` after the proxy is looked up: element.js attaches
     * the listener, `release` says whether the proxy is disposed on the way out, and the
     * token joins the set for its event type.
     */
    method Listen(js: JsObject, eventType: string, listenerId: int, release: bool, rt: JsRuntime, pool: ElementJs.ListenerPool)
      returns (r: Result<Token>)
      requires rt.Valid() && js.handle < rt.nextHandle
      modifies this`listenersByType, rt`disposed, pool
      ensures rt.Valid() && rt.disposed == old(rt.disposed) + (if release then {js.handle} else {})
      ensures listenerId in old(pool.funcSpace) ==>
        r == Err(JsError) && pool.State() == old(pool.State()) && listenersByType == old(listenersByType)
      ensures listenerId !in old(pool.funcSpace) ==>
        && r == Ok(Token(eventType, listenerId))
        && pool.State() == ElementJs.Added(old(pool.State()), js.node, eventType, listenerId)
        && listenersByType == WithToken(old(listenersByType), Token(eventType, listenerId))
    {
      var count := pool.AddEventListener(js.node, eventType, listenerId);
      if release {
        rt.Dispose(js);
      }
      if count.Err? {
        return Err(count.error);
      }
      listenersByType := WithToken(listenersByType, Token(eventType, listenerId));
      r := Ok(Token(eventType, listenerId));
    }

    /**
     * `AddEventListener` as evidently intended: the proxy is released on the way out only
     * when it came from the cache, which hands out a fresh one next time. The ephemeral
     * proxy of an element not yet in the document stays live, so the element can still
     * be appended afterwards.
     */
    method AddEventListenerKeepingProxy(eventType: string, listenerId: int, cache: JsObjectCache, rt: JsRuntime, pool: ElementJs.ListenerPool)
      returns (r: Result<Token>)
      requires Valid(rt) && cache.Valid(rt)
      modifies this`ephemeral, this`listenersByType, cache, rt, pool
      ensures Valid(rt) && cache.Valid(rt)
      ensures rt.dom == old(rt.dom) && rt.collected == old(rt.collected)
      ensures var l := Resolve(isDisposed, old(ephemeral), id, old(cache.cache), old(JsObjectCache.EnvOf(rt)));
        && ephemeral == l.ephemeral && cache.cache == l.cache && rt.nextHandle == l.nextHandle
        && (l.result.Err? ==>
              r == Err(l.result.error) && rt.disposed == old(rt.disposed)
              && pool.State() == old(pool.State()) && listenersByType == old(listenersByType))
        && (l.result.Ok? ==> rt.disposed == old(rt.disposed) + (if l.ephemeral.Some? then {} else {l.result.value.handle}))
        && (l.result.Ok? && listenerId in old(pool.funcSpace) ==>
              r == Err(JsError) && pool.State() == old(pool.State()) && listenersByType == old(listenersByType))
        && (l.result.Ok? && listenerId !in old(pool.funcSpace) ==>
              && r == Ok(Token(eventType, listenerId))
              && pool.State() == ElementJs.Added(old(pool.State()), l.result.value.node, eventType, listenerId)
              && listenersByType == WithToken(old(listenersByType), Token(eventType, listenerId)))
      ensures !isDisposed && old(ephemeral).Some? && old(ephemeral).value.handle !in old(rt.disposed) ==>
        ephemeral == old(ephemeral) && ephemeral.value.handle !in rt.disposed
    {
      var js := GetJSObject(cache, rt);
      if js.Err? {
        return Err(js.error);
      }
      r := Listen(js.value, eventType, listenerId, ephemeral.None?, rt, pool);
    }

    /**
     * The private `RemoveEventListener(id, eventType)` a token's `Dispose` calls: detaches
     * the listener on the JavaScript side, disposes the proxy it looked up, and drops every
     * token with that id from the set for `eventType`.
     */
    method RemoveEventListener(listenerId: int, eventType: string, cache: JsObjectCache, rt: JsRuntime, pool: ElementJs.ListenerPool)
      returns (o: Outcome)
      requires Valid(rt) && cache.Valid(rt)
      modifies this`ephemeral, this`listenersByType, cache, rt, pool
      ensures Valid(rt) && cache.Valid(rt)
      ensures rt.dom == old(rt.dom) && rt.collected == old(rt.collected)
      ensures cache.cache - {id} == old(cache.cache) - {id}
      ensures var l := Resolve(isDisposed, old(ephemeral), id, old(cache.cache), old(JsObjectCache.EnvOf(rt)));
        && ephemeral == l.ephemeral && cache.cache == l.cache && rt.nextHandle == l.nextHandle
        && (l.result.Err? ==>
              o == Fail(l.result.error) && rt.disposed == old(rt.disposed)
              && pool.State() == old(pool.State()) && listenersByType == old(listenersByType))
        && (l.result.Ok? ==>
              && o == Pass
              && rt.disposed == old(rt.disposed) + {l.result.value.handle}
              && pool.State() == ElementJs.Removed(old(pool.State()), l.result.value.node, eventType, listenerId)
              && listenersByType == WithoutId(old(listenersByType), eventType, listenerId))
    {
      var js := GetJSObject(cache, rt);
      if js.Err? {
        return Fail(js.error);
      }
      var count := pool.RemoveEventListener(js.value.node, eventType, listenerId);
      rt.Dispose(js.value);
      listenersByType := WithoutId(listenersByType, eventType, listenerId);
      o := Pass;
    }

    /**
     * `Dispose()`: disposes every recorded token (in the sets' enumeration order, which
     * is left open), empties the token map, forgets the cached proxy and marks the
     * element disposed. A second call returns at once. When a token's removal throws,
     * the exception stops the disposal and the element is not marked disposed.
     */
    method Dispose(cache: JsObjectCache, rt: JsRuntime, pool: ElementJs.ListenerPool) returns (o: Outcome)
      requires Valid(rt) && cache.Valid(rt)
      modifies this`ephemeral, this`listenersByType, this`isDisposed, cache, rt, pool
      ensures Valid(rt) && cache.Valid(rt)
      ensures rt.dom == old(rt.dom) && rt.collected == old(rt.collected)
      ensures ephemeral == old(ephemeral) || ephemeral.None?
      ensures old(isDisposed) ==> o == Pass && unchanged(this, cache, rt, pool)
      ensures !old(isDisposed) && o.Pass? ==>
        && isDisposed && listenersByType == map[]
        && cache.cache == ObjectCache.Removed(old(cache.cache), id)
        && pool.funcSpace.Keys == old(pool.funcSpace.Keys) - TokenIds(old(listenersByType))
      ensures o.Fail? ==> !isDisposed
    {
      if isDisposed {
        return Pass;
      }
      var remaining := set t, e | e in listenersByType && t in listenersByType[e] :: t;
      ghost var done: set<Token> := {};
      while remaining != {}
        invariant Valid(rt) && cache.Valid(rt) && !isDisposed
        invariant rt.dom == old(rt.dom) && rt.collected == old(rt.collected)
        invariant ephemeral == old(ephemeral) || ephemeral.None?
        invariant cache.cache - {id} == old(cache.cache) - {id}
        invariant remaining + done == set t, e | e in old(listenersByType) && t in old(listenersByType)[e] :: t
        invariant pool.funcSpace.Keys == old(pool.funcSpace.Keys) - (set t | t in done :: t.id)
        decreases remaining
      {
        var tok :| tok in remaining;
        o := RemoveEventListener(tok.id, tok.eventType, cache, rt, pool);
        if o.Fail? {
          return o;
        }
        remaining := remaining - {tok};
        done := done + {tok};
      }
      assert (set t | t in done :: t.id) == TokenIds(old(listenersByType));
      listenersByType := map[];
      cache.Remove(id);
      isDisposed := true;
      o := Pass;
    }
  }
}

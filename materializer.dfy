/**
 * `JSVComponentMaterializer`: turns a serialized component instance back into a live
 * component placed in the document. The steps run in a fixed order (decode the
 * instance, decode its metadata, read the unique name and the type name, instantiate,
 * decode the state, render, initialize, apply the state), and each can throw.
 *
 * `Type.GetType` with `Activator.CreateInstance` is a table from assembly-qualified
 * name to what constructing that type yields.
 */
module Materializer {
  import opened Wrappers
  import opened Browser
  import opened ElementFacade
  import opened DocumentFacade
  import opened Metadata
  import opened Components
  import opened Widgets
  import opened Rendering
  import opened ObjectCache
  import ElementJs

  /** What `Type.GetType(aqn)` then `(JSVComponent?)Activator.CreateInstance(type, uniqueName)` yields for a known name. */
  datatype TypeEntry =
    | ComponentType(kind: Kind)   // a component class, constructed from the unique name
    | NullConstructing            // `CreateInstance` returns null
    | NotAComponent               // the cast to JSVComponent fails

  /**
   * The class an assembly-qualified name resolves to: an unknown name and a null
   * construction are ArgumentExceptions, a type that is not a component is an
   * InvalidCastException.
   */
  function ResolveType(types: map<string, TypeEntry>, compTypeAQN: string): (r: Result<Kind>)
    ensures r.Ok? <==> compTypeAQN in types && types[compTypeAQN].ComponentType?
    ensures r.Ok? ==> r.value == types[compTypeAQN].kind
    ensures compTypeAQN !in types ==> r == Err(ArgumentError)
    ensures r.Err? ==> r.error == (if compTypeAQN in types && types[compTypeAQN].NotAComponent? then InvalidCast else ArgumentError)
  {
    if compTypeAQN !in types then Err(ArgumentError)
    else match types[compTypeAQN]
      case ComponentType(k) => Ok(k)
      case NullConstructing => Err(ArgumentError)
      case NotAComponent => Err(InvalidCast)
  }

  /** `mdDict[key]` on the dictionary of `items`: the last value under `key`, or KeyNotFoundException. */
  function Lookup(items: seq<Item>, key: string): Result<string> {
    match LastValue(items, key)
    case Some(v) => Ok(v)
    case None => Err(KeyNotFound)
  }

  /** What the steps before rendering produce: the unique name, the component class and the decoded state. */
  datatype Plan = Plan(uniqueName: string, kind: Kind, stateDto: CompDataDto)

  /**
   * The steps of `InstantiateAndRenderFromJson` that come before any DOM access, in
   * their order; the first that throws decides the exception.
   */
  function PlanFromJson(ser: Serializers, types: map<string, TypeEntry>, instanceDtoJson: string): Result<Plan> {
    var instanceDto :- Decode(ser.instance, instanceDtoJson);
    var items :- Decode(ser.metadata, instanceDto.metadataJson);
    var uniqueName :- Lookup(items, "UnqPrefix");
    var compTypeAQN :- Lookup(items, "CompTypeAQN");
    var kind :- ResolveType(types, compTypeAQN);
    var stateDto :- Decode(ser.state(kind), instanceDto.stateJson);
    Ok(Plan(uniqueName, kind, stateDto))
  }

  /**
   * What `SerializeInstance` of a constructed component produces is planned back into
   * the same unique name, class and state, provided the serializers are lawful and the
   * component's own type name resolves to its class.
   */
  lemma {:induction false} PlanRoundTrip(ser: Serializers, types: map<string, TypeEntry>, platform: Platform,
                                         k: Kind, uniqueName: string, stateDto: CompDataDto)
    requires LawfulSerializers(ser)
    requires platform.typeNames(k) in types && types[platform.typeNames(k)] == ComponentType(k)
    ensures var items := InitialMetadata(uniqueName, platform.typeNames(k));
      PlanFromJson(ser, types, ser.instance.encode(SerializeInstance(ser, k, items, stateDto)))
        == Ok(Plan(uniqueName, k, stateDto))
  {
    var items := InitialMetadata(uniqueName, platform.typeNames(k));
    InstanceRoundTrip(ser, k, items, stateDto);
    InitialMetadataKeys(uniqueName, platform.typeNames(k));
  }

  /** A missing "UnqPrefix" or "CompTypeAQN" item stops the plan with KeyNotFoundException, before instantiation. */
  lemma {:induction false} MissingKeyStopsPlan(ser: Serializers, types: map<string, TypeEntry>, instanceDtoJson: string)
    requires Decode(ser.instance, instanceDtoJson).Ok?
    requires var items := Decode(ser.metadata, Decode(ser.instance, instanceDtoJson).value.metadataJson);
      items.Ok? && ("UnqPrefix" !in Names(items.value) || "CompTypeAQN" !in Names(items.value))
    ensures PlanFromJson(ser, types, instanceDtoJson) == Err(KeyNotFound)
  {
    var items := Decode(ser.metadata, Decode(ser.instance, instanceDtoJson).value.metadataJson).value;
    LastValueDefined(items, "UnqPrefix");
    LastValueDefined(items, "CompTypeAQN");
  }

  /**
   * `Instantiate(uniqueName, compTypeAQN)`: a new component of the resolved class,
   * whose constructor has recorded its unique name and its own type name.
   */
  method Instantiate(uniqueName: string, compTypeAQN: string, types: map<string, TypeEntry>, platform: Platform)
    returns (r: Result<Component>)
    ensures r.Err? <==> ResolveType(types, compTypeAQN).Err?
    ensures r.Err? ==> r.error == ResolveType(types, compTypeAQN).error
    ensures r.Ok? ==> r.value.KindOf() == ResolveType(types, compTypeAQN).value
    ensures r.Ok? ==> fresh(r.value.Objects()) && fresh(r.value.Core()) && fresh(r.value.Core().metadata)
    ensures r.Ok? ==>
      && r.value.Core().renderer == Wrapping
      && r.value.Core().metadata.list == InitialMetadata(uniqueName, platform.typeNames(r.value.KindOf()))
  {
    var kind := ResolveType(types, compTypeAQN);
    if kind.Err? {
      return Err(kind.error);
    }
    match kind.value
    case TextInputKind =>
      var w := new TextInput(uniqueName, platform);
      r := Ok(TextInputC(w));
    case CheckboxKind =>
      var w := new Checkbox(uniqueName, platform);
      r := Ok(CheckboxC(w));
    case ButtonKind =>
      var w := new Button(uniqueName, platform);
      r := Ok(ButtonC(w));
    case SliderKind =>
      var w := new Slider(uniqueName, platform);
      r := Ok(SliderC(w));
    case TextDisplayKind =>
      var w := new TextDisplay(uniqueName, platform);
      r := Ok(TextDisplayC(w));
    case BareKind =>
      var core := new ComponentCore(uniqueName, platform.typeNames(BareKind));
      r := Ok(BareC(core));
  }

  /**
   * The append mode's effect on the document: a new div named `uniqueName` was appended
   * under node `parent`, and then the HTML was written to that div's outerHTML.
   */
  ghost predicate AppendedAndWritten(before: DomState, after: DomState, uniqueName: string, parent: Option<NodeRef>,
                                     html: string, parseIds: string -> seq<string>)
    requires before.Valid()
  {
    && parent.Some?
    && PropertyWritten(WithDivAppended(before, uniqueName, parent.value), after, Some(before.nodeCount), "outerHTML", Text(html), parseIds)
  }

  /** Appending the div, then writing to that div's outerHTML, is what the append mode does. */
  lemma AppendedThenWritten(before: DomState, mid: DomState, after: DomState, uniqueName: string, parent: Option<NodeRef>,
                            div: Option<NodeRef>, html: string, parseIds: string -> seq<string>)
    requires before.Valid() && parent.Some? && mid == WithDivAppended(before, uniqueName, parent.value)
    requires div == Some(before.nodeCount) && PropertyWritten(mid, after, div, "outerHTML", Text(html), parseIds)
    ensures AppendedAndWritten(before, after, uniqueName, parent, html, parseIds)
  {
  }

  /** The document after a new div named `uniqueName` was appended under node `parent`. */
  function WithDivAppended(before: DomState, uniqueName: string, parent: NodeRef): (r: DomState)
    requires before.Valid()
    ensures r.Valid() && r.nodeCount == before.nodeCount + 1
    ensures before.nodeCount in r.connected <==> parent in before.connected
  {
    WithChildAppended(WithNewElement(before, uniqueName, "div", CreatedByJSV), parent, before.nodeCount)
  }

  /**
   * The append branch of `Render`: `referenceElem.AppendChild(Document.CreateElement(uniqueName, "div"))`.
   * A unique name already registered is a JSVException before anything changes.
   */
  method AppendNewDiv(referenceElem: Element, uniqueName: string, page: Page) returns (o: Outcome)
    requires page.Valid() && referenceElem in page.doc.jsvElements.Values
    modifies page.Repr()
    ensures page.Valid() && page.rt.collected == old(page.rt.collected) && fresh(page.Repr() - old(page.Repr()))
    ensures uniqueName in old(page.doc.jsvElements) ==> o == Fail(JsvError) && page.rt.dom == old(page.rt.dom)
    ensures o.Pass? ==> uniqueName !in old(page.doc.jsvElements) && uniqueName in page.doc.jsvElements
    ensures o.Pass? ==>
      && old(page.Target(referenceElem.id)).Some?
      && page.rt.dom == WithDivAppended(old(page.rt.dom), uniqueName, old(page.Target(referenceElem.id)).value)
    ensures o.Pass? && uniqueName !in old(page.rt.dom.byId) && uniqueName !in old(page.cache.cache) ==>
      page.Target(uniqueName) == Some(old(page.rt.dom.nodeCount))
  {
    var div := CreateDiv(referenceElem, uniqueName, page);
    if div.Err? {
      return Fail(div.error);
    }
    ghost var mid := page.rt.dom;
    assert (mid.nodeCount - 1, "id") in mid.attrs && mid.attrs[(mid.nodeCount - 1, "id")] == uniqueName;
    assert page.doc.jsvElements[uniqueName] == div.value;
    o := AppendDiv(referenceElem, div.value, page);
  }

  /** `Document.CreateElement(uniqueName, "div")`, which moves the reference element's target nowhere. */
  method CreateDiv(referenceElem: Element, uniqueName: string, page: Page) returns (div: Result<Element>)
    requires page.Valid() && referenceElem in page.doc.jsvElements.Values
    modifies page.doc, page.rt
    ensures page.Valid() && page.rt.collected == old(page.rt.collected) && fresh(page.Repr() - old(page.Repr()))
    ensures uniqueName in old(page.doc.jsvElements) ==> div == Err(JsvError) && page.rt.dom == old(page.rt.dom)
    ensures div.Ok? ==>
      && uniqueName !in old(page.doc.jsvElements) && page.doc.jsvElements == old(page.doc.jsvElements)[uniqueName := div.value]
      && div.value.id == uniqueName && !div.value.isDisposed
      && div.value.ephemeral == Some(JsObject(old(page.rt.nextHandle), old(page.rt.dom.nodeCount)))
      && old(page.rt.nextHandle) !in page.rt.disposed
      && page.rt.dom == WithNewElement(old(page.rt.dom), uniqueName, "div", CreatedByJSV)
      && page.cache.cache == old(page.cache.cache)
      && referenceElem.id in page.doc.jsvElements && page.doc.jsvElements[referenceElem.id] == referenceElem
      && page.Target(referenceElem.id) == old(page.Target(referenceElem.id))
  {
    ghost var env0 := JsObjectCache.EnvOf(page.rt);
    assert page.doc.jsvElements[referenceElem.id] == referenceElem && referenceElem.Valid(page.rt);
    div := page.doc.CreateElement(uniqueName, "div", page.rt);
    if div.Ok? {
      assert page.doc.jsvElements[referenceElem.id] == referenceElem;
      TargetIgnoresLookups(old(page.Entry(referenceElem.id)), page.Entry(referenceElem.id), referenceElem.id, page.cache.cache, env0, JsObjectCache.EnvOf(page.rt));
    }
  }

  /** `referenceElem.AppendChild(div)` for the div `CreateDiv` made, node `nodeCount - 1` of the document. */
  method AppendDiv(referenceElem: Element, div: Element, page: Page) returns (o: Outcome)
    requires page.Valid() && referenceElem.id in page.doc.jsvElements && page.doc.jsvElements[referenceElem.id] == referenceElem
    requires div.id in page.doc.jsvElements && page.doc.jsvElements[div.id] == div
    requires referenceElem.id != div.id && !div.isDisposed && page.rt.dom.nodeCount > 0
    requires div.ephemeral.Some? && div.ephemeral.value.node == page.rt.dom.nodeCount - 1 && div.ephemeral.value.handle !in page.rt.disposed
    modifies referenceElem`ephemeral, div`ephemeral, page.cache, page.rt
    ensures page.Valid() && page.rt.collected == old(page.rt.collected) && fresh(page.Repr() - old(page.Repr()))
    ensures o.Pass? ==>
      && old(page.Target(referenceElem.id)).Some?
      && page.rt.dom == WithChildAppended(old(page.rt.dom), old(page.Target(referenceElem.id)).value, old(page.rt.dom.nodeCount) - 1)
    ensures o.Pass? && div.id !in old(page.rt.dom.byId) && div.id !in old(page.cache.cache)
            && (old(page.rt.dom.nodeCount) - 1, "id") in old(page.rt.dom.attrs) && old(page.rt.dom.attrs)[(old(page.rt.dom.nodeCount) - 1, "id")] == div.id ==>
      page.Target(div.id) == Some(old(page.rt.dom.nodeCount) - 1)
  {
    o := AppendChildTo(referenceElem, div, page);
    ghost var n := old(page.rt.dom.nodeCount) - 1;
    if o.Pass? && div.id !in old(page.rt.dom.byId) && div.id !in old(page.cache.cache) && (n, "id") in old(page.rt.dom.attrs) && old(page.rt.dom.attrs)[(n, "id")] == div.id {
      assert div.id !in old(page.cache.cache) - {referenceElem.id};
      assert page.doc.jsvElements[div.id] == div && div.id !in page.cache.cache;
      if n in page.rt.dom.connected {
        AppendedIdIndexed(old(page.rt.dom), old(page.Target(referenceElem.id)).value, n, div.id);
        assert page.rt.dom.byId[div.id] == n;
      }
      NewDivTarget(page, div.id, n);
    }
  }

  /** `referenceElem.AppendChild(div)`: where the div's own proxy and the cache stand afterwards. */
  method AppendChildTo(referenceElem: Element, div: Element, page: Page) returns (o: Outcome)
    requires page.Valid() && referenceElem.id in page.doc.jsvElements && page.doc.jsvElements[referenceElem.id] == referenceElem
    requires div.id in page.doc.jsvElements && page.doc.jsvElements[div.id] == div
    requires referenceElem.id != div.id && !div.isDisposed && page.rt.dom.nodeCount > 0
    requires div.ephemeral.Some? && div.ephemeral.value.node == page.rt.dom.nodeCount - 1 && div.ephemeral.value.handle !in page.rt.disposed
    modifies referenceElem`ephemeral, div`ephemeral, page.cache, page.rt
    ensures page.Valid() && page.rt.collected == old(page.rt.collected) && fresh(page.Repr() - old(page.Repr()))
    ensures o.Pass? ==>
      && old(page.Target(referenceElem.id)).Some?
      && page.rt.dom == WithChildAppended(old(page.rt.dom), old(page.Target(referenceElem.id)).value, old(page.rt.dom.nodeCount) - 1)
    ensures o.Pass? ==>
      && page.cache.cache - {referenceElem.id} == old(page.cache.cache) - {referenceElem.id}
      && (old(page.rt.dom.nodeCount) - 1 in page.rt.dom.connected ==> div.ephemeral.None?)
      && (old(page.rt.dom.nodeCount) - 1 !in page.rt.dom.connected ==>
            div.ephemeral == old(div.ephemeral) && page.rt.disposed == old(page.rt.disposed))
  {
    ghost var env1 := JsObjectCache.EnvOf(page.rt);
    ghost var cache1 := page.cache.cache;
    ResolveCacheFrame(referenceElem.isDisposed, referenceElem.ephemeral, referenceElem.id, cache1, env1);
    var lp := Resolve(referenceElem.isDisposed, referenceElem.ephemeral, referenceElem.id, cache1, env1);
    LiveEphemeralResolves(div.ephemeral.value, div.id, lp.cache, env1.(nextHandle := lp.nextHandle));
    var appended := referenceElem.AppendChild(div, page.cache, page.rt);
    if appended.Err? {
      return Fail(appended.error);
    }
    o := Pass;
    assert old(page.Target(referenceElem.id)) == Some(lp.result.value.node);
  }


  /** A connected child with a fresh id attribute is entered in the document's id index under it. */
  lemma AppendedIdIndexed(d: DomState, parent: NodeRef, n: NodeRef, id: string)
    requires d.Valid() && parent in d.connected && id !in d.byId
    requires (n, "id") in d.attrs && d.attrs[(n, "id")] == id
    ensures WithChildAppended(d, parent, n).byId == d.byId[id := n]
  {
  }

  /**
   * The new div is what its name resolves to: through its own proxy while it is outside
   * the document, through the document's index once it has joined it.
   */
  lemma NewDivTarget(page: Page, uniqueName: string, n: NodeRef)
    requires page.Entry(uniqueName).Some? && !page.Entry(uniqueName).value.isDisposed
    requires var p := page.Entry(uniqueName).value.ephemeral;
      || (p.Some? && p.value.node == n && p.value.handle !in page.rt.disposed)
      || (p.None? && uniqueName !in page.cache.cache && uniqueName in page.rt.dom.byId && page.rt.dom.byId[uniqueName] == n)
    ensures page.Target(uniqueName) == Some(n)
  {
  }

  /**
   * `Render(uniqueName, aComp, referenceElementId, append)`. The HTML is rendered
   * first; then a missing reference element is a JSVException. In replace mode the
   * reference element's outerHTML becomes the HTML; in append mode a new div named
   * `uniqueName` is created and appended to it, and its outerHTML becomes the HTML.
   * Whenever it returns, it returns true.
   */
  method Render(uniqueName: string, c: Component, referenceElementId: string, append: bool, page: Page)
    returns (r: Result<bool>)
    requires page.Valid()
    modifies page.Repr()
    ensures page.Valid() && page.rt.collected == old(page.rt.collected) && fresh(page.Repr() - old(page.Repr()))
    ensures Rendered(c).Err? ==> r == Err(KeyNotFound) && unchanged(page.doc, page.cache, page.rt)
    ensures Rendered(c).Ok? && referenceElementId !in old(page.doc.jsvElements) && referenceElementId !in old(page.rt.dom.byId) ==>
      r == Err(JsvError) && page.rt.dom == old(page.rt.dom)
    ensures append && uniqueName in old(page.doc.jsvElements) ==> r.Err? && page.rt.dom == old(page.rt.dom)
    ensures r.Ok? ==> r == Ok(true) && Rendered(c).Ok?
    ensures r.Ok? && !append ==>
      PropertyWritten(old(page.rt.dom), page.rt.dom, old(page.Target(referenceElementId)), "outerHTML", Text(Rendered(c).value), page.rt.parseIds)
    ensures r.Ok? && append ==> uniqueName !in old(page.doc.jsvElements) && uniqueName in page.doc.jsvElements
    ensures r.Ok? && append ==> old(page.Target(referenceElementId)).Some?
    ensures r.Ok? && append && uniqueName !in old(page.rt.dom.byId) && uniqueName !in old(page.cache.cache) ==>
      AppendedAndWritten(old(page.rt.dom), page.rt.dom, uniqueName, old(page.Target(referenceElementId)), Rendered(c).value, page.rt.parseIds)
  {
    var htmlCB := Rendering.Render(c);
    if htmlCB.Err? {
      return Err(htmlCB.error);
    }
    var componentHtml := htmlCB.value.Written();
    ghost var rendered := Rendered(c);
    assert componentHtml == rendered.value;
    ComponentApart(c, page);
    var o := Place(uniqueName, componentHtml, referenceElementId, append, page);
    assert Rendered(c) == rendered;
    if o.Fail? {
      return Err(o.error);
    }
    r := Ok(true);
  }

  /** The objects of a component are none of the page's objects: they are of other classes. */
  lemma ComponentApart(c: Component, page: Page)
    ensures c.Core() !in page.Repr() && c.Core().metadata !in page.Repr()
  {
  }

  /** The document part of `Render`, given the rendered HTML. */
  method Place(uniqueName: string, componentHtml: string, referenceElementId: string, append: bool, page: Page)
    returns (o: Outcome)
    requires page.Valid()
    modifies page.Repr()
    ensures page.Valid() && page.rt.collected == old(page.rt.collected) && fresh(page.Repr() - old(page.Repr()))
    ensures referenceElementId !in old(page.doc.jsvElements) && referenceElementId !in old(page.rt.dom.byId) ==>
      o == Fail(JsvError) && page.rt.dom == old(page.rt.dom)
    ensures append && uniqueName in old(page.doc.jsvElements) ==> o.Fail? && page.rt.dom == old(page.rt.dom)
    ensures o.Pass? && !append ==>
      PropertyWritten(old(page.rt.dom), page.rt.dom, old(page.Target(referenceElementId)), "outerHTML", Text(componentHtml), page.rt.parseIds)
    ensures o.Pass? && append ==> uniqueName !in old(page.doc.jsvElements) && uniqueName in page.doc.jsvElements
    ensures o.Pass? && append ==> old(page.Target(referenceElementId)).Some?
    ensures o.Pass? && append && uniqueName !in old(page.rt.dom.byId) && uniqueName !in old(page.cache.cache) ==>
      AppendedAndWritten(old(page.rt.dom), page.rt.dom, uniqueName, old(page.Target(referenceElementId)), componentHtml, page.rt.parseIds)
  {
    var referenceElem := Find(page, referenceElementId);
    if referenceElem.Err? {
      return Fail(referenceElem.error);
    }
    assert page.Target(referenceElementId) == old(page.Target(referenceElementId));
    if append {
      o := AppendAndWrite(referenceElem.value, uniqueName, componentHtml, page);
    } else {
      assert Marshal(StringValue(componentHtml)) == Ok(Text(componentHtml));
      o := WriteProperty(page, referenceElem.value, "outerHTML", StringValue(componentHtml));
    }
  }

  /** `SetProperty("outerHTML", html)` on the element registered under `id`. */
  method WriteOuterHtml(id: string, html: string, page: Page) returns (o: Outcome)
    requires page.Valid()
    modifies page.Repr()
    ensures page.Valid() && page.rt.collected == old(page.rt.collected) && fresh(page.Repr() - old(page.Repr()))
    ensures o.Pass? ==> id in page.doc.jsvElements && PropertyWritten(old(page.rt.dom), page.rt.dom, old(page.Target(id)), "outerHTML", Text(html), page.rt.parseIds)
    ensures id !in old(page.doc.jsvElements) && id !in old(page.rt.dom.byId) ==> o == Fail(JsvError)
    ensures o.Fail? ==> page.rt.dom == old(page.rt.dom)
  {
    assert Marshal(StringValue(html)) == Ok(Text(html));
    o := SetPropertyOf(page, id, "outerHTML", StringValue(html));
  }

  /**
   * The append mode of `Render`: a new div named `uniqueName` is appended to the
   * reference element, then looked up by that name and its outerHTML set to the HTML.
   */
  method AppendAndWrite(referenceElem: Element, uniqueName: string, componentHtml: string, page: Page) returns (o: Outcome)
    requires page.Valid() && referenceElem in page.doc.jsvElements.Values
    modifies page.Repr()
    ensures page.Valid() && page.rt.collected == old(page.rt.collected) && fresh(page.Repr() - old(page.Repr()))
    ensures uniqueName in old(page.doc.jsvElements) ==> o == Fail(JsvError) && page.rt.dom == old(page.rt.dom)
    ensures o.Pass? ==> uniqueName !in old(page.doc.jsvElements) && uniqueName in page.doc.jsvElements
    ensures o.Pass? ==> old(page.Target(referenceElem.id)).Some?
    ensures o.Pass? && uniqueName !in old(page.rt.dom.byId) && uniqueName !in old(page.cache.cache) ==>
      AppendedAndWritten(old(page.rt.dom), page.rt.dom, uniqueName, old(page.Target(referenceElem.id)), componentHtml, page.rt.parseIds)
  {
    o := AppendNewDiv(referenceElem, uniqueName, page);
    if o.Fail? {
      return;
    }
    ghost var mid := page.rt.dom;
    ghost var div := page.Target(uniqueName);
    o := WriteOuterHtml(uniqueName, componentHtml, page);
    if o.Pass? && uniqueName !in old(page.rt.dom.byId) && uniqueName !in old(page.cache.cache) {
      AppendedThenWritten(old(page.rt.dom), mid, page.rt.dom, uniqueName, old(page.Target(referenceElem.id)), div, componentHtml, page.rt.parseIds);
    }
  }

  /**
   * `InstantiateAndRenderFromJson(instanceDtoJson, referenceElementId, append)`.
   * Everything `PlanFromJson` checks is checked before the document is touched, so a
   * malformed or null instance, metadata or state, a missing key or an unknown type
   * leaves the document, the registries and the listener pool as they were. After
   * rendering, `Initialize` and `UpdateState` both run, and the result is the
   * conjunction of the three step results (each true whenever the step returns). On
   * success the new component holds the decoded state. The listener ids are those
   * the handler pool gives the keys a slider registers.
   */
  method InstantiateAndRenderFromJson(instanceDtoJson: string, referenceElementId: string, append: bool,
                                      ser: Serializers, types: map<string, TypeEntry>, platform: Platform,
                                      page: Page, pool: ElementJs.ListenerPool, changeListenerId: int, resetListenerId: int)
    returns (r: Result<bool>, ghost comp: Option<Component>)
    requires page.Valid()
    modifies page.Repr(), pool
    ensures page.Valid() && page.rt.collected == old(page.rt.collected) && fresh(page.Repr() - old(page.Repr()))
    ensures PlanFromJson(ser, types, instanceDtoJson).Err? ==>
      && r == Err(PlanFromJson(ser, types, instanceDtoJson).error)
      && unchanged(page.doc, page.cache, page.rt) && pool.State() == old(pool.State())
    ensures r.Ok? ==> r == Ok(true) && PlanFromJson(ser, types, instanceDtoJson).Ok? && comp.Some?
    ensures r.Ok? && PlanFromJson(ser, types, instanceDtoJson).Ok? && comp.Some? ==>
      var plan := PlanFromJson(ser, types, instanceDtoJson).value;
      && comp.value.KindOf() == plan.kind
      && (comp.value.TextDisplayC? || GetState(comp.value) == Ok(StoredState(plan.kind, plan.stateDto)))
  {
    comp := None;
    var instanceDto := Decode(ser.instance, instanceDtoJson);
    if instanceDto.Err? {
      return Err(instanceDto.error), comp;
    }
    var items := Decode(ser.metadata, instanceDto.value.metadataJson);
    if items.Err? {
      return Err(items.error), comp;
    }
    var compMetadata := new CompMetadata.FromItems(items.value);
    var mdDict := ToDictionary(compMetadata);
    LastValueDefined(items.value, "UnqPrefix");
    LastValueDefined(items.value, "CompTypeAQN");
    if "UnqPrefix" !in mdDict {
      return Err(KeyNotFound), comp;
    }
    var uniqueName := mdDict["UnqPrefix"];
    if "CompTypeAQN" !in mdDict {
      return Err(KeyNotFound), comp;
    }
    var compTypeAQN := mdDict["CompTypeAQN"];
    var aComp := Instantiate(uniqueName, compTypeAQN, types, platform);
    if aComp.Err? {
      return Err(aComp.error), comp;
    }
    var c := aComp.value;
    var stateDto := Decode(ser.state(c.KindOf()), instanceDto.value.stateJson);
    if stateDto.Err? {
      return Err(stateDto.error), comp;
    }
    assert PlanFromJson(ser, types, instanceDtoJson) == Ok(Plan(uniqueName, c.KindOf(), stateDto.value));
    InitialMetadataKeys(uniqueName, platform.typeNames(c.KindOf()));
    comp := Some(c);
    r := RenderInitializeUpdate(uniqueName, c, stateDto.value, referenceElementId, append, page, pool, changeListenerId, resetListenerId);
  }

  /** The last three steps of `InstantiateAndRenderFromJson`: render, initialize, apply the state. */
  method RenderInitializeUpdate(uniqueName: string, c: Component, stateDto: CompDataDto, referenceElementId: string, append: bool,
                                page: Page, pool: ElementJs.ListenerPool, changeListenerId: int, resetListenerId: int)
    returns (r: Result<bool>)
    requires page.Valid()
    modifies c.Objects(), page.Repr(), pool
    ensures page.Valid() && page.rt.collected == old(page.rt.collected) && fresh(page.Repr() - old(page.Repr()))
    ensures r.Ok? ==> r == Ok(true) && (c.TextDisplayC? || GetState(c) == Ok(StoredState(c.KindOf(), stateDto)))
  {
    var renderSuccess := Render(uniqueName, c, referenceElementId, append, page);
    if renderSuccess.Err? {
      return Err(renderSuccess.error);
    }
    r := InitializeUpdate(c, stateDto, page, pool, changeListenerId, resetListenerId);
    if r.Ok? {
      r := Ok(renderSuccess.value && r.value);
    }
  }

  /** `aComp.Initialize()` then `aComp.UpdateState(stateDto)`, and the conjunction of their results. */
  method InitializeUpdate(c: Component, stateDto: CompDataDto,
                          page: Page, pool: ElementJs.ListenerPool, changeListenerId: int, resetListenerId: int)
    returns (r: Result<bool>)
    requires page.Valid()
    modifies c.Objects(), page.Repr(), pool
    ensures page.Valid() && page.rt.collected == old(page.rt.collected) && fresh(page.Repr() - old(page.Repr()))
    ensures r.Ok? ==> r == Ok(true) && (c.TextDisplayC? || GetState(c) == Ok(StoredState(c.KindOf(), stateDto)))
  {
    var initSuccess := Initialize(c, page, pool, changeListenerId, resetListenerId);
    if initSuccess.Err? {
      return Err(initSuccess.error);
    }
    var updateStateSuccess := UpdateState(c, stateDto, page);
    if updateStateSuccess.Err? {
      return Err(updateStateSuccess.error);
    }
    r := Ok(initSuccess.value && updateStateSuccess.value);
  }
}

/**
 * ZenView: a lighter kind of view than a component. A view is named by a unique name
 * and its own assembly-qualified type name, both carried by a small metadata DTO; its
 * HTML is a Handlebars template filled from its public properties. `ZenViewMaterializer`
 * turns the metadata JSON back into a view and places its HTML in the document,
 * unless an element with the view's unique name is already there.
 *
 * Template rendering is given by the view class: each class maps the unique name it is
 * constructed with to the HTML its `Render()` produces.
 */
module ZenViews {
  import opened Wrappers
  import opened Browser
  import opened DocumentFacade
  import opened ObjectCache
  import opened Components
  import opened ComponentHelpers
  import Materializer

  /** `MetadataDto`: the two required properties of a view's metadata. */
  datatype MetadataDto = MetadataDto(uniqueName: string, viewTypeAQN: string)

  /** A constructed view: its unique name, its own type name, and the HTML its `Render()` returns. */
  datatype View = View(uniqueName: string, viewTypeAQN: string, html: string)

  /** What `Type.GetType(aqn)` then `(ZenView?)Activator.CreateInstance(type, uniqueName)` yields for a known name. */
  datatype ViewEntry =
    | ViewClass(typeAQN: string, render: string -> string) // the class's own name, and its HTML for a unique name
    | NullConstructing                                      // `CreateInstance` returns null
    | NotAView                                              // the cast to ZenView fails

  /** `GetMetadataJson()`: the view's unique name and type name, serialized. */
  function GetMetadataJson(codec: JsonCodec<MetadataDto>, v: View): string {
    codec.encode(MetadataDto(v.uniqueName, v.viewTypeAQN))
  }

  /**
   * `ZenView.Instantiate(uniqueName, compTypeAQN)`: an unknown type name and a null
   * construction are ArgumentExceptions, a class that is not a view is an
   * InvalidCastException. The constructor records the unique name and the class's own
   * assembly-qualified name.
   */
  function Instantiate(types: map<string, ViewEntry>, uniqueName: string, compTypeAQN: string): (r: Result<View>)
    ensures r.Ok? <==> compTypeAQN in types && types[compTypeAQN].ViewClass?
    ensures r.Ok? ==>
      var e := types[compTypeAQN];
      r.value == View(uniqueName, e.typeAQN, e.render(uniqueName))
    ensures compTypeAQN !in types ==> r == Err(ArgumentError)
    ensures r.Err? ==> r.error == (if compTypeAQN in types && types[compTypeAQN].NotAView? then InvalidCast else ArgumentError)
  {
    if compTypeAQN !in types then Err(ArgumentError)
    else match types[compTypeAQN]
      case ViewClass(aqn, render) => Ok(View(uniqueName, aqn, render(uniqueName)))
      case NullConstructing => Err(ArgumentError)
      case NotAView => Err(InvalidCast)
  }

  /** The steps of `Materialize` before the document is touched: decode the metadata, instantiate the view. */
  function PlanView(codec: JsonCodec<MetadataDto>, types: map<string, ViewEntry>, metadataJson: string): Result<View> {
    var mdDto :- Decode(codec, metadataJson);
    Instantiate(types, mdDto.uniqueName, mdDto.viewTypeAQN)
  }

  /**
   * The metadata JSON of a view is planned back into the same view, provided the codec
   * is lawful and the view's type name resolves to its own class.
   */
  lemma {:induction false} ViewRoundTrip(codec: JsonCodec<MetadataDto>, types: map<string, ViewEntry>,
                                         v: View, render: string -> string)
    requires Lawful(codec)
    requires v.viewTypeAQN in types && types[v.viewTypeAQN] == ViewClass(v.viewTypeAQN, render)
    requires v.html == render(v.uniqueName)
    ensures PlanView(codec, types, GetMetadataJson(codec, v)) == Ok(v)
  {
    DecodeEncode(codec, MetadataDto(v.uniqueName, v.viewTypeAQN));
  }

  /** A metadata text the codec reads as null stops `Materialize` with an ArgumentException. */
  lemma {:induction false} NullMetadataRejected(codec: JsonCodec<MetadataDto>, types: map<string, ViewEntry>, metadataJson: string)
    requires codec.decode(metadataJson).JsonNull?
    ensures PlanView(codec, types, metadataJson) == Err(ArgumentError)
  {
    DecodeNullChecked(codec, metadataJson);
  }

  /** `RenderBuilder()`: a new builder holding the view's HTML as its one piece. */
  method RenderBuilder(v: View) returns (htmlCB: HtmlContentBuilder)
    ensures fresh(htmlCB) && htmlCB.parts == [v.html] && htmlCB.Written() == v.html
  {
    htmlCB := new HtmlContentBuilder();
    htmlCB.AppendHtml(v.html);
    ConcatAppend([], v.html);
  }

  /**
   * `ZenViewMaterializer.Render(zView, referenceElementId, append)`: the view's HTML is
   * placed as a component's is. A missing reference element is a JSVException; in
   * replace mode the reference element's outerHTML becomes the HTML; in append mode a
   * new div named after the view is appended and its outerHTML becomes the HTML.
   */
  method Render(v: View, referenceElementId: string, append: bool, page: Page) returns (r: Result<bool>)
    requires page.Valid()
    modifies page.Repr()
    ensures page.Valid() && page.rt.collected == old(page.rt.collected) && fresh(page.Repr() - old(page.Repr()))
    ensures referenceElementId !in old(page.doc.jsvElements) && referenceElementId !in old(page.rt.dom.byId) ==>
      r == Err(JsvError) && page.rt.dom == old(page.rt.dom)
    ensures append && v.uniqueName in old(page.doc.jsvElements) ==> r.Err? && page.rt.dom == old(page.rt.dom)
    ensures r.Ok? ==> r == Ok(true)
    ensures r.Ok? && !append ==> PropertyWritten(old(page.rt.dom), page.rt.dom, old(page.Target(referenceElementId)), "outerHTML", Text(v.html), page.rt.parseIds)
    ensures r.Ok? && append ==> v.uniqueName !in old(page.doc.jsvElements) && v.uniqueName in page.doc.jsvElements
    ensures r.Ok? && append ==> old(page.Target(referenceElementId)).Some?
    ensures r.Ok? && append && v.uniqueName !in old(page.rt.dom.byId) && v.uniqueName !in old(page.cache.cache) ==>
      Materializer.AppendedAndWritten(old(page.rt.dom), page.rt.dom, v.uniqueName, old(page.Target(referenceElementId)), v.html, page.rt.parseIds)
  {
    var htmlCB := RenderBuilder(v);
    var componentHtml := htmlCB.Written();
    var o := Materializer.Place(v.uniqueName, componentHtml, referenceElementId, append, page);
    if o.Fail? {
      return Err(o.error);
    }
    r := Ok(true);
  }

  /**
   * `ZenViewMaterializer.Materialize(metadataJson, referenceElementId, append)`.
   * Decoding and instantiation errors leave the document as it was. A view whose unique
   * name already names a registered element or a DOM element is not rendered again;
   * otherwise it is rendered as `Render` does. Whenever it returns, it returns true.
   */
  method Materialize(metadataJson: string, referenceElementId: string, append: bool,
                     codec: JsonCodec<MetadataDto>, types: map<string, ViewEntry>, page: Page)
    returns (r: Result<bool>)
    requires page.Valid()
    modifies page.Repr()
    ensures page.Valid() && page.rt.collected == old(page.rt.collected) && fresh(page.Repr() - old(page.Repr()))
    ensures PlanView(codec, types, metadataJson).Err? ==>
      r == Err(PlanView(codec, types, metadataJson).error) && unchanged(page.doc, page.cache, page.rt)
    ensures r.Ok? ==> r == Ok(true) && PlanView(codec, types, metadataJson).Ok?
    ensures PlanView(codec, types, metadataJson).Ok? ==>
      var v := PlanView(codec, types, metadataJson).value;
      && (v.uniqueName in old(page.doc.jsvElements) || v.uniqueName in old(page.rt.dom.byId) ==>
            r == Ok(true) && page.rt.dom == old(page.rt.dom))
      && (r.Ok? && v.uniqueName !in old(page.doc.jsvElements) && v.uniqueName !in old(page.rt.dom.byId) && !append ==>
            PropertyWritten(old(page.rt.dom), page.rt.dom, old(page.Target(referenceElementId)), "outerHTML", Text(v.html), page.rt.parseIds))
      && (r.Ok? && append ==> v.uniqueName in page.doc.jsvElements)
      && (r.Ok? && v.uniqueName !in old(page.doc.jsvElements) && v.uniqueName !in old(page.rt.dom.byId) && append ==>
            old(page.Target(referenceElementId)).Some?)
      && (r.Ok? && v.uniqueName !in old(page.doc.jsvElements) && v.uniqueName !in old(page.rt.dom.byId) && v.uniqueName !in old(page.cache.cache) && append ==>
            Materializer.AppendedAndWritten(old(page.rt.dom), page.rt.dom, v.uniqueName, old(page.Target(referenceElementId)), v.html, page.rt.parseIds))
  {
    var mdDto := Decode(codec, metadataJson);
    if mdDto.Err? {
      return Err(mdDto.error);
    }
    var zView := Instantiate(types, mdDto.value.uniqueName, mdDto.value.viewTypeAQN);
    if zView.Err? {
      return Err(zView.error);
    }
    r := MaterializeView(zView.value, referenceElementId, append, page);
  }

  /**
   * The document part of `Materialize`, given the instantiated view: the view is
   * rendered only when `GetElementById` finds nothing under its unique name.
   */
  method MaterializeView(v: View, referenceElementId: string, append: bool, page: Page) returns (r: Result<bool>)
    requires page.Valid()
    modifies page.Repr()
    ensures page.Valid() && page.rt.collected == old(page.rt.collected) && fresh(page.Repr() - old(page.Repr()))
    ensures r.Ok? ==> r == Ok(true)
    ensures v.uniqueName in old(page.doc.jsvElements) || v.uniqueName in old(page.rt.dom.byId) ==>
      r == Ok(true) && page.rt.dom == old(page.rt.dom)
    ensures r.Ok? && v.uniqueName !in old(page.doc.jsvElements) && v.uniqueName !in old(page.rt.dom.byId) && !append ==>
      PropertyWritten(old(page.rt.dom), page.rt.dom, old(page.Target(referenceElementId)), "outerHTML", Text(v.html), page.rt.parseIds)
    ensures r.Ok? && append ==> v.uniqueName in page.doc.jsvElements
    ensures r.Ok? && v.uniqueName !in old(page.doc.jsvElements) && v.uniqueName !in old(page.rt.dom.byId) && append ==>
      old(page.Target(referenceElementId)).Some?
    ensures r.Ok? && v.uniqueName !in old(page.doc.jsvElements) && v.uniqueName !in old(page.rt.dom.byId) && v.uniqueName !in old(page.cache.cache) && append ==>
      Materializer.AppendedAndWritten(old(page.rt.dom), page.rt.dom, v.uniqueName, old(page.Target(referenceElementId)), v.html, page.rt.parseIds)
  {
    ghost var env0 := JsObjectCache.EnvOf(page.rt);
    var existing := page.doc.GetElementById(v.uniqueName, page.rt);
    if existing.None? {
      forall k
        ensures page.Target(k) == old(page.Target(k))
      {
        assert k in page.doc.jsvElements ==> page.doc.jsvElements[k].Valid(page.rt);
        TargetIgnoresLookups(old(page.Entry(k)), page.Entry(k), k, page.cache.cache, env0, JsObjectCache.EnvOf(page.rt));
      }
      r := Render(v, referenceElementId, append, page);
      if r.Err? {
        return;
      }
    }
    r := Ok(true);
  }
}

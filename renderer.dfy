/**
 * `IJSVComponentRenderer`: `JSVComponentRenderer` wraps a component's body in one
 * `<div>` named after the component's "UnqPrefix" metadata item, and `BlackHole`
 * renders nothing at all.
 */
module Rendering {
  import opened Wrappers
  import opened Browser
  import opened Metadata
  import opened Components
  import opened ComponentHelpers
  import opened Widgets

  /** `Environment.NewLine + <div id="uniqueName">`. */
  function OpenTag(uniqueName: string): string {
    NewLine + "<div id=\"" + uniqueName + "\">"
  }

  /** `Environment.NewLine + </div>`. */
  const CloseTag: string := NewLine + "</div>"

  /** The wrapper id can be read back from the opening tag, so different names give different tags. */
  lemma {:induction false} OpenTagInjective(u: string, v: string)
    ensures OpenTag(u) == OpenTag(v) <==> u == v
  {
    if OpenTag(u) == OpenTag(v) {
      var n := |NewLine + "<div id=\""|;
      assert |u| == |v|;
      assert u == OpenTag(u)[n..n + |u|] == OpenTag(v)[n..n + |v|] == v;
    }
  }

  /**
   * The HTML `comp.Renderer.Render(comp)` writes: nothing for `BlackHole`; for the
   * wrapping renderer the body inside a div named by the last "UnqPrefix" item, or
   * KeyNotFoundException when there is none.
   */
  function Rendered(c: Component): Result<string>
    reads c.Core(), c.Core().metadata
  {
    if c.Core().renderer == BlackHole then Ok("")
    else
      match LastValue(c.Core().metadata.list, "UnqPrefix")
      case None => Err(KeyNotFound)
      case Some(u) => Ok(OpenTag(u) + c.BodyHtml() + CloseTag)
  }

  /** A component as its constructor leaves it renders into a div named by its unique name. */
  lemma {:induction false} ConstructedRendersUnderItsName(c: Component, uniqueName: string, typeName: string)
    requires c.Core().renderer == Wrapping && c.Core().metadata.list == InitialMetadata(uniqueName, typeName)
    ensures Rendered(c) == Ok(OpenTag(uniqueName) + c.BodyHtml() + CloseTag)
  {
    InitialMetadataKeys(uniqueName, typeName);
  }

  /**
   * `RenderOpen(comp, htmlCB)`: the wrapper id is the "UnqPrefix" entry of
   * `ToDictionary(comp.Metadata)`, so the last such item; without one the indexer
   * throws KeyNotFoundException and nothing is appended.
   */
  method RenderOpen(c: Component, htmlCB: HtmlContentBuilder) returns (o: Outcome)
    modifies htmlCB
    ensures o.Fail? <==> "UnqPrefix" !in Names(c.Core().metadata.list)
    ensures o.Fail? ==> o == Fail(KeyNotFound) && htmlCB.parts == old(htmlCB.parts)
    ensures o.Pass? ==>
      && LastValue(c.Core().metadata.list, "UnqPrefix").Some?
      && htmlCB.parts == old(htmlCB.parts) + [OpenTag(LastValue(c.Core().metadata.list, "UnqPrefix").value)]
  {
    var mdDict := ToDictionary(c.Core().metadata);
    LastValueDefined(c.Core().metadata.list, "UnqPrefix");
    if "UnqPrefix" !in mdDict {
      return Fail(KeyNotFound);
    }
    htmlCB.AppendHtml(OpenTag(mdDict["UnqPrefix"]));
    o := Pass;
  }

  /** `RenderClose(htmlCB)`. */
  method RenderClose(htmlCB: HtmlContentBuilder)
    modifies htmlCB
    ensures htmlCB.parts == old(htmlCB.parts) + [CloseTag]
  {
    htmlCB.AppendHtml(CloseTag);
  }

  /** The pieces the wrapping renderer appends: the opening tag, the body unless the class has none, the closing tag. */
  function WrappedParts(uniqueName: string, c: Component): seq<string> {
    [OpenTag(uniqueName)] + (if c.BareC? then [] else [c.BodyHtml()]) + [CloseTag]
  }

  /** An opening piece, a body piece that may be absent, and a closing piece, written out. */
  lemma {:induction false} PiecesWritten(open: string, body: string, close: string, bare: bool)
    ensures Concat([open] + (if bare then [] else [body]) + [close]) == open + (if bare then "" else body) + close
  {
    ConcatAppend([], open);
    assert [] + [open] == [open];
    var mid := [open] + (if bare then [] else [body]);
    if !bare {
      ConcatAppend([open], body);
    } else {
      assert mid == [open];
    }
    ConcatAppend(mid, close);
  }

  /**
   * `comp.Renderer.Render(comp)`. `BlackHole` returns a new empty builder. The wrapping
   * renderer returns a new builder holding the opening tag, the body (appended once,
   * and not at all by the base class) and the closing tag, or throws
   * KeyNotFoundException when the metadata has no "UnqPrefix" item.
   */
  method Render(c: Component) returns (r: Result<HtmlContentBuilder>)
    ensures c.Core().renderer == BlackHole ==> r.Ok? && r.value.parts == []
    ensures r.Ok? <==> Rendered(c).Ok?
    ensures r.Err? ==> r.error == KeyNotFound
    ensures r.Ok? ==> fresh(r.value) && r.value.Written() == Rendered(c).value
    ensures r.Ok? && c.Core().renderer == Wrapping ==>
      && LastValue(c.Core().metadata.list, "UnqPrefix").Some?
      && r.value.parts == WrappedParts(LastValue(c.Core().metadata.list, "UnqPrefix").value, c)
  {
    var htmlCB := new HtmlContentBuilder();
    if c.Core().renderer == BlackHole {
      return Ok(htmlCB);
    }
    LastValueDefined(c.Core().metadata.list, "UnqPrefix");
    var o := RenderWrapped(c, htmlCB);
    if o.Fail? {
      return Err(o.error);
    }
    ghost var u := LastValue(c.Core().metadata.list, "UnqPrefix").value;
    PiecesWritten(OpenTag(u), c.BodyHtml(), CloseTag, c.BareC?);
    assert c.BareC? ==> c.BodyHtml() == "";
    r := Ok(htmlCB);
  }

  /** `RenderOpen`, `RenderBody` and `RenderClose` on an empty builder. */
  method RenderWrapped(c: Component, htmlCB: HtmlContentBuilder) returns (o: Outcome)
    requires htmlCB.parts == []
    modifies htmlCB
    ensures o.Fail? <==> "UnqPrefix" !in Names(c.Core().metadata.list)
    ensures o.Fail? ==> o == Fail(KeyNotFound)
    ensures o.Pass? ==>
      && LastValue(c.Core().metadata.list, "UnqPrefix").Some?
      && htmlCB.parts == WrappedParts(LastValue(c.Core().metadata.list, "UnqPrefix").value, c)
  {
    o := RenderOpen(c, htmlCB);
    if o.Fail? {
      return;
    }
    RenderBody(c, htmlCB);
    RenderClose(htmlCB);
  }
}

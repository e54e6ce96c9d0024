/**
 * The browser side of the interop boundary, which the framework reaches through
 * WasmDocument/WasmElement calls: the DOM as an abstract store of nodes, and the
 * .NET JSObject proxies that point at them.
 *
 * A proxy is a value (handle, node); whether it is disposed is whether its handle is
 * in `disposed`, and whether the garbage collector has reclaimed it (so that a
 * WeakReference to it no longer yields a target) is whether its handle is in
 * `collected`. Nothing in the framework adds to `collected`; the environment does.
 */
module Browser {
  import opened Wrappers

  /** `Environment.NewLine` (a Unix line end is assumed). */
  const NewLine: string := "\n"

  type NodeRef = nat

  /** A .NET JSObject proxy: handle `handle` onto the DOM node `node`. */
  datatype JsObject = JsObject(handle: nat, node: NodeRef)

  /** A JavaScript value held in a property. */
  datatype JsValue =
    | Undefined
    | Null
    | Boolean(b: bool)
    | Number(x: real)
    | Text(s: string)
    | Bytes(data: seq<bv8>)
    | NodeValue(n: NodeRef)
    | Function
    | BigInt
    | Symbol

  /** JavaScript's `typeof`. */
  function TypeOf(v: JsValue): string {
    match v
    case Undefined => "undefined"
    case Null => "object"
    case Boolean(_) => "boolean"
    case Number(_) => "number"
    case Text(_) => "string"
    case Bytes(_) => "object"
    case NodeValue(_) => "object"
    case Function => "function"
    case BigInt => "bigint"
    case Symbol => "symbol"
  }

  /**
   * The document: nodes 0 .. nodeCount-1, the ones connected to the document, the
   * index `document.getElementById` answers from, and attributes and properties
   * keyed by (node, name).
   */
  datatype DomState = DomState(
    nodeCount: nat,
    tags: map<NodeRef, string>,
    connected: set<NodeRef>,
    byId: map<string, NodeRef>,
    attrs: map<(NodeRef, string), string>,
    props: map<(NodeRef, string), JsValue>)
  {
    ghost predicate Valid() {
      && (forall n :: n in connected ==> n < nodeCount)
      && (forall i :: i in byId ==> byId[i] in connected)
    }
  }

  /** `n` joins the document; it becomes findable by its id unless that id is already taken. */
  function Connect(d: DomState, n: NodeRef): (r: DomState)
    requires d.Valid()
    ensures r.Valid() && n in r.connected
    ensures forall i :: i in d.byId ==> i in r.byId && r.byId[i] == d.byId[i]
  {
    var byId :=
      if (n, "id") in d.attrs && d.attrs[(n, "id")] !in d.byId
      then d.byId[d.attrs[(n, "id")] := n]
      else d.byId;
    d.(nodeCount := if n < d.nodeCount then d.nodeCount else n + 1,
       connected := d.connected + {n}, byId := byId)
  }

  /** `n` leaves the document, and with it every id index entry that pointed at it. */
  function Disconnect(d: DomState, n: NodeRef): (r: DomState)
    requires d.Valid()
    ensures r.Valid() && n !in r.connected
    ensures forall i :: i in r.byId <==> i in d.byId && d.byId[i] != n
  {
    var byId := map i | i in d.byId && d.byId[i] != n :: d.byId[i];
    d.(connected := d.connected - {n}, byId := byId)
  }

  /** A new `tagName` element, node `nodeCount`, carrying `id` and the attribute `marker`, not in the document. */
  function WithNewElement(d: DomState, id: string, tagName: string, marker: string): (r: DomState)
    requires d.Valid()
    ensures r.Valid() && r.nodeCount == d.nodeCount + 1
    ensures d.nodeCount !in r.connected && r.connected == d.connected && r.byId == d.byId
    ensures d.nodeCount in r.tags && r.tags[d.nodeCount] == tagName && (d.nodeCount, marker) in r.attrs
    ensures marker != "id" ==> (d.nodeCount, "id") in r.attrs && r.attrs[(d.nodeCount, "id")] == id
  {
    var n := d.nodeCount;
    d.(nodeCount := n + 1, tags := d.tags[n := tagName], attrs := d.attrs[(n, "id") := id][(n, marker) := ""])
  }

  /** `parent.appendChild(child)`: the child is connected exactly when the parent is. */
  function WithChildAppended(d: DomState, parent: NodeRef, child: NodeRef): (r: DomState)
    requires d.Valid()
    ensures r.Valid()
    ensures child in r.connected <==> parent in d.connected
  {
    if parent in d.connected then Connect(d, child) else Disconnect(d, child)
  }

  /** New connected element nodes, one per id, in order. */
  function AddConnected(d: DomState, ids: seq<string>): (r: DomState)
    requires d.Valid()
    ensures r.Valid() && r.nodeCount == d.nodeCount + |ids|
    ensures forall m :: m in r.connected ==> m in d.connected || d.nodeCount <= m
    ensures forall i :: i in d.byId ==> i in r.byId && r.byId[i] == d.byId[i]
    ensures forall i :: i in ids ==> i in r.byId
    decreases |ids|
  {
    if ids == [] then d
    else
      var m := d.nodeCount;
      var d' := d.(nodeCount := m + 1, attrs := d.attrs[(m, "id") := ids[0]]);
      AddConnected(Connect(d', m), ids[1..])
  }

  /** Setting `outerHTML` on a connected node: the node leaves the document and the elements parsed from the markup take its place. */
  function ReplaceWithMarkup(d: DomState, n: NodeRef, ids: seq<string>): (r: DomState)
    requires d.Valid() && n in d.connected
    ensures r.Valid() && n !in r.connected
    ensures forall i :: i in ids ==> i in r.byId
  {
    AddConnected(Disconnect(d, n), ids)
  }

  /**
   * The document after `JSObject.SetProperty(name, v)` on node `n`. Writing `outerHTML`
   * replaces a connected node with the parsed markup; on a node outside the document the
   * replacement happens in a detached tree (or not at all, without a parent) and the
   * document stays as it was. Every other write is recorded as the property's new value.
   */
  function AfterSetProperty(d: DomState, n: NodeRef, name: string, v: JsValue, parseIds: string -> seq<string>): (r: DomState)
    requires d.Valid()
    ensures r.Valid()
  {
    if name == "outerHTML" then
      if n in d.connected then ReplaceWithMarkup(d, n, if v.Text? then parseIds(v.s) else []) else d
    else d.(props := d.props[(n, name) := v])
  }

  /**
   * An ordinary property write is read back as written and leaves the document's
   * structure alone; an `outerHTML` write takes a connected node out of the document
   * and makes every element of the new markup findable by its id.
   */
  lemma AfterSetPropertyEffect(d: DomState, n: NodeRef, name: string, v: JsValue, parseIds: string -> seq<string>)
    requires d.Valid()
    ensures var r := AfterSetProperty(d, n, name, v, parseIds);
      && (name != "outerHTML" ==>
            && (n, name) in r.props && r.props[(n, name)] == v
            && r.connected == d.connected && r.byId == d.byId && r.attrs == d.attrs)
      && (name == "outerHTML" && n in d.connected ==>
            && n !in r.connected
            && (v.Text? ==> forall i :: i in parseIds(v.s) ==> i in r.byId))
      && (name == "outerHTML" && n !in d.connected ==> r == d)
  {
  }

  class JsRuntime {
    var dom: DomState
    var nextHandle: nat
    var disposed: set<nat>
    var collected: set<nat>
    /** The ids of the elements the browser's HTML parser builds from a piece of markup. */
    const parseIds: string -> seq<string>

    ghost predicate Valid()
      reads this
    {
      && dom.Valid()
      && (forall h :: h in disposed ==> h < nextHandle)
      && (forall h :: h in collected ==> h < nextHandle)
    }

    /** `JSObject.IsDisposed`. */
    predicate IsDisposed(p: JsObject)
      reads this
    {
      p.handle in disposed
    }

    constructor(initial: DomState, parser: string -> seq<string>)
      requires initial.Valid()
      ensures Valid()
      ensures dom == initial && nextHandle == 0 && disposed == {} && collected == {}
      ensures parseIds == parser
    {
      dom := initial;
      nextHandle := 0;
      disposed := {};
      collected := {};
      parseIds := parser;
    }

    /** A new proxy onto `n`; its handle has never been disposed or collected. */
    method NewProxy(n: NodeRef) returns (p: JsObject)
      requires Valid()
      modifies this
      ensures Valid()
      ensures p == JsObject(old(nextHandle), n) && nextHandle == old(nextHandle) + 1
      ensures !IsDisposed(p) && p.handle !in collected
      ensures dom == old(dom) && disposed == old(disposed) && collected == old(collected)
    {
      p := JsObject(nextHandle, n);
      nextHandle := nextHandle + 1;
    }

    /** `document.getElementById(id)`, wrapped in a new proxy. */
    method GetElementById(id: string) returns (r: Option<JsObject>)
      requires Valid()
      modifies this
      ensures Valid()
      ensures r.Some? <==> id in dom.byId
      ensures r.Some? ==> r.value == JsObject(old(nextHandle), dom.byId[id]) && nextHandle == old(nextHandle) + 1
      ensures r.None? ==> nextHandle == old(nextHandle)
      ensures dom == old(dom) && disposed == old(disposed) && collected == old(collected)
    {
      if id in dom.byId {
        var p := NewProxy(dom.byId[id]);
        r := Some(p);
      } else {
        r := None;
      }
    }

    /** A new `tagName` element carrying `id` and the marker attribute, not yet in the document. */
    method CreateJSVaporizerElement(id: string, tagName: string, marker: string) returns (p: JsObject)
      requires Valid()
      modifies this
      ensures Valid()
      ensures p == JsObject(old(nextHandle), old(dom.nodeCount)) && nextHandle == old(nextHandle) + 1
      ensures dom == WithNewElement(old(dom), id, tagName, marker)
      ensures disposed == old(disposed) && collected == old(collected)
    {
      var n := dom.nodeCount;
      dom := WithNewElement(dom, id, tagName, marker);
      p := NewProxy(n);
    }

    /** `JSObject.Dispose()`. */
    method Dispose(p: JsObject)
      requires Valid() && p.handle < nextHandle
      modifies this`disposed
      ensures Valid() && disposed == old(disposed) + {p.handle}
    {
      disposed := disposed + {p.handle};
    }

    /** The garbage collector reclaims the proxy object behind a weak reference. */
    method Collect(p: JsObject)
      requires Valid() && p.handle < nextHandle
      modifies this`collected
      ensures Valid() && collected == old(collected) + {p.handle}
    {
      collected := collected + {p.handle};
    }

    /** `element.appendChild(child)`; appending a node to itself is a HierarchyRequestError. */
    method AppendChild(parent: JsObject, child: JsObject) returns (o: Outcome)
      requires Valid()
      modifies this`dom
      ensures Valid()
      ensures parent.node == child.node ==> o == Fail(JsError) && dom == old(dom)
      ensures parent.node != child.node ==> o == Pass && dom == WithChildAppended(old(dom), parent.node, child.node)
    {
      if parent.node == child.node {
        return Fail(JsError);
      }
      dom := WithChildAppended(dom, parent.node, child.node);
      o := Pass;
    }

    /** `JSObject.SetProperty(name, value)`. */
    method SetProperty(p: JsObject, name: string, v: JsValue)
      requires Valid()
      modifies this`dom
      ensures Valid()
      ensures dom == AfterSetProperty(old(dom), p.node, name, v, parseIds)
    {
      if name == "outerHTML" {
        if p.node in dom.connected {
          dom := ReplaceWithMarkup(dom, p.node, if v.Text? then parseIds(v.s) else []);
        }
      } else {
        dom := dom.(props := dom.props[(p.node, name) := v]);
      }
    }

    /** `element.setAttribute(name, value)`. */
    method SetAttribute(p: JsObject, name: string, value: string)
      requires Valid()
      modifies this`dom
      ensures Valid()
      ensures dom == old(dom).(attrs := old(dom.attrs)[(p.node, name) := value])
    {
      dom := dom.(attrs := dom.attrs[(p.node, name) := value]);
    }
  }
}

# JSVaporizer bookkeeping layer, in Dafny

JSVaporizer runs a .NET user interface in WebAssembly and reaches the browser through
JavaScript interop. This project models the bookkeeping the framework keeps on the .NET
side, plus the JavaScript module `element.js`, and the components built on it:

- **Handles and listeners** (modules `ElementJs`, `ObjectCache`, `DocumentFacade`,
  `ElementFacade`):
  - the listener pool of `element.js` (an id → listener map, a per-element id set, and
    the DOM registrations it made), its behaviour-code decoding, and the multi-select reader;
  - `JsObjectCache`, one proxy per element id, fetched again when stale;
  - the `Document` registry `_jsvElements` and its reconciliation report;
  - the `Element` facade, with its one-way ephemeral-proxy lifecycle, its guards on "id" and
    on upper-case attribute names, its per-event-type token map and its idempotent `Dispose`.
- **Component base** (modules `Metadata`, `Components`, `ComponentHelpers`, `Rendering`,
  `NuFlexiArch`): the append-only metadata list and its last-wins dictionary, the
  null-checked JSON decodes, the naming helpers, the wrapping renderer and `BlackHole`,
  and the default state accessors of the NuFlexiArch `AComponent`.
- **Materializers** (modules `Materializer`, `ZenViews`): the fixed step sequences that turn
  serialized metadata back into a live component or view placed in the document.
- **Transformer registries** (module `Transformers`): `Get` stamps the key on the
  transformer it returns. `JSVNuFlexiArch/Base/JSVTransformer.cs`,
  `JSVNuFlexiArch/JSVTransformer.cs` and `JSVZenView/Base/ZVTransform.cs` are the same
  code under three names and are modelled once. The table cites the first.
- **Example widgets** (module `Widgets`): text input, checkbox, button, text display and
  slider. Each has setters that store a field and then write the document, `UpdateState`
  / `GetState`, and a body whose element ids come from the widget's unique name.

The browser is module `Browser`. It holds:

- an abstract DOM: nodes, a connected set, an id index, and attribute and property maps;
- the marker attribute on each node;
- proxies with a disposed flag, and a set of proxies the garbage collector has reclaimed;
- a function giving the ids of the elements built when an `outerHTML` write is parsed.

JSON serializers are abstract codecs whose decode yields an exception, null or a value.
Reflective type lookup is a table from assembly-qualified name to what constructing the
type yields. `Environment.NewLine` is `"\n"`.

The C# and JavaScript operations that change state are methods on classes with `modifies`
frames: `Document`, `Element`, `JsObjectCache`, `ListenerPool`, `CompMetadata`,
`HtmlContentBuilder`, the widgets and the transformers. Each is proved against a function
of the old state (`Fetch`, `Removed`, `Added`, `Resolve`, `SelectedValues`, `LastValue`,
`PlanFromJson`, `StoredState`). Lemmas state what those functions promise.

## Model

| member | source | states |
|---|---|---|
| ElementJs.ListenerPool.constructor | JSVaporizer.NET.8/jsvwasm/for_dotnet/element.js:38-41 | The pool starts with no listeners, no per-element sets and no registrations |
| ElementJs.ListenerPool.AddEventListener | JSVaporizer.NET.8/jsvwasm/for_dotnet/element.js:43-73 | An id already in the pool is an error and nothing changes; otherwise the state is `Added` (the id is in the function map, in the element's set and registered on the element) and the result is the pool's new size |
| ElementJs.ListenerPool.RemoveEventListener | JSVaporizer.NET.8/jsvwasm/for_dotnet/element.js:75-91 | The state is `Removed`: the id leaves the function map, its registration and the element's set, and an empty set is dropped; an unknown id changes nothing; the result is the pool's size |
| ElementJs.AddKeepsConsistent | JSVaporizer.NET.8/jsvwasm/for_dotnet/element.js:64-72 | Adding a fresh id keeps the function map, the per-element sets and the registrations in agreement |
| ElementJs.RemoveKeepsConsistent | JSVaporizer.NET.8/jsvwasm/for_dotnet/element.js:79-87 | Removing an id with the element and event type it was added for keeps the three tables in agreement, with no empty set left behind |
| ElementJs.AddThenRemoveRestores | JSVaporizer.NET.8/jsvwasm/for_dotnet/element.js:43-91 | Adding a fresh id and then removing it from the same element restores all three tables exactly |
| ElementJs.EncodeBehaviour | JSVaporizer.NET.8/jsvwasm/for_dotnet/element.js:50-62 | The two-bit code of a behaviour lies in 0..3 |
| ElementJs.DecodeEncode | JSVaporizer.NET.8/jsvwasm/for_dotnet/element.js:50-62 | Decoding the code of a behaviour gives the behaviour back |
| ElementJs.EncodeDecode | JSVaporizer.NET.8/jsvwasm/for_dotnet/element.js:50-62 | The codes 0..3 are exactly the encodings of the four behaviours; any other code neither prevents the default nor stops propagation |
| ElementJs.Dispatch | JSVaporizer.NET.8/jsvwasm/for_dotnet/element.js:50-62 | The default is prevented iff it already was or the code is 2 or 3; propagation is stopped iff it already was or the code is 1 or 3; code 0 leaves the event alone |
| ElementJs.SelectedValuesAppend | JSVaporizer.NET.8/jsvwasm/for_dotnet/element.js:104-117 | The reported values of a concatenation of option lists are the concatenation of their reported values |
| ElementJs.SelectedValuesMembership | JSVaporizer.NET.8/jsvwasm/for_dotnet/element.js:104-117 | A value is reported iff some option carrying it is selected, not disabled and not inside a disabled optgroup |
| ElementJs.SelectedValuesLength | JSVaporizer.NET.8/jsvwasm/for_dotnet/element.js:104-117 | There are never more reported values than options |
| ElementJs.GetMultiSelectOptionValues | JSVaporizer.NET.8/jsvwasm/for_dotnet/element.js:97-120 | The loop returns exactly `SelectedValues` of the options, in order |
| ObjectCache.FetchResult | JSVaporizer.NET.8/BrowserFacade/JsObjectCache.cs:18-32 | A lookup returns the cached proxy while it is alive; otherwise it returns a fresh, live proxy on the node the document indexes under the id and caches it; an id the document lacks is a JSVException and the cache stays as it was |
| ObjectCache.FetchFrame | JSVaporizer.NET.8/BrowserFacade/JsObjectCache.cs:30 | A lookup writes at most the entry for the requested id |
| ObjectCache.FetchTwiceSameProxy | JSVaporizer.NET.8/BrowserFacade/JsObjectCache.cs:18-31 | Two lookups of the same id with nothing disposed, reclaimed or removed between them return the same proxy, and the second changes nothing |
| ObjectCache.FetchAfterDisposeRehydrates | JSVaporizer.NET.8/BrowserFacade/JsObjectCache.cs:20-31 | Once the cached proxy is disposed, the next lookup returns a different, fresh proxy from the document |
| ObjectCache.RemovedExactly | JSVaporizer.NET.8/BrowserFacade/JsObjectCache.cs:35 | `Remove` deletes exactly the entry for the id, keeps every other entry, and is a no-op for an absent id |
| ObjectCache.FetchAfterRemove | JSVaporizer.NET.8/BrowserFacade/JsObjectCache.cs:35 | After `Remove`, a lookup of that id goes to the document |
| ObjectCache.JsObjectCache.constructor | JSVaporizer.NET.8/BrowserFacade/JsObjectCache.cs:16 | The cache starts empty |
| ObjectCache.JsObjectCache.GetOrCreate | JSVaporizer.NET.8/BrowserFacade/JsObjectCache.cs:18-32 | The result and the new cache are `Fetch` of the old cache and browser; the DOM is not changed; a returned proxy is not disposed |
| ObjectCache.JsObjectCache.Remove | JSVaporizer.NET.8/BrowserFacade/JsObjectCache.cs:35 | The new cache is `Removed` of the old one |
| DocumentFacade.Document.constructor | JSVaporizer.NET.8/BrowserFacade/Document.cs:33 | The registry starts empty |
| DocumentFacade.Document.CreateElement | JSVaporizer.NET.8/BrowserFacade/Document.cs:65-83 | An id already registered is a JSVException and nothing changes; otherwise a new marked, unconnected node gets a new Element whose id is the argument and which holds its proxy; it is registered under the id and nothing else in the registry changes |
| DocumentFacade.Document.GetElementById | JSVaporizer.NET.8/BrowserFacade/Document.cs:85-112 | A registered id returns its Element without touching the document; an unregistered id in the document registers and returns a new Element with no proxy of its own; an id in neither returns null and the registry is unchanged; a result is always the registered Element for the id |
| DocumentFacade.Document.AssertGetElementById | JSVaporizer.NET.8/BrowserFacade/Document.cs:51-59 | It fails with a JSVException exactly when `GetElementById` would return null; otherwise it returns the registered Element; existing entries never change |
| DocumentFacade.Find | JSVaporizer.NET.8/BrowserFacade/Document.cs:51-59 | `AssertGetElementById(id)` on the page: a JSVException iff the id is neither registered nor in the document, with the registry unchanged; otherwise the Element registered under the id, every earlier entry kept and at most that one added; the DOM, the cache and the node every id resolves to are unchanged |
| DocumentFacade.TargetIgnoresLookups | JSVaporizer.NET.8/BrowserFacade/Document.cs:85-112 | Registering a document element without a proxy of its own, and handing out new handles, moves no id to another node |
| DocumentFacade.TargetAfterResolve | JSVaporizer.NET.8/BrowserFacade/Element.cs:67-87 | The proxy lookup an Element does before acting, with the ephemeral proxy and cache entry it updates, moves no id to another node |
| DocumentFacade.LookupThenCreateFails | JSVaporizer.NET.8/BrowserFacade/Document.cs:70-73 | A successful lookup leaves the id registered, so a later `CreateElement` with that id throws; a lookup succeeds iff the id was registered or in the document |
| DocumentFacade.SetPropertyOf | JSVNuFlexiArch/ExampleUI/JSVTextInput.cs:34 | `AssertGetElementById(id).SetProperty(name, v)`: an id neither registered nor in the document is a JSVException; success means the name is not "id", the value marshals, and the DOM is exactly one write of that value to that property of the node the id resolved to before the call; failure leaves the DOM unchanged; unless the property is outerHTML, every id resolves to the same node afterwards; no Element loses a token |
| DocumentFacade.WriteProperty | JSVaporizer.NET.8/BrowserFacade/Element.cs:102-139 | On a registered element, success means the name is not "id", the value marshals, and the DOM is one write of it to the node the element resolved to before the call; failure leaves the DOM unchanged; the registry and the tokens are unchanged; unless the property is outerHTML, every id resolves to the same node afterwards |
| DocumentFacade.SetFormElemOf | JSVNuFlexiArch/ExampleUI/JSVCheckbox.cs:48 | `AssertGetElementById(id).SetFormElemChecked(v)` (or `SetFormElemValue`): a missing id is a JSVException; success is one write of the value to the node the id resolved to before the call; failure leaves the DOM unchanged; no id changes node |
| DocumentFacade.WriteFormElem | JSVNuFlexiArch/ExampleUI/JSVTextInput.cs:45 | On a registered element, success is one write of the form value to the node the element resolved to before the call; failure leaves the DOM unchanged; the registry is unchanged and no id changes node |
| DocumentFacade.AddListenerOf | JSVNuFlexiArch/ExampleUI/JSVSlider.cs:68 | A missing id, or a listener id the pool already holds, fails and the pool is unchanged; success adds exactly that id to the pool for the event type, on the node the id resolved to before the call, returns its token and records the token on the Element registered under the id; no Element loses a token, and the document is not changed |
| DocumentFacade.ListenOn | JSVaporizer.NET.8/BrowserFacade/Element.cs:301-316 | `AddEventListener` on a registered element, in its corrected form (the proxy it uses stays live): an id the pool holds fails with the pool and tokens unchanged; success adds the token to the Element and the listener to the pool on the node the element resolved to before the call; the DOM is unchanged |
| DocumentFacade.JsvCountPositive | JSVaporizer.NET.8/BrowserFacade/Document.cs:158-189 | A key is counted among the marked elements iff some marked element has that id |
| DocumentFacade.CountGroups | JSVaporizer.NET.8/BrowserFacade/Document.cs:158-189 | The counting loop gives each marked id its number of marked elements and each "id : tagName" key its number of unmarked elements, and has no other keys |
| DocumentFacade.MarkedIds | JSVaporizer.NET.8/BrowserFacade/Document.cs:193-194 | The key set of the marked counts is exactly the set of ids of marked elements |
| DocumentFacade.ToList | JSVaporizer.NET.8/BrowserFacade/Document.cs:199-200 | `ToList` of a set lists each element exactly once |
| DocumentFacade.ReportEmptyExactly | JSVaporizer.NET.8/BrowserFacade/Document.cs:202-217 | The report is empty iff both lists are empty, and each non-empty part starts with its header |
| DocumentFacade.JSVToDomReconciliation | JSVaporizer.NET.8/BrowserFacade/Document.cs:147-218 | The first list holds exactly the registered ids that no marked element has, the second exactly the marked ids nobody registered; the report is the two sections, and it is empty iff the registry's ids equal the marked ids |
| DocumentFacade.AppendJsvNoDom | JSVaporizer.NET.8/BrowserFacade/Document.cs:202-208 | The `+=` steps append exactly the first section |
| DocumentFacade.AppendDomNoJsv | JSVaporizer.NET.8/BrowserFacade/Document.cs:210-216 | The `+=` steps append exactly the second section |
| ElementFacade.CreatedByJSVIsLowerCase | JSVaporizer.NET.8/BrowserFacade/Document.cs:19 | The marker attribute name "created-by-jsvaporizer" passes the lower-case guard, so attribute lookups of it are not refused |
| ElementFacade.ToLower | JSVaporizer.NET.8/BrowserFacade/Element.cs:261-264 | Lower-casing keeps the length, leaves no capital, turns each capital into a small letter that `UpperChar` maps back to it, and keeps every other character; the capitals folded are ASCII, Latin-1, basic Greek and basic Cyrillic |
| ElementFacade.IsLowerCaseCharacterwise | JSVaporizer.NET.8/BrowserFacade/Element.cs:261-264 | A name passes `name == name.ToLower()` iff it has none of the folded capitals (ASCII, Latin-1, basic Greek, basic Cyrillic); lower-casing always gives a name that passes |
| ElementFacade.AccentedCapitalRefused | JSVaporizer.NET.8/BrowserFacade/Element.cs:261-264 | "Éa" lower-cases to "éa", so it fails the lower-case guard and the attribute operations refuse it |
| ElementFacade.ClassifyNotHandled | JSVaporizer.NET.8/BrowserFacade/Element.cs:145-188 | Only undefined, function, bigint and symbol properties are reported as not handled, always with a null value; every other property is reported with its value |
| ElementFacade.MarshalledValuesAreHandled | JSVaporizer.NET.8/BrowserFacade/Element.cs:111-138 | A value marshals iff it is not null and of one of the six accepted types, and a marshalled value is reported back by `GetProperty` as handled, with its value |
| ElementFacade.TokenAddRemove | JSVaporizer.NET.8/BrowserFacade/Element.cs:311-313 | Adding a token and then removing its id from its event type restores that type's tokens, unless the id was already there; other event types are never touched |
| ElementFacade.ResolveLifecycle | JSVaporizer.NET.8/BrowserFacade/Element.cs:67-87 | A disposed element fails with ObjectDisposedException and changes nothing; a lookup keeps or clears the ephemeral proxy and never installs another; once it is gone, lookups go to the cache |
| ElementFacade.ResolveDropsDisposedEphemeral | JSVaporizer.NET.8/BrowserFacade/Element.cs:74-77 | A disposed ephemeral proxy is cleared and never returned; the result is the cache's |
| ElementFacade.DeadEphemeralUnreachable | JSVaporizer.NET.8/BrowserFacade/Element.cs:74-86 | An element whose ephemeral proxy is disposed while it is not in the document, with no live cached proxy, can no longer be looked up |
| ElementFacade.LiveEphemeralResolves | JSVaporizer.NET.8/BrowserFacade/Element.cs:79-82 | An undisposed ephemeral proxy is what the next lookup returns, whatever the document holds |
| ElementFacade.ResolveCacheFrame | JSVaporizer.NET.8/BrowserFacade/Element.cs:86 | A lookup writes at most the cache entry for the element's own id |
| ElementFacade.Element.constructor | JSVaporizer.NET.8/BrowserFacade/Element.cs:44-48 | A new Element has the given id and proxy, is not disposed and has no tokens |
| ElementFacade.Element.GetJSObject | JSVaporizer.NET.8/BrowserFacade/Element.cs:67-87 | The result and the new fields are `Resolve` of the old ones; the DOM is not changed; only the element's own cache entry may change |
| ElementFacade.Element.SetProperty | JSVaporizer.NET.8/BrowserFacade/Element.cs:102-139 | "id" is refused before any lookup and nothing changes; otherwise a value of an unaccepted type fails, and success is one write of the marshalled value to the element's node |
| ElementFacade.Element.SetFormElem | JSVNuFlexiArch/ExampleUI/JSVTextInput.cs:45 | The form value or checked state is written through the element's proxy; a failed lookup changes nothing in the DOM |
| ElementFacade.Element.GetProperty | JSVaporizer.NET.8/BrowserFacade/Element.cs:141-191 | A missing property is a JSVException; otherwise the result is the property classified by its `typeof`; the DOM is not changed |
| ElementFacade.Element.InvokeFuncProp | JSVaporizer.NET.8/BrowserFacade/Element.cs:215-231 | It fails unless the property exists and its type is "function" |
| ElementFacade.Element.GetMultiSelectOptionValues | JSVaporizer.NET.8/BrowserFacade/Element.cs:233-237 | After a successful lookup the result is `SelectedValues` of the element's options |
| ElementFacade.Element.AppendChild | JSVaporizer.NET.8/BrowserFacade/Element.cs:244-257 | On success the child is returned and its node sits under this element's node; when that connects the child, its proxy is disposed and its ephemeral proxy cleared; neither element ever gains an ephemeral proxy |
| ElementFacade.Element.Attach | JSVaporizer.NET.8/BrowserFacade/Element.cs:250-254 | The browser append and, when the child is connected, the disposal of its proxy |
| ElementFacade.Element.HasAttribute | JSVaporizer.NET.8/BrowserFacade/Element.cs:259-270 | A name that is not lower case fails and nothing changes; otherwise the result says whether the node has the attribute |
| ElementFacade.Element.GetAttribute | JSVaporizer.NET.8/BrowserFacade/Element.cs:272-283 | A name that is not lower case fails and nothing changes; otherwise the result is the attribute's value, or null when absent |
| ElementFacade.Element.SetAttribute | JSVaporizer.NET.8/BrowserFacade/Element.cs:285-299 | A name that is not lower case, or "id", fails and nothing changes; otherwise the attribute is written on the element's node |
| ElementFacade.Element.IsJSV | JSVaporizer.NET.8/BrowserFacade/Element.cs:34 | The result says whether the node carries "created-by-jsvaporizer" |
| ElementFacade.Element.AddEventListener | JSVaporizer.NET.8/BrowserFacade/Element.cs:301-316 | As written: one token joins its event type's set and the listener is added to the pool; the proxy it used is disposed, including the element's own ephemeral proxy |
| ElementFacade.Element.Listen | JSVaporizer.NET.8/BrowserFacade/Element.cs:306-313 | The pool call and the token; the proxy is disposed exactly when `release` says so |
| ElementFacade.Element.AddEventListenerKeepingProxy | JSVaporizer.NET.8/BrowserFacade/Element.cs:301-316 | Corrected: the same token and pool effect, but a live ephemeral proxy stays live, so the element can still be found and appended afterwards |
| ElementFacade.Element.RemoveEventListener | JSVaporizer.NET.8/BrowserFacade/Element.cs:318-330 | The listener is removed from the pool and every token with that id leaves that type's set; other types are untouched |
| ElementFacade.Element.Dispose | JSVaporizer.NET.8/BrowserFacade/Element.cs:332-347 | A second call returns at once and changes nothing; otherwise every token is disposed, the token map emptied, the cache entry for the id removed and the element marked disposed |
| Metadata.LastValueDefined | JSVNuFlexiArch/Base/JSVComponent.cs:87-96 | A name has a dictionary value iff some item carries it |
| Metadata.LastValueIsLast | JSVNuFlexiArch/Base/JSVComponent.cs:87-96 | The value found for a name is that of an item with the name, and no later item has the name |
| Metadata.CompMetadata.constructor | JSVNuFlexiArch/Base/JSVComponent.cs:21 | New metadata has no items |
| Metadata.CompMetadata.FromItems | JSVNuFlexiArch/Base/JSVComponent.cs:76-85 | Deserialized metadata holds the decoded items |
| Metadata.CompMetadata.Add | JSVNuFlexiArch/Base/JSVComponent.cs:132-135 | One item is appended at the end and earlier items are unchanged; `NuFlexiArch/AComponent.cs:15-18` is the same code |
| Metadata.AddThenLookup | JSVNuFlexiArch/Base/JSVComponent.cs:132-135 | After `Add`, the added name maps to the added value and every other name keeps its value |
| Metadata.ToDictionary | JSVNuFlexiArch/Base/JSVComponent.cs:87-96 | The keys are exactly the item names and each maps to the value of its last item; `NuFlexiArch/AComponent.cs:90-99` is the same code |
| Components.DecodeNullChecked | JSVNuFlexiArch/Base/JSVComponent.cs:39-48 | A decode succeeds iff the serializer yields a value, which it returns; a null result is an ArgumentException; `DeserializeMetadata` (76-85), `CompInstanceDto.Deserialize` (113-122) and the `AComponent` decoders share it |
| Components.DecodeEncode | JSVNuFlexiArch/Base/JSVComponent.cs:34-48 | Through a lawful codec, decoding what was serialized gives the value back |
| Components.InstanceRoundTrip | JSVNuFlexiArch/Base/JSVComponent.cs:65-74 | A serialized instance decodes back to the same instance, whose metadata and state decode back to what went in |
| Components.GetAssemblyQualifiedName | JSVNuFlexiArch/Base/JSVComponent.cs:50-58 | The runtime name when there is one; ArgumentNullException when it is null; the `AComponent` copy is the same |
| Components.InitialMetadataKeys | JSVNuFlexiArch/Base/JSVComponent.cs:13-18 | A constructed component's metadata names exactly "UnqPrefix" (the unique name) and "CompTypeAQN" (its type name) |
| Components.ComponentCore.constructor | JSVNuFlexiArch/Base/JSVComponent.cs:13-18 | The wrapping renderer replaces `BlackHole`, and the metadata is "UnqPrefix" then "CompTypeAQN" |
| NuFlexiArch.AComponent.constructor | NuFlexiArch/AComponent.cs:38 | A new component's metadata list is empty |
| NuFlexiArch.AComponent.SetState | NuFlexiArch/AComponent.cs:40 | The default `SetState` reports success |
| ComponentHelpers.AppendElementSuffix | JSVNuFlexiArch/Base/JSVComponentHelpers.cs:8-11 | The result is the unique name, "_", then the suffix, of length \|u\|+\|s\|+1 |
| ComponentHelpers.AppendSubComponentSuffix | JSVNuFlexiArch/Base/JSVComponentHelpers.cs:13-16 | The result is the unique name, "_-_", then the suffix, of length \|u\|+\|s\|+3 |
| ComponentHelpers.ElementSuffixInjective | JSVNuFlexiArch/Base/JSVComponentHelpers.cs:8-11 | Two element ids of one component are equal iff their suffixes are |
| ComponentHelpers.SiblingIdsDistinct | JSVNuFlexiArch/Base/JSVComponentHelpers.cs:13-16 | Elements of two sub-components whose names start differently never share an id |
| ComponentHelpers.SubComponentIdsDistinct | JSVNuFlexiArch/Base/JSVComponentHelpers.cs:8-16 | A component's own element never has the id of a sub-component's element, when the suffix does not start with '-' |
| ComponentHelpers.HtmlContentBuilder.constructor | JSVNuFlexiArch/Base/IJSVComponentRenderer.cs:15 | A new builder holds nothing |
| ComponentHelpers.HtmlContentBuilder.AppendHtml | JSVNuFlexiArch/Base/IJSVComponentRenderer.cs:26 | One piece is appended at the end |
| ComponentHelpers.ConcatAppend | JSVNuFlexiArch/Base/JSVComponentHelpers.cs:18-28 | Appending a piece extends the written text by exactly that piece |
| Rendering.OpenTagInjective | JSVNuFlexiArch/Base/IJSVComponentRenderer.cs:25 | Two opening tags are equal iff their wrapper ids are |
| Rendering.ConstructedRendersUnderItsName | JSVNuFlexiArch/Base/IJSVComponentRenderer.cs:23-25 | A component as its constructor leaves it renders as the opening tag of its unique name, its body, and the closing tag |
| Rendering.RenderOpen | JSVNuFlexiArch/Base/IJSVComponentRenderer.cs:21-27 | It fails with KeyNotFound iff the metadata has no "UnqPrefix" item, appending nothing; otherwise it appends the opening tag of the last such item's value |
| Rendering.RenderClose | JSVNuFlexiArch/Base/IJSVComponentRenderer.cs:29-33 | The closing tag is appended |
| Rendering.Render | JSVNuFlexiArch/Base/IJSVComponentRenderer.cs:13-43 | `BlackHole` gives a new empty builder; the wrapping renderer gives a new builder of opening tag, body once (none for the base class) and closing tag, or KeyNotFound without "UnqPrefix" |
| Rendering.RenderWrapped | JSVNuFlexiArch/Base/IJSVComponentRenderer.cs:35-43 | Open, body, close on an empty builder: the pieces are those three, in order, or KeyNotFound |
| Materializer.ResolveType | JSVNuFlexiArch/Base/JSVComponentMaterializer.cs:36-51 | It succeeds iff the name resolves to a component class; an unknown name or null construction is an ArgumentException, a non-component an InvalidCastException |
| Materializer.PlanRoundTrip | JSVNuFlexiArch/Base/JSVComponentMaterializer.cs:13-22 | What `SerializeInstance` of a constructed component produces is planned back into its unique name, class and state |
| Materializer.MissingKeyStopsPlan | JSVNuFlexiArch/Base/JSVComponentMaterializer.cs:16-18 | A missing "UnqPrefix" or "CompTypeAQN" item stops the plan with KeyNotFound, before instantiation |
| Materializer.Instantiate | JSVNuFlexiArch/Base/JSVComponentMaterializer.cs:36-51 | It fails iff `ResolveType` does, with its error; otherwise a new component of the resolved class whose metadata is "UnqPrefix" then its type name |
| Materializer.AppendNewDiv | JSVNuFlexiArch/Base/JSVComponentMaterializer.cs:68 | A unique name already registered is a JSVException with the DOM unchanged; on success the name becomes registered, the reference element resolved to a node, and the DOM is exactly a new marked div with that id appended under that node; when the name was neither in the document's id index nor in the proxy cache, it now resolves to the new div |
| Materializer.CreateDiv | JSVaporizer.NET.8/BrowserFacade/Document.cs:65-83 | `Document.CreateElement(uniqueName, "div")`: a registered name fails with the DOM unchanged; otherwise the registry gains exactly the new Element, whose own live proxy is on the new unconnected div, and the reference element still resolves to the same node |
| Materializer.AppendDiv | JSVaporizer.NET.8/BrowserFacade/Element.cs:244-257 | `referenceElem.AppendChild(div)`: success means the reference element resolved to a node and the div was appended under it; the div's name then resolves to the div, through its own proxy or through the id index |
| Materializer.AppendChildTo | JSVaporizer.NET.8/BrowserFacade/Element.cs:244-257 | Success appends the div under the node the reference element resolved to; the cache changes at most at the reference id; the div's own proxy is dropped exactly when the div joined the document |
| Materializer.WriteOuterHtml | JSVNuFlexiArch/Base/JSVComponentMaterializer.cs:69 | `AssertGetElementById(id).SetProperty("outerHTML", html)`: a missing id is a JSVException; success is one outerHTML write of the HTML to the node the id resolved to before the call |
| Materializer.Render | JSVNuFlexiArch/Base/JSVComponentMaterializer.cs:53-78 | A render error changes nothing; a missing reference element is a JSVException; replace mode is one outerHTML write of the rendered HTML to the node the reference id resolved to before the call; append mode fails on a registered name, and on success registers a div named after the component, appends it under the reference node and writes the HTML to the div's outerHTML; success returns true |
| Materializer.Place | JSVNuFlexiArch/Base/JSVComponentMaterializer.cs:64-74 | The document part of `Render` for given HTML: a missing reference element is a JSVException; replace mode is one outerHTML write to the node the reference id resolved to; append mode is the append of a new div under that node followed by the outerHTML write to the div |
| Materializer.AppendAndWrite | JSVNuFlexiArch/Base/JSVComponentMaterializer.cs:68-69 | Append mode: a registered name fails with the DOM unchanged; on success the new div is registered, the reference element resolved to a node, and the DOM is the div appended under that node followed by one outerHTML write of the HTML to the div |
| Materializer.InstantiateAndRenderFromJson | JSVNuFlexiArch/Base/JSVComponentMaterializer.cs:11-34 | Every error of `PlanFromJson` is returned before the document, registries or pool change; success returns true and the new component holds the decoded state as `StoredState` gives it |
| Materializer.RenderInitializeUpdate | JSVNuFlexiArch/Base/JSVComponentMaterializer.cs:25-33 | Render, `Initialize`, then `UpdateState`; success returns true and the component reports the stored state |
| Materializer.InitializeUpdate | JSVNuFlexiArch/Base/JSVComponentMaterializer.cs:27-33 | `Initialize` then `UpdateState` both run; success returns true and the component reports the stored state |
| ZenViews.Instantiate | JSVZenView/Base/ZenView.cs:49-64 | It succeeds iff the name resolves to a view class, giving a view with the unique name, the class's own type name and its HTML; an unknown name or null construction is an ArgumentException, a non-view an InvalidCastException |
| ZenViews.ViewRoundTrip | JSVZenView/Base/ZenView.cs:23-32 | A view's metadata JSON is planned back into the same view |
| ZenViews.NullMetadataRejected | JSVZenView/Base/ZenView.cs:125-133 | Metadata decoding to null stops materialization with an ArgumentException |
| ZenViews.RenderBuilder | JSVZenView/Base/ZenView.cs:94-99 | A new builder holding exactly the view's HTML |
| ZenViews.Render | JSVZenView/Base/ZenViewMaterializer.cs:27-52 | A missing reference element is a JSVException; replace mode is one outerHTML write of the view's HTML to the node the reference id resolved to before the call; append mode fails on a registered name, and on success registers a div named after the view, appends it under the reference node and writes the HTML to the div's outerHTML; success returns true |
| ZenViews.Materialize | JSVZenView/Base/ZenViewMaterializer.cs:11-25 | Decode and instantiation errors are returned with nothing changed; a view whose unique name is registered or in the document leaves the DOM unchanged and returns true; otherwise the view is rendered, with the same replace-mode write and append-mode append-then-write as `Render`; success always returns true |
| ZenViews.MaterializeView | JSVZenView/Base/ZenViewMaterializer.cs:18-24 | Render only if absent: a name registered or in the document returns true with the DOM unchanged; otherwise the view is rendered with `Render`'s replace-mode write or append-then-write |
| Transformers.Transformer.constructor | JSVNuFlexiArch/Base/JSVTransformer.cs:10 | The registry key starts null |
| Transformers.Transformer.SetRegistryKey | JSVNuFlexiArch/Base/JSVTransformer.cs:23-31 | After setting, the key reads back as the value set |
| Transformers.TransformerRegistry.constructor | JSVNuFlexiArch/Base/JSVTransformer.cs:38-41 | The registry is the dictionary given |
| Transformers.TransformerRegistry.Get | JSVNuFlexiArch/Base/JSVTransformer.cs:43-55 | A registered key returns its transformer with the key stamped on it; an unknown key throws; no other transformer's key changes |
| Transformers.TransformerRegistry.Invoke | JSVNuFlexiArch/Base/JSVTransformer.cs:57-63 | A registered name gives that transformer's `DtoToView` of the arguments and stamps the key; an unknown name is `Get`'s error; no other key changes |
| Widgets.TextInput.constructor | JSVNuFlexiArch/ExampleUI/JSVTextInput.cs:25-29 | `Id` is uniqueName_InputId, `LabelId` uniqueName_LabelId, with the base metadata and no state yet |
| Widgets.TextInput.SetLabel | JSVNuFlexiArch/ExampleUI/JSVTextInput.cs:31-35 | The raw value is stored; on success the DOM is one write of `val ?? ""` to the innerHTML of the node the label id resolved to before the call; on failure the DOM is unchanged |
| Widgets.TextInput.SetInputValue | JSVNuFlexiArch/ExampleUI/JSVTextInput.cs:42-46 | The raw value is stored; on success the DOM is one write of it (or null) to the value of the node the input id resolved to before the call; on failure the DOM is unchanged |
| Widgets.TextInput.UpdateState | JSVNuFlexiArch/ExampleUI/JSVTextInput.cs:53-62 | A DTO of another class is an ArgumentException with nothing changed; otherwise both fields are set, and on success `GetState` gives the DTO back |
| Widgets.TextInput.BodyNamesElements | JSVNuFlexiArch/ExampleUI/JSVTextInput.cs:79-84 | The body names the label and the input the setters write to |
| Widgets.Checkbox.constructor | JSVNuFlexiArch/ExampleUI/JSVCheckbox.cs:28-32 | `Id` and `LabelId` as for the text input, no state yet |
| Widgets.Checkbox.SetLabel | JSVNuFlexiArch/ExampleUI/JSVCheckbox.cs:34-38 | The raw value is stored; on success the DOM is one write of `val ?? ""` to the innerHTML of the label's node; on failure the DOM is unchanged |
| Widgets.Checkbox.SetIsChecked | JSVNuFlexiArch/ExampleUI/JSVCheckbox.cs:45-49 | The flag is stored; on success the DOM is one write of it to the checked state of the node the checkbox id resolved to before the call |
| Widgets.Checkbox.UpdateState | JSVNuFlexiArch/ExampleUI/JSVCheckbox.cs:56-65 | Another DTO class is an ArgumentException with nothing changed; on success `GetState` gives the DTO back |
| Widgets.Checkbox.BodyNamesElements | JSVNuFlexiArch/ExampleUI/JSVCheckbox.cs:81-86 | The body names the label and the checkbox |
| Widgets.Button.constructor | JSVNuFlexiArch/ExampleUI/JSVButton.cs:29-33 | `Id` and `LabelId` as for the text input, no state yet |
| Widgets.Button.SetLabel | JSVNuFlexiArch/ExampleUI/JSVButton.cs:35-39 | The raw value is stored; on success the DOM is one write of `val ?? ""` to the innerHTML of the label's node |
| Widgets.Button.SetText | JSVNuFlexiArch/ExampleUI/JSVButton.cs:46-50 | The raw value is stored; on success the DOM is one write of `val ?? ""` to the innerHTML of the button's node |
| Widgets.Button.SetDisabled | JSVNuFlexiArch/ExampleUI/JSVButton.cs:57-61 | The raw value is stored; on success the DOM is one write of `v ?? false` to `disabled` of the button's node |
| Widgets.Button.UpdateState | JSVNuFlexiArch/ExampleUI/JSVButton.cs:68-78 | Another DTO class is an ArgumentException with nothing changed; on success `GetState` gives the DTO back, except that a null `IsDisabled` comes back false, and it equals the DTO iff `IsDisabled` was set |
| Widgets.Button.BodyNamesElements | JSVNuFlexiArch/ExampleUI/JSVButton.cs:96-101 | The body names the label and the button |
| Widgets.TextDisplay.constructor | JSVNuFlexiArch/ExampleUI/JSVTextDisplay.cs:24-27 | `Id` is uniqueName_InputId, no text yet |
| Widgets.TextDisplay.SetText | JSVNuFlexiArch/ExampleUI/JSVTextDisplay.cs:29-33 | The raw text is stored; on success the DOM is one write of `text ?? ""` to the innerHTML of the node the span id resolved to before the call; no id changes node |
| Widgets.TextDisplay.GetState | JSVNuFlexiArch/ExampleUI/JSVTextDisplay.cs:50-56 | Always NotImplementedException, since `GetText` throws |
| Widgets.TextDisplay.UpdateState | JSVNuFlexiArch/ExampleUI/JSVTextDisplay.cs:40-48 | Another DTO class is an ArgumentException with nothing changed; otherwise the text is stored, and success is one innerHTML write of it to the span's node while failure leaves the DOM unchanged; no id changes node |
| Widgets.TextDisplay.BodyNamesElements | JSVNuFlexiArch/ExampleUI/JSVTextDisplay.cs:63-67 | The body names the span |
| Widgets.SliderElementIdsDistinct | JSVNuFlexiArch/ExampleUI/JSVSlider.cs:41-48 | The slider's two element ids and the three of its sub-components are pairwise distinct |
| Widgets.Slider.constructor | JSVNuFlexiArch/ExampleUI/JSVSlider.cs:41-48 | Its own ids, and sub-components named uniqueName_-_ValueDisplay and uniqueName_-_ResetButton with their own ids; no state yet |
| Widgets.Slider.Initialize | JSVNuFlexiArch/ExampleUI/JSVSlider.cs:50-84 | On success the pool gains exactly the two listener ids: a "change" listener on the node the input's id resolved to before the call and a "click" listener; the input's Element holds the change token and the reset button's Element the click token; the reset button's state is the text "Reset Me"; the result is true. A missing input id fails with nothing written |
| Widgets.Slider.WireResetButton | JSVNuFlexiArch/ExampleUI/JSVSlider.cs:70-81 | On success the reset button's state is the text "Reset Me", the pool gains exactly one "click" listener under the given id with every other entry kept, and the button's Element holds its token; on failure the pool's listeners are unchanged |
| Widgets.Slider.SetLabel | JSVNuFlexiArch/ExampleUI/JSVSlider.cs:86-90 | The raw value is stored; on success the DOM is one write of `val ?? ""` to the innerHTML of the label's node |
| Widgets.Slider.SetValue | JSVNuFlexiArch/ExampleUI/JSVSlider.cs:97-105 | The value is stored; on success the DOM is exactly two writes: the value (or null) to `value` of the node the input id resolved to before the call, then the value's text to the innerHTML of the node the value display's id resolved to before the call |
| Widgets.Slider.ShowValue | JSVNuFlexiArch/ExampleUI/JSVSlider.cs:101-104 | `_valueDisplay.UpdateState(...)` with the value's text: the value is stored, the display holds the text, success is one innerHTML write of it to the display's node, and no id changes node |
| Widgets.Slider.SetMinValue | JSVNuFlexiArch/ExampleUI/JSVSlider.cs:112-116 | The minimum is stored; on success the DOM is one write of it to `min` of the input's node |
| Widgets.Slider.SetMaxValue | JSVNuFlexiArch/ExampleUI/JSVSlider.cs:123-127 | The maximum is stored; on success the DOM is one write of it to `max` of the input's node |
| Widgets.Slider.SetStep | JSVNuFlexiArch/ExampleUI/JSVSlider.cs:134-141 | The step is always stored; when it is not null, success is one write of it to `step` of the input's node; a null step writes nothing |
| Widgets.Slider.UpdateState | JSVNuFlexiArch/ExampleUI/JSVSlider.cs:148-160 | Another DTO class is an ArgumentException with nothing changed; on success `GetState` gives all five fields back unchecked (no min ≤ value ≤ max test) and the display shows the value |
| Widgets.Slider.SetRange | JSVNuFlexiArch/ExampleUI/JSVSlider.cs:154-156 | Minimum, maximum, then step, as the three setters do |
| Widgets.Slider.SliderChanged | JSVNuFlexiArch/ExampleUI/JSVSlider.cs:54-67 | A text that parses becomes the value, and the handler asks for no default and no propagation; anything else is a JSVException |
| Widgets.Slider.ResetClicked | JSVNuFlexiArch/ExampleUI/JSVSlider.cs:76-80 | The value becomes the current minimum, and the handler asks for no default and no propagation |
| Widgets.Slider.BodyNamesElements | JSVNuFlexiArch/ExampleUI/JSVSlider.cs:179-186 | The body names the slider's own elements and those of both sub-components |
| Widgets.StoredStateIdempotent | JSVNuFlexiArch/ExampleUI/JSVButton.cs:80-89 | Storing the state a component reports changes nothing it would report |
| Widgets.StoredStateExact | JSVNuFlexiArch/ExampleUI/JSVButton.cs:63-66 | A DTO comes back unchanged iff it is not a button's or its `IsDisabled` is set |
| Widgets.GetState | JSVNuFlexiArch/Base/JSVComponent.cs:27 | Dispatched `GetState`: only the text display fails; any other result is a DTO of the component's own class |
| Widgets.UpdateState | JSVNuFlexiArch/Base/JSVComponent.cs:25 | Dispatched `UpdateState`: a widget given another DTO class fails with the DOM unchanged; the base class returns true and does nothing; on success `GetState` reports `StoredState` of the DTO |
| Widgets.Initialize | JSVNuFlexiArch/Base/JSVComponent.cs:23 | Dispatched `Initialize`: only the slider does anything; the others return true with nothing changed |
| Widgets.RenderBody | JSVNuFlexiArch/Base/JSVComponent.cs:98 | The component's body is appended once; the base class appends nothing |
| Widgets.RenderBodyToHtml | JSVNuFlexiArch/Base/JSVComponentHelpers.cs:18-28 | The result is exactly the component's body, with no wrapper div |

## Left out

- JavaScript interop internals are left out: `WasmElement`/`WasmDocument`, JSObject marshalling, thread safety of the `ConcurrentDictionary`, and weak references. The browser is module `Browser`. A weak reference whose target was reclaimed is a handle in the runtime's `collected` set, which only the environment grows (`JsRuntime.Collect`); no framework operation adds to it.
- Reflection (`Type.GetType`, `Activator.CreateInstance`) is a table from type name to construction outcome. `JSVTransformer/TransformerInvoker.cs` is reflection only and is not part of this model.
- JSON serialization is an abstract codec. JSON syntax and the source-generated contexts are not modelled.
- Handlebars templating is not modelled: a view class is given as a function from unique name to HTML. `ZenView.RenderFromTemplate`, `UniqueWithSuffix` and `ToString` are left out for the same reason.
- `HtmlContentBuilder.WriteTo` with the HTML encoder is modelled as writing the raw pieces. Only `AppendHtml` is used, and it is not encoded.
- `double.ToString()` and `Double.TryParse` depend on the culture. They are functions given by the platform, and doubles are reals.
- `Element.GetPropertyNamesList`, `GetPropertiesDictionary` and `getPropertyNamesArray` depend on JavaScript enumeration order and are left out.
- `Element.AssertProperty` and `HasProperty` appear only inside `GetProperty` and `InvokeFuncProp`, as the missing-property error.
- `Document.GetElementsByTagName` is left out. Reconciliation takes the elements it returns as a parameter.
- `SetFormElemValue`, `SetFormElemChecked` and `GetFormElemValue` are not in the files modelled. They are modelled as writes and reads of the `value` and `checked` properties.
- The keyed `AddEventListener(eventType, funcKey, handler)` overload is not in the files modelled. It is modelled as the listener-id overload, with the id the .NET handler pool assigns to the key as a parameter.
- `nodeName` in element.js is not defined there. The optgroup test is a flag on each option.
- The .NET handler pool `WasmJSVEventListenerPool`, and the handlers' effects beyond their return codes, are not part of this model.
- Materializer.InstantiateAndRenderFromJson: the postcondition does not state that the new component's wrapper div carries the "UnqPrefix" name. `Materializer.Render` and `Rendering.Render` state that.
- NuFlexiArch.AComponent.GetState has no contract: `CompStateDto` has no properties, so every result is the same DTO.
- NuFlexiArch `DeserializeState`, `DeserializeMetadata` and `GetAssemblyQualifiedName` are the same code as in `JSVComponent`. They are modelled once, as `Components.DecodeNullChecked` and `Components.GetAssemblyQualifiedName`.
- ElementFacade.ToLower: folds only the ASCII, Latin-1, basic Greek and basic Cyrillic capitals. .NET's `ToLower()` follows the current culture over all of Unicode, so a name with another capital (Latin Extended "Ā", Armenian, Georgian, the Turkish dotted "İ") passes the model's guard in `HasAttribute`, `GetAttribute` and `SetAttribute` where the source throws a JSVException. The full Unicode case tables are not modelled.
- Browser.Disconnect, Browser.WithChildAppended and Browser.ReplaceWithMarkup: the DOM has no parent/child tree. A node replaced through `outerHTML` leaves the document alone; its descendants stay connected and findable by id, where the browser would drop them and `getElementById` would return null. Appending a detached subtree connects only its root, not its descendants.
- Materializer.PlanFromJson: a codec yields a whole DTO, an exception or null, so a DTO with a null inside cannot be represented. The source throws on a `"List": null` metadata list (NullReferenceException in `ToDictionary`), on an item with a null name (ArgumentNullException from the dictionary), on a null `CompTypeAQN` (ArgumentNullException from `Type.GetType`) and on a null `MetadataJson` or `StateJson` (ArgumentNullException from `Deserialize`). The plan has no such failure points.
- Widgets.Slider.WireResetButton: the click listener's node is not stated. The button's `UpdateState` writes to the document between the start of the call and the registration, and the model names no state in between. `Widgets.Slider.Initialize` likewise states the node of the change listener only.
- DocumentFacade.AddListenerOf, DocumentFacade.ListenOn and Widgets.Slider.Initialize use the corrected `AddEventListenerKeepingProxy`, not `Element.AddEventListener` as written (see Findings). They differ only for an element created and not yet appended, whose own proxy the source disposes.
- ElementFacade.Element.InvokeFuncProp: the invoked JavaScript function's effects and its arguments are not modelled. The call is treated as leaving the document unchanged.
- Materializer.AppendAndWrite, Materializer.Place, Materializer.Render, ZenViews.Render, ZenViews.Materialize and ZenViews.MaterializeView: in append mode, the outerHTML write is stated to land on the new div only when the unique name was in neither the document's id index nor the proxy cache beforehand. Otherwise the write's node is whatever the name then resolves to.
- The widget setters store the field after the document write; the source stores it first. The field is stored on both paths, so the end state is the same.
- Integers and doubles are unbounded. No widget arithmetic depends on width, and listener counts are map sizes.
- `Environment.NewLine` is `"\n"`.
- Concurrency, async helpers, and the demo, hosting and page-script files are outside the modelled core.

## Findings

| source | as written | input that shows it | evidently intended | confidence | as-written member | corrected member |
|---|---|---|---|---|---|---|
| JSVaporizer.NET.8/BrowserFacade/Element.cs:306 | `using var js = GetJSObject()` disposes the proxy it obtained on the way out. For an element made by `Document.CreateElement` and not yet in the document, that is the Element's own ephemeral proxy. The next `GetJSObject` then drops the ephemeral proxy and falls through to the cache, which cannot find an element that is not in the document. | `e = Document.CreateElement("x", "div")`, then `e.AddEventListener("click", h)`, then `parent.AppendChild(e)`: the append throws a JSVException (no element "x" in the DOM). `RemoveEventListener` (line 320) has the same pattern. | The proxy should be released only when it came from the cache, so that the ephemeral proxy stays live until the element is connected. | high, not executed | ElementFacade.Element.AddEventListener | ElementFacade.Element.AddEventListenerKeepingProxy |

/**
 * Component metadata: an append-only list of name/value items, and its flattening to a
 * dictionary in which the last item with a given name wins. `CompMetadata` (the
 * JSVNuFlexiArch base) and `ComponentMetadata` (the NuFlexiArch base) are the same code
 * and are modelled once.
 */
module Metadata {
  import opened Wrappers

  /** `CompMetadataItem`. */
  datatype Item = Item(name: string, value: string)

  /** The names the items carry. */
  function Names(items: seq<Item>): set<string> {
    set i | 0 <= i < |items| :: items[i].name
  }

  /** The value of the last item named `name`, if any. */
  function LastValue(items: seq<Item>, name: string): Option<string>
    decreases |items|
  {
    if items == [] then None
    else if items[|items| - 1].name == name then Some(items[|items| - 1].value)
    else LastValue(items[..|items| - 1], name)
  }

  /** A name has a value exactly when some item carries it. */
  lemma {:induction false} LastValueDefined(items: seq<Item>, name: string)
    ensures LastValue(items, name).Some? <==> name in Names(items)
    decreases |items|
  {
    if items != [] {
      var init := items[..|items| - 1];
      LastValueDefined(init, name);
      if name in Names(init) {
        var i :| 0 <= i < |init| && init[i].name == name;
        assert items[i] == init[i];
      }
      if name in Names(items) && items[|items| - 1].name != name {
        var i :| 0 <= i < |items| && items[i].name == name;
        assert init[i] == items[i];
      }
    }
  }

  /** The value found for a name is that of an item with the name, and no later item has the name. */
  lemma {:induction false} LastValueIsLast(items: seq<Item>, name: string)
    requires LastValue(items, name).Some?
    ensures exists i :: 0 <= i < |items| && items[i] == Item(name, LastValue(items, name).value)
                        && forall j :: i < j < |items| ==> items[j].name != name
    decreases |items|
  {
    var last := |items| - 1;
    if items[last].name != name {
      var init := items[..last];
      LastValueIsLast(init, name);
      var i :| 0 <= i < |init| && init[i] == Item(name, LastValue(init, name).value)
               && forall j :: i < j < |init| ==> init[j].name != name;
      assert items[i] == init[i];
    }
  }

  /** `CompMetadata` / `ComponentMetadata`: the item list. */
  class CompMetadata {
    var list: seq<Item>

    constructor()
      ensures list == []
    {
      list := [];
    }

    /** The metadata object `JsonSerializer.Deserialize` builds from decoded items. */
    constructor FromItems(items: seq<Item>)
      ensures list == items
    {
      list := items;
    }

    /** `Add(name, value)`: one item at the end; earlier items stay as they were. */
    method Add(name: string, value: string)
      modifies this
      ensures list == old(list) + [Item(name, value)]
    {
      list := list + [Item(name, value)];
    }
  }

  /** After `Add`, the added name maps to the added value and every other name keeps its value. */
  lemma AddThenLookup(items: seq<Item>, name: string, value: string)
    ensures LastValue(items + [Item(name, value)], name) == Some(value)
    ensures forall other :: other != name ==> LastValue(items + [Item(name, value)], other) == LastValue(items, other)
  {
    assert (items + [Item(name, value)])[..|items|] == items;
  }

  /** `ToDictionary(md)`: its keys are exactly the item names, and each maps to the value of the last item with that name. */
  method ToDictionary(md: CompMetadata) returns (dict: map<string, string>)
    ensures dict.Keys == Names(md.list)
    ensures forall k :: k in dict ==> LastValue(md.list, k) == Some(dict[k])
  {
    dict := map[];
    var items := md.list;
    var i := 0;
    while i < |items|
      invariant 0 <= i <= |items|
      invariant dict.Keys == Names(items[..i])
      invariant forall k :: k in dict ==> LastValue(items[..i], k) == Some(dict[k])
    {
      var mdItem := items[i];
      assert items[..i + 1] == items[..i] + [mdItem];
      AddThenLookup(items[..i], mdItem.name, mdItem.value);
      dict := dict[mdItem.name := mdItem.value];
      i := i + 1;
    }
    assert items[..i] == items;
  }
}

/**
 * Transformer registries. `JSVNuFlexiArch/Base/JSVTransformer.cs`,
 * `JSVNuFlexiArch/JSVTransformer.cs` and `JSVZenView/Base/ZVTransform.cs` each declare
 * a transformer base class with a private registry key and a `TransformerRegistry`
 * over a dictionary of them; the three differ only in their type names, so they are
 * modelled once.
 *
 * A transformer's conversions are abstract in the source; a concrete transformer's
 * `DtoToView` is a function given to its constructor.
 */
module Transformers {
  import opened Wrappers

  /** A transformer object: the conversion its class implements, and the registry key stamped on it. */
  class Transformer {
    /** `DtoToView(dtoJson, userInfoJson)` of the concrete class. */
    const dtoToView: (string, Option<string>) -> string
    var registryKey: Option<string>

    /** The base constructor leaves the registry key null. */
    constructor(dtoToView: (string, Option<string>) -> string)
      ensures this.dtoToView == dtoToView && registryKey.None?
    {
      this.dtoToView := dtoToView;
      registryKey := None;
    }

    /** `SetRegistryKey(registryKey)`. */
    method SetRegistryKey(key: string)
      modifies this`registryKey
      ensures registryKey == Some(key)
    {
      registryKey := Some(key);
    }
  }

  /** `TransformerRegistry`: the dictionary handed to its constructor. */
  class TransformerRegistry {
    const registry: map<string, Transformer>

    constructor(registry: map<string, Transformer>)
      ensures this.registry == registry
    {
      this.registry := registry;
    }

    /** The transformers the registry holds. */
    function Members(): set<object> {
      set k | k in registry :: registry[k] as object
    }

    /**
     * `Get(xFormerRegistryKey)`: the transformer stored under the key, with the key
     * stamped on it; an unknown key throws and stamps nothing. No other transformer's
     * key changes.
     */
    method Get(key: string) returns (r: Result<Transformer>)
      modifies Members()
      ensures key in registry ==> r == Ok(registry[key]) && registry[key].registryKey == Some(key)
      ensures key !in registry ==> r == Err(GenericError)
      ensures forall k :: k in registry && (key !in registry || registry[k] != registry[key]) ==>
        registry[k].registryKey == old(registry[k].registryKey)
    {
      if key !in registry {
        return Err(GenericError);
      }
      var xFormer := registry[key];
      xFormer.SetRegistryKey(key);
      r := Ok(xFormer);
    }

    /**
     * `Invoke(transformerRegistry, xFormerName, dtoJson, userInfoJson)`: `Get`, then the
     * transformer's `DtoToView`; an unknown name is the error `Get` throws.
     */
    static method Invoke(reg: TransformerRegistry, name: string, dtoJson: string, userInfoJson: Option<string>)
      returns (r: Result<string>)
      modifies reg.Members()
      ensures name in reg.registry ==>
        r == Ok(reg.registry[name].dtoToView(dtoJson, userInfoJson)) && reg.registry[name].registryKey == Some(name)
      ensures name !in reg.registry ==> r == Err(GenericError)
      ensures forall k :: k in reg.registry && (name !in reg.registry || reg.registry[k] != reg.registry[name]) ==>
        reg.registry[k].registryKey == old(reg.registry[k].registryKey)
    {
      var xFormer := reg.Get(name);
      if xFormer.Err? {
        return Err(xFormer.error);
      }
      r := Ok(xFormer.value.dtoToView(dtoJson, userInfoJson));
    }
  }
}

/**
 * The NuFlexiArch base class `AComponent`: metadata shared with the JSVNuFlexiArch base
 * (module Metadata), an empty state DTO, and default state accessors a concrete
 * component overrides. Its null-checked decoders are `Components.Decode`, and its
 * type-name lookup is `Components.GetAssemblyQualifiedName`.
 */
module NuFlexiArch {
  import opened Metadata

  /** `CompStateDto`: a DTO with no properties, so every instance is equal to every other. */
  datatype CompStateDto = CompStateDto

  class AComponent {
    var metadata: CompMetadata

    /** A new component starts with an empty metadata list. */
    constructor()
      ensures fresh(metadata) && metadata.list == []
    {
      metadata := new CompMetadata();
    }

    /** The default `SetState(stateDto)` accepts any state, changes nothing and reports success. */
    method SetState(stateDto: CompStateDto) returns (success: bool)
      ensures success
    {
      success := true;
    }

    /** The default `GetState()`: a new, empty DTO. */
    function GetState(): CompStateDto {
      CompStateDto
    }
  }
}

/**
 * The JSVNuFlexiArch component base: the state DTOs, their JSON round trip through
 * an abstract serializer, the instance DTO that pairs metadata JSON with state JSON,
 * and the part of `JSVComponent` every component shares (renderer and metadata).
 */
module Components {
  import opened Wrappers
  import opened Metadata

  /** The component classes the model knows: the five example widgets, and a class that overrides nothing. */
  datatype Kind = TextInputKind | CheckboxKind | ButtonKind | SliderKind | TextDisplayKind | BareKind

  /** `CompDataDto` and the state DTOs derived from it. A C# double is a real here. */
  datatype CompDataDto =
    | BaseDto
    | TextInputDto(labelText: Option<string>, inputValue: Option<string>)
    | CheckboxDto(labelText: Option<string>, isChecked: bool)
    | ButtonDto(labelText: Option<string>, text: Option<string>, isDisabled: Option<bool>)
    | SliderDto(labelText: Option<string>, value: Option<real>, minValue: real, maxValue: real, step: Option<real>)
    | TextDisplayDto(text: Option<string>)

  /** The component class whose `GetJsonTypeInfo` produces DTOs of this shape. */
  function DtoKind(d: CompDataDto): Kind {
    match d
    case BaseDto => BareKind
    case TextInputDto(_, _) => TextInputKind
    case CheckboxDto(_, _) => CheckboxKind
    case ButtonDto(_, _, _) => ButtonKind
    case SliderDto(_, _, _, _, _) => SliderKind
    case TextDisplayDto(_) => TextDisplayKind
  }

  /** What `JsonSerializer.Deserialize` produces from a text: an exception, the JSON literal null, or a value. */
  datatype Decoded<T> = Malformed | JsonNull | Value(v: T)

  /** `JsonSerializer` with one `JsonTypeInfo`. */
  datatype JsonCodec<!T> = JsonCodec(encode: T -> string, decode: string -> Decoded<T>)

  /** Decoding what was encoded gives the value back. */
  ghost predicate Lawful<T(!new)>(c: JsonCodec<T>) {
    forall x: T :: c.decode(c.encode(x)) == Value(x)
  }

  /** Every value the codec decodes is a DTO of the given component class. */
  ghost predicate DecodesAs(c: JsonCodec<CompDataDto>, k: Kind) {
    forall s: string :: c.decode(s).Value? ==> DtoKind(c.decode(s).v) == k
  }

  /**
   * The null-checked decode every `Deserialize` in the framework performs: a malformed
   * text is a JsonException, a null result is an ArgumentException, and null is never
   * returned.
   */
  function Decode<T>(c: JsonCodec<T>, json: string): Result<T> {
    match c.decode(json)
    case Malformed => Err(JsonError)
    case JsonNull => Err(ArgumentError)
    case Value(v) => Ok(v)
  }

  /** The null check: `Decode` fails exactly when the serializer yields no value, and with ArgumentException for null. */
  lemma DecodeNullChecked<T>(c: JsonCodec<T>, json: string)
    ensures Decode(c, json).Ok? <==> c.decode(json).Value?
    ensures c.decode(json).JsonNull? ==> Decode(c, json) == Err(ArgumentError)
    ensures Decode(c, json).Ok? ==> c.decode(json) == Value(Decode(c, json).value)
  {
  }

  /** Through a lawful codec, decoding an encoding gives the value back. */
  lemma DecodeEncode<T(!new)>(c: JsonCodec<T>, x: T)
    requires Lawful(c)
    ensures Decode(c, c.encode(x)) == Ok(x)
  {
  }

  /** `CompInstanceDto`: the metadata JSON and the state JSON of one component instance. */
  datatype CompInstanceDto = CompInstanceDto(metadataJson: string, stateJson: string)

  /** The serializers the component layer uses: per component class for state, one for metadata, one for instances. */
  datatype Serializers = Serializers(
    state: Kind -> JsonCodec<CompDataDto>,
    metadata: JsonCodec<seq<Item>>,
    instance: JsonCodec<CompInstanceDto>)

  ghost predicate LawfulSerializers(s: Serializers) {
    && Lawful(s.metadata) && Lawful(s.instance)
    && forall k :: Lawful(s.state(k)) && DecodesAs(s.state(k), k)
  }

  /** `SerializeInstance(stateDto)` of a component of class `k` with metadata `items`. */
  function SerializeInstance(s: Serializers, k: Kind, items: seq<Item>, stateDto: CompDataDto): CompInstanceDto {
    CompInstanceDto(s.metadata.encode(items), s.state(k).encode(stateDto))
  }

  /**
   * An instance serialized with lawful serializers decodes back to the same instance,
   * whose metadata and state decode back to the metadata and state that went in.
   */
  lemma {:induction false} InstanceRoundTrip(s: Serializers, k: Kind, items: seq<Item>, stateDto: CompDataDto)
    requires LawfulSerializers(s)
    ensures var inst := SerializeInstance(s, k, items, stateDto);
      && Decode(s.instance, s.instance.encode(inst)) == Ok(inst)
      && Decode(s.metadata, inst.metadataJson) == Ok(items)
      && Decode(s.state(k), inst.stateJson) == Ok(stateDto)
  {
    var inst := SerializeInstance(s, k, items, stateDto);
    DecodeEncode(s.instance, inst);
    DecodeEncode(s.metadata, items);
    assert Lawful(s.state(k));
    DecodeEncode(s.state(k), stateDto);
  }

  /** `GetAssemblyQualifiedName()`: the runtime type name, or ArgumentNullException when it is null. */
  function GetAssemblyQualifiedName(runtimeName: Option<string>): (r: Result<string>)
    ensures r.Ok? ==> runtimeName == Some(r.value)
    ensures r.Err? ==> runtimeName.None? && r.error == ArgumentNullError
  {
    match runtimeName
    case Some(n) => Ok(n)
    case None => Err(ArgumentNullError)
  }

  /** The metadata a component's constructor writes: its unique name, then its type name. */
  function InitialMetadata(uniqueName: string, typeName: string): seq<Item> {
    [Item("UnqPrefix", uniqueName), Item("CompTypeAQN", typeName)]
  }

  /** A constructed component's metadata maps "UnqPrefix" to its unique name and "CompTypeAQN" to its type name. */
  lemma {:induction false} InitialMetadataKeys(uniqueName: string, typeName: string)
    ensures LastValue(InitialMetadata(uniqueName, typeName), "UnqPrefix") == Some(uniqueName)
    ensures LastValue(InitialMetadata(uniqueName, typeName), "CompTypeAQN") == Some(typeName)
    ensures Names(InitialMetadata(uniqueName, typeName)) == {"UnqPrefix", "CompTypeAQN"}
  {
    var items := InitialMetadata(uniqueName, typeName);
    assert items[..1] == [Item("UnqPrefix", uniqueName)];
    assert items[1].name == "CompTypeAQN" != "UnqPrefix";
    assert Names(items) == {items[0].name, items[1].name};
  }

  /**
   * What the .NET runtime supplies to components: the assembly-qualified name of each
   * component class, and `double.ToString()` and `Double.TryParse` in the current culture.
   */
  datatype Platform = Platform(typeNames: Kind -> string, formatDouble: real -> string, parseDouble: string -> Option<real>)

  /** `IJSVComponentRenderer`: `JSVComponentRenderer` wraps the body in a div, `BlackHole` renders nothing. */
  datatype RendererKind = Wrapping | BlackHole

  /** The state `JSVComponent` itself holds for every component: its renderer and its metadata. */
  class ComponentCore {
    var renderer: RendererKind
    var metadata: CompMetadata

    /**
     * The `JSVComponent(uniqueName)` constructor: the wrapping renderer replaces the
     * default `BlackHole`, and the metadata gets "UnqPrefix" and then "CompTypeAQN".
     * The runtime type name of a concrete class is never null, so it is passed in as a
     * string.
     */
    constructor(uniqueName: string, typeName: string)
      ensures renderer == Wrapping && fresh(metadata)
      ensures metadata.list == InitialMetadata(uniqueName, typeName)
    {
      renderer := BlackHole;
      var md := new CompMetadata();
      metadata := md;
      new;
      renderer := Wrapping;
      md.Add("UnqPrefix", uniqueName);
      md.Add("CompTypeAQN", typeName);
    }
  }
}

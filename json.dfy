/**
 * The two views of JSON text the SDK uses, kept abstract: the typed
 * deserializer (`JsonSerializer.Deserialize`) and the shape of a parsed
 * document's root element (`JsonDocument.Parse(..).RootElement`). Readers
 * receive both as function parameters, so nothing here depends on the
 * serializer's options.
 */
module Json {
  import opened Wrappers

  /** Outcome of deserializing one text: a value, the JSON literal null, or a thrown exception. */
  datatype Parsed<T> = Value(value: T) | Null | Malformed

  /**
   * The root element of a parsed document. For an object, each property
   * name maps to the raw text of its value (`GetRawText`); names match
   * ordinally and case-sensitively, and a repeated name keeps its last
   * definition, as `TryGetProperty` does.
   */
  datatype JsonRoot = ArrayRoot | ObjectRoot(properties: map<string, string>) | ScalarRoot

  /** The exceptions the materializing readers let escape. */
  datatype Failure =
    | JsonException     // the text is not JSON, or does not fit the target type
    | InvalidOperation  // `TryGetProperty` on a root that is not an object

  datatype Result<T> = Ok(value: T) | Err(error: Failure)

  /** A list deserialization whose exception reaches the caller and whose null is returned as null. */
  function Materialize<T>(p: Parsed<seq<T>>): (r: Result<Option<seq<T>>>)
    ensures r.Err? <==> p.Malformed?
    ensures r.Err? ==> r.error == JsonException
    ensures r.Ok? ==> (r.value.None? <==> p.Null?)
    ensures r.Ok? && r.value.Some? ==> p == Value(r.value.value)
  {
    match p
    case Value(items) => Ok(Some(items))
    case Null => Ok(None)
    case Malformed => Err(JsonException)
  }

  /** The first of `keys`, in order, that names a property. */
  function FirstPresent(keys: seq<string>, properties: map<string, string>): (k: Option<nat>)
    ensures k.Some? ==> k.value < |keys| && keys[k.value] in properties
    ensures forall j :: 0 <= j < |keys| && (k.None? || j < k.value) ==> keys[j] !in properties
  {
    if keys == [] then None
    else if keys[0] in properties then Some(0)
    else match FirstPresent(keys[1..], properties)
      case None => None
      case Some(j) => Some(j + 1)
  }

  /**
   * The root-shape dispatch of the list readers, one match over the root:
   * an array is the list itself; an object yields the list under the first
   * wrapper key it has, or an empty list when it has none; any other root
   * makes `TryGetProperty` throw.
   */
  function Dispatch<T>(
    body: string,
    parseRoot: string -> Option<JsonRoot>,
    keys: seq<string>,
    decodeList: string -> Parsed<seq<T>>): (r: Result<Option<seq<T>>>)
    ensures parseRoot(body).None? ==> r == Err(JsonException)
    ensures parseRoot(body) == Some(ArrayRoot) ==> r == Materialize(decodeList(body))
    ensures r == Err(InvalidOperation) <==> parseRoot(body) == Some(ScalarRoot)
    ensures parseRoot(body).Some? && parseRoot(body).value.ObjectRoot? && r.Err? ==> r.error == JsonException
  {
    match parseRoot(body)
    case None => Err(JsonException)
    case Some(ArrayRoot()) => Materialize(decodeList(body))
    case Some(ObjectRoot(properties)) =>
      (match FirstPresent(keys, properties)
       case None => Ok(Some([]))
       case Some(j) => Materialize(decodeList(properties[keys[j]])))
    case Some(ScalarRoot()) => Err(InvalidOperation)
  }
  /** A key is the one `FirstPresent` picks exactly when the object has it and has none of the keys before it. */
  lemma FirstPresentFinds(keys: seq<string>, properties: map<string, string>, j: nat)
    requires j < |keys| && keys[j] in properties
    requires forall i :: 0 <= i < j ==> keys[i] !in properties
    ensures FirstPresent(keys, properties) == Some(j)
  {
    var k := FirstPresent(keys, properties);
    if k.None? {
      assert false;
    } else if k.value < j {
      assert false;
    } else if j < k.value {
      assert false;
    }
  }

  /** An object root yields the list under the first wrapper key it has, whatever the later keys hold. */
  lemma DispatchUsesFirstKey<T>(
    body: string,
    parseRoot: string -> Option<JsonRoot>,
    keys: seq<string>,
    decodeList: string -> Parsed<seq<T>>,
    properties: map<string, string>,
    j: nat)
    requires parseRoot(body) == Some(ObjectRoot(properties))
    requires j < |keys| && keys[j] in properties
    requires forall i :: 0 <= i < j ==> keys[i] !in properties
    ensures Dispatch(body, parseRoot, keys, decodeList) == Materialize(decodeList(properties[keys[j]]))
  {
    FirstPresentFinds(keys, properties, j);
  }

  /** An object root with none of the wrapper keys yields an empty list, and nothing is deserialized. */
  lemma DispatchNoKey<T>(
    body: string,
    parseRoot: string -> Option<JsonRoot>,
    keys: seq<string>,
    decodeList: string -> Parsed<seq<T>>,
    properties: map<string, string>)
    requires parseRoot(body) == Some(ObjectRoot(properties))
    requires forall i :: 0 <= i < |keys| ==> keys[i] !in properties
    ensures Dispatch(body, parseRoot, keys, decodeList) == Ok(Some([]))
  {
    var k := FirstPresent(keys, properties);
    if k.Some? {
      assert false;
    }
  }
}

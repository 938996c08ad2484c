/** The result value object: a payload, the tag that says how to store it,
    and the path (relative to the experiment folder) where it belongs. */
module Dades {
  import opened Wrappers

  /** The payloads the experiment code hands to a Data, by their Python shape. */
  datatype Payload =
    | Text(s: string)                       // a str
    | Number(n: int)                        // an int
    | Array(grid: Grid)                     // a 2-D integer numpy array
    | Tuple(items: seq<Payload>)            // a tuple or list
    | Object(attrs: map<string, Payload>)   // an instance, with its __dict__

  /** A 2-D array: every row has the same length. */
  type Grid = g: seq<seq<int>> | IsRectangular(g)

  predicate IsRectangular(g: seq<seq<int>>) {
    forall i, j :: 0 <= i < |g| && 0 <= j < |g| ==> |g[i]| == |g[j]|
  }

  function Columns(g: Grid): nat {
    if |g| == 0 then 0 else |g[0]|
  }

  /** The five storage tags a Data accepts. */
  predicate IsStorageType(t: string) {
    t == "I" || t == "S" || t == "O" || t == "C" || t == "CI"
  }

  /** The tag list the experiment dispatches on, by meaning: an image, an image
      with coordinates drawn on it, a string, an object stored as JSON text and a
      coordinate array. */
  const StorageTypes: seq<string> := ["I", "CI", "S", "O", "C"]

  /** A Data as the constructor leaves it; nothing reassigns its fields.
      `name` is the optional file name the experiment code reads. */
  datatype Data = Data(payload: Payload, storageType: string, path: string, name: Option<string>)

  /** The constructor: it accepts only one of the five storage tags. */
  function NewData(payload: Payload, storageType: string, path: string, name: Option<string>): (r: Result<Data>)
    ensures r.Ok? <==> IsStorageType(storageType)
    ensures r.Err? ==> r.error == ValueError("Not a valid data type")
    ensures r.Ok? ==> r.value.payload == payload && r.value.name == name
  {
    if IsStorageType(storageType) then Ok(Data(payload, storageType, path, name))
    else Err(ValueError("Not a valid data type"))
  }

  /** The `data` accessor. For the tag "O" it serialises the payload's attribute
      mapping with `dumps` (the JSON encoder, given as a parameter) on every
      access; every other tag gets the stored payload back. Reading `__dict__`
      of a payload that is not an instance fails. */
  function Value(d: Data, dumps: map<string, Payload> -> string): (r: Result<Payload>)
    ensures d.storageType != "O" ==> r == Ok(d.payload)
    ensures d.storageType == "O" ==> (r.Ok? <==> d.payload.Object?)
    ensures r.Ok? && d.storageType == "O" ==> r.value == Text(dumps(d.payload.attrs))
  {
    if d.storageType == "O" then
      if d.payload.Object? then Ok(Text(dumps(d.payload.attrs)))
      else Err(AttributeError("__dict__"))
    else Ok(d.payload)
  }

  /** Reading back what the constructor was given: `storage_type` and `path`
      return exactly the constructor's arguments, and `data` returns the payload
      unchanged for every tag except "O". */
  lemma ConstructThenRead(payload: Payload, storageType: string, path: string, name: Option<string>,
                          dumps: map<string, Payload> -> string)
    requires IsStorageType(storageType)
    ensures NewData(payload, storageType, path, name).Ok?
    ensures NewData(payload, storageType, path, name).value.storageType == storageType
    ensures NewData(payload, storageType, path, name).value.path == path
    ensures storageType != "O" ==> Value(NewData(payload, storageType, path, name).value, dumps) == Ok(payload)
  {
  }

  /** The "O" accessor recomputes from the stored payload: reading it twice gives
      the same text, and the payload it reads from is the one the constructor
      stored. */
  lemma ObjectValueFromStoredPayload(attrs: map<string, Payload>, path: string, name: Option<string>,
                                     dumps: map<string, Payload> -> string)
    ensures var d := NewData(Object(attrs), "O", path, name).value;
      d.payload == Object(attrs) && Value(d, dumps) == Ok(Text(dumps(attrs)))
  {
  }

  /** The tag list holds exactly the five accepted tags. */
  lemma StorageTypesAreTheValidTags(t: string)
    ensures t in StorageTypes <==> IsStorageType(t)
  {
  }
}

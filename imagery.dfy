/** The result record of one accepted fetch (`ImageryData`) and its
    dictionary form (`to_dict` / `from_dict`). */
module Imagery {
  import opened Common

  /** A Python value as it can appear in a record field or in its dictionary form. */
  datatype Value =
    | VNone
    | VBool(b: bool)
    | VInt(i: int)
    | VReal(r: real)
    | VStr(s: string)
    | VList(items: seq<Value>)
    | VDict(entries: map<string, Value>)

  /** The record. Python's constructor stores every argument unchanged; the same
      three parameters default to `None` here as there. `imageData` is the raw
      image buffer (Python `None` or `bytes`). */
  datatype ImageryData = ImageryData(
    imageUrl: Value,
    timestamp: Value,
    metadata: Value,
    sectionId: Value := VNone,
    localPath: Value := VNone,
    imageData: Option<Bytes> := None)

  /** `KeyError(key)`, raised by `from_dict` for a missing required key. */
  datatype KeyError = KeyError(key: string)

  /** The five keys `to_dict` always writes. */
  const RecordKeys: set<string> := {"image_url", "timestamp", "metadata", "section_id", "local_path"}

  /** The constructor called with only the three required arguments leaves the
      section id, the local path and the image buffer at `None`. */
  lemma ConstructorDefaults(url: Value, ts: Value, meta: Value)
    ensures var x := ImageryData(url, ts, meta);
      x.imageUrl == url && x.timestamp == ts && x.metadata == meta
      && x.sectionId == VNone && x.localPath == VNone && x.imageData == None
  {
  }

  function ToDict(x: ImageryData): (d: map<string, Value>)
  {
    var result := map[
      "image_url" := x.imageUrl,
      "timestamp" := x.timestamp,
      "metadata" := x.metadata,
      "section_id" := x.sectionId,
      "local_path" := x.localPath];
    if x.imageData.Some? then result["has_image_data" := VBool(true)] else result
  }

  /** `dict.get(key)`: the entry, or `None` when the key is missing. */
  function Get(d: map<string, Value>, key: string): Value
  {
    if key in d then d[key] else VNone
  }

  /** `from_dict`: the required keys are looked up in argument order and the
      first missing one raises `KeyError`; the optional ones fall back to `None`;
      the image buffer is never restored. */
  function FromDict(d: map<string, Value>): (r: Result<ImageryData, KeyError>)
  {
    if "image_url" !in d then Err(KeyError("image_url"))
    else if "timestamp" !in d then Err(KeyError("timestamp"))
    else if "metadata" !in d then Err(KeyError("metadata"))
    else Ok(ImageryData(d["image_url"], d["timestamp"], d["metadata"],
                        Get(d, "section_id"), Get(d, "local_path"), None))
  }

  /** `to_dict` writes exactly the five record keys, plus `has_image_data: True`
      exactly when an image buffer is present; each entry is the field it names. */
  lemma ToDictShape(x: ImageryData)
    ensures ToDict(x).Keys == RecordKeys + (if x.imageData.Some? then {"has_image_data"} else {})
    ensures ("has_image_data" in ToDict(x)) <==> x.imageData.Some?
    ensures "has_image_data" in ToDict(x) ==> ToDict(x)["has_image_data"] == VBool(true)
    ensures ToDict(x)["image_url"] == x.imageUrl && ToDict(x)["timestamp"] == x.timestamp
    ensures ToDict(x)["metadata"] == x.metadata && ToDict(x)["section_id"] == x.sectionId
    ensures ToDict(x)["local_path"] == x.localPath
  {
  }

  /** Serialising and reading back keeps the five stored fields and loses the
      image buffer: `has_image_data` is not read by `from_dict`. */
  lemma RoundTrip(x: ImageryData)
    ensures FromDict(ToDict(x)) == Ok(x.(imageData := None))
  {
  }

  /** The first required key, in `from_dict`'s lookup order, that `d` lacks. */
  function FirstMissing(d: map<string, Value>): string
  {
    if "image_url" !in d then "image_url" else if "timestamp" !in d then "timestamp" else "metadata"
  }

  /** `from_dict` fails exactly when a required key is missing, and names the
      first missing one in the order image_url, timestamp, metadata. */
  lemma FromDictFailure(d: map<string, Value>)
    ensures FromDict(d).Err? <==> !("image_url" in d && "timestamp" in d && "metadata" in d)
    ensures FromDict(d).Err? ==>
      FromDict(d).error.key == FirstMissing(d)
  {
  }

  /** A successful `from_dict` takes each field from its key, uses `None` for a
      missing `section_id` or `local_path`, and always leaves the buffer empty. */
  lemma FromDictFields(d: map<string, Value>)
    requires FromDict(d).Ok?
    ensures var x := FromDict(d).value;
      x.imageUrl == d["image_url"] && x.timestamp == d["timestamp"] && x.metadata == d["metadata"]
      && ("section_id" in d ==> x.sectionId == d["section_id"])
      && ("section_id" !in d ==> x.sectionId == VNone)
      && ("local_path" in d ==> x.localPath == d["local_path"])
      && ("local_path" !in d ==> x.localPath == VNone)
      && x.imageData == None
  {
  }

  /** For a dictionary holding all five record keys, reading it and writing it
      back gives exactly those five entries; any other key (`has_image_data`
      included) is dropped. */
  lemma DictRoundTrip(d: map<string, Value>)
    requires RecordKeys <= d.Keys
    ensures FromDict(d).Ok?
    ensures ToDict(FromDict(d).value) == map k | k in RecordKeys :: d[k]
  {
    var back := ToDict(FromDict(d).value);
    var five := map k | k in RecordKeys :: d[k];
    assert back.Keys == five.Keys;
    forall k | k in back.Keys
      ensures back[k] == five[k]
    {
    }
  }
}

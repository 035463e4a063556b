/** Vert.x `JsonObject`: as a value, a map from field names to JSON values,
    and, where the code changes one in place, a heap object holding such a map. */
module Json {

  /** java.lang.Integer */
  type Int32 = x: int | -0x8000_0000 <= x < 0x8000_0000

  /** java.lang.Long */
  type Int64 = x: int | -0x8000_0000_0000_0000 <= x < 0x8000_0000_0000_0000

  /** The kinds of value a configuration object holds; JNull is an explicit JSON null. */
  datatype JVal =
    | JNull
    | JString(str: string)
    | JInt(int32: Int32)
    | JLong(int64: Int64)
    | JObject(fields: map<string, JVal>)

  type JsonObject = map<string, JVal>

  /** The untyped lookup behind Vert.x's `getString`/`getInteger`/`getLong`:
      an absent key reads as null. */
  function Get(obj: JsonObject, key: string): JVal
  {
    if key in obj then obj[key] else JNull
  }

  /** The lookup yields a non-null value. */
  predicate Present(obj: JsonObject, key: string)
  {
    key in obj && obj[key] != JNull
  }

  /** A `JsonObject` instance whose entries `put` and `remove` change in place. */
  class MutableJsonObject {
    var fields: JsonObject

    constructor (fields: JsonObject)
      ensures this.fields == fields
    {
      this.fields := fields;
    }

    /** `copy()`: a new instance with the same entries, sharing nothing with
        this one that a later `put` or `remove` could reach. */
    method Copy() returns (c: MutableJsonObject)
      ensures fresh(c) && c.fields == fields
    {
      c := new MutableJsonObject(fields);
    }

    /** `put(key, value)`: sets the entry and returns the receiver for chaining. */
    method Put(key: string, value: JVal) returns (self: MutableJsonObject)
      modifies this
      ensures fields == old(fields)[key := value] && self == this
    {
      fields := fields[key := value];
      self := this;
    }

    /** `remove(key)`: drops the entry and returns the value it held, null if none. */
    method Remove(key: string) returns (removed: JVal)
      modifies this
      ensures fields == old(fields) - {key}
      ensures removed == Get(old(fields), key)
    {
      removed := Get(fields, key);
      fields := fields - {key};
    }
  }
}

/** The validated lookups `getConfigString`, `getConfigInteger` and
    `getConfigLong`: a Vert.x getter followed by `checkNotNull`. */
module JsonObjectConfigs {
  import opened Exceptions
  import opened Json

  /** The message `checkNotNull` is given. */
  function MissingMessage(key: string): string
  {
    "Missing config value for key: " + key
  }

  /** `checkNotNull(this.getX(key))`: an absent key and an explicit null both
      read as null and fail alike. */
  function CheckNotNull(obj: JsonObject, key: string): (r: Result<JVal>)
    ensures r.Ok? <==> Present(obj, key)
    ensures r.Ok? ==> key in obj && r.value == obj[key] && r.value != JNull
    ensures r.Err? ==> r.error == IllegalState(MissingMessage(key))
  {
    var v := Get(obj, key);
    if v == JNull then Err(IllegalState(MissingMessage(key))) else Ok(v)
  }

  function GetConfigString(obj: JsonObject, key: string): (r: Result<string>)
    ensures r.Ok? <==> Present(obj, key) && obj[key].JString?
    ensures r.Ok? ==> obj[key] == JString(r.value)
    ensures !Present(obj, key) ==> r == Err(IllegalState(MissingMessage(key)))
    ensures Present(obj, key) && !obj[key].JString? ==> r == Err(ClassCast(key))
  {
    var v :- CheckNotNull(obj, key);
    if v.JString? then Ok(v.str) else Err(ClassCast(key))
  }

  function GetConfigInteger(obj: JsonObject, key: string): (r: Result<Int32>)
    ensures r.Ok? <==> Present(obj, key) && obj[key].JInt?
    ensures r.Ok? ==> obj[key] == JInt(r.value)
    ensures !Present(obj, key) ==> r == Err(IllegalState(MissingMessage(key)))
    ensures Present(obj, key) && !obj[key].JInt? ==> r == Err(ClassCast(key))
  {
    var v :- CheckNotNull(obj, key);
    if v.JInt? then Ok(v.int32) else Err(ClassCast(key))
  }

  function GetConfigLong(obj: JsonObject, key: string): (r: Result<Int64>)
    ensures r.Ok? <==> Present(obj, key) && obj[key].JLong?
    ensures r.Ok? ==> obj[key] == JLong(r.value)
    ensures !Present(obj, key) ==> r == Err(IllegalState(MissingMessage(key)))
    ensures Present(obj, key) && !obj[key].JLong? ==> r == Err(ClassCast(key))
  {
    var v :- CheckNotNull(obj, key);
    if v.JLong? then Ok(v.int64) else Err(ClassCast(key))
  }

  /** The three getters fail in the same way on a missing value, and an explicit
      null is indistinguishable from an absent key. */
  lemma GettersShareFailure(obj: JsonObject, key: string)
    ensures var absent := obj - {key};
      && (!Present(obj, key) ==> GetConfigString(obj, key) == GetConfigString(absent, key))
      && (!Present(obj, key) ==> GetConfigInteger(obj, key) == GetConfigInteger(absent, key))
      && (!Present(obj, key) ==> GetConfigLong(obj, key) == GetConfigLong(absent, key))
    ensures !Present(obj, key) ==>
      && GetConfigString(obj, key).Err? && GetConfigInteger(obj, key).Err? && GetConfigLong(obj, key).Err?
      && GetConfigString(obj, key).error == GetConfigInteger(obj, key).error == GetConfigLong(obj, key).error
      == IllegalState(MissingMessage(key))
    ensures GetConfigString(obj[key := JNull], key) == GetConfigString(obj - {key}, key)
  {
  }
}

/**
 * The parsed JSON tree (base::Value) and the typed dictionary lookups the
 * logo parser uses. The JSON reader itself is not modelled.
 */
module Json {
  import opened Wrappers

  /** A C++ `int`. */
  newtype int32 = x: int | -0x8000_0000 <= x < 0x8000_0000

  /**
   * A base::Value. The JSON reader yields IntegerValue for a number that is
   * an integer fitting an `int`, and DoubleValue for every other number.
   */
  datatype Value =
    | NullValue
    | BooleanValue(b: bool)
    | IntegerValue(i: int32)
    | DoubleValue(d: real)
    | StringValue(s: string)
    | ListValue(items: seq<Value>)
    | DictionaryValue(entries: map<string, Value>)

  type Dictionary = map<string, Value>

  /** DictionaryValue::GetDictionary: succeeds only when the key holds a dictionary. */
  function GetDictionary(d: Dictionary, key: string): (r: Option<Dictionary>)
    ensures r.Some? <==> key in d && d[key].DictionaryValue?
    ensures r.Some? ==> r.value == d[key].entries
  {
    if key in d && d[key].DictionaryValue? then Some(d[key].entries) else None
  }

  /** DictionaryValue::GetString: succeeds only when the key holds a string. */
  function GetString(d: Dictionary, key: string): (r: Option<string>)
    ensures r.Some? <==> key in d && d[key].StringValue?
    ensures r.Some? ==> r.value == d[key].s
  {
    if key in d && d[key].StringValue? then Some(d[key].s) else None
  }

  /** DictionaryValue::GetInteger: succeeds only when the key holds an integer. */
  function GetInteger(d: Dictionary, key: string): (r: Option<int32>)
    ensures r.Some? <==> key in d && d[key].IntegerValue?
    ensures r.Some? ==> r.value == d[key].i
  {
    if key in d && d[key].IntegerValue? then Some(d[key].i) else None
  }
}

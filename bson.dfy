/** The slice of BSON that the resolvers use: string and double values,
    and documents as maps from field names to values. */
module Bson {
  import opened Wrappers

  /** An IEEE-754 double (`f64`), kept as its 64-bit pattern. The resolvers
      only store and copy prices, so no arithmetic is defined on it. */
  datatype F64 = F64(bits: bv64)

  /** `Bson::String` and `Bson::Double`. */
  datatype Value = String(str: string) | Double(double: F64)

  /** A document: field name to value. The `_id` field that the server adds
      on insertion is not modelled. */
  type Document = map<string, Value>

  /** `Document::get_str`: the string under `key`, or None when the field is
      missing or holds another type. */
  function GetStr(d: Document, key: string): (r: Option<string>)
    ensures r.Some? <==> key in d && d[key].String?
    ensures r.Some? ==> d[key] == String(r.value)
  {
    if key in d && d[key].String? then Some(d[key].str) else None
  }

  /** `Document::get_f64`: the double under `key`, or None when the field is
      missing or holds another type. */
  function GetF64(d: Document, key: string): (r: Option<F64>)
    ensures r.Some? <==> key in d && d[key].Double?
    ensures r.Some? ==> d[key] == Double(r.value)
  {
    if key in d && d[key].Double? then Some(d[key].double) else None
  }
}

/**
  The JSON values the widget and the downloader read, with the conversions
  of Qt's QJsonValue/QJsonObject/QJsonArray. Every conversion is total and
  falls back to Qt's default: an empty object, an empty array, a null string
  or the integer the caller supplies.
 */
module QJson {
  import opened Common

  /** A JSON value. Numbers are integral; `Undefined` is what a lookup of a missing key yields. */
  datatype Value =
    | Undefined
    | Null
    | Bool(b: bool)
    | Number(n: int)
    | String(s: string)
    | Array(items: seq<Value>)
    | Object(members: map<string, Value>)

  type JsonObject = map<string, Value>

  /** QJsonObject::value: the member under `key`, or Undefined. */
  function Get(obj: JsonObject, key: string): Value {
    if key in obj then obj[key] else Undefined
  }

  /** QJsonValue::toObject(): the object, or an empty object for any other value. */
  function ToObject(v: Value): JsonObject {
    if v.Object? then v.members else map[]
  }

  /** QJsonValue::toArray(): the array, or an empty array for any other value. */
  function ToArray(v: Value): seq<Value> {
    if v.Array? then v.items else []
  }

  /** QJsonValue::toInt(default): the number when it fits a C++ int, otherwise `default`. */
  function ToInt(v: Value, default: int32): int32 {
    if v.Number? && InInt32Range(v.n) then v.n as int32 else default
  }

  /** QJsonValue::toString(): the string, or a null QString (None) for any other value. */
  function ToQString(v: Value): Option<string> {
    if v.String? then Some(v.s) else None
  }

  /** The characters of QJsonValue::toString(); a null QString has none. */
  function ToText(v: Value): string {
    ToQString(v).GetOr("")
  }

  /** `key` holds an object with at least one member. */
  predicate HasNonEmptyObject(obj: JsonObject, key: string) {
    key in obj && obj[key].Object? && |obj[key].members| > 0
  }

  /** `key` holds an array with at least one element. */
  predicate HasNonEmptyArray(obj: JsonObject, key: string) {
    key in obj && obj[key].Array? && |obj[key].items| > 0
  }

  /** `key` holds a string with at least one character. */
  predicate HasNonEmptyString(obj: JsonObject, key: string) {
    key in obj && obj[key].String? && |obj[key].s| > 0
  }

  /**
    The `obj.value(key).toObject().isEmpty()` idiom: the fetched object is
    non-empty exactly when the key holds a non-empty object, and then it is
    that object.
   */
  lemma ObjectMember(obj: JsonObject, key: string)
    ensures |ToObject(Get(obj, key))| > 0 <==> HasNonEmptyObject(obj, key)
    ensures HasNonEmptyObject(obj, key) ==> ToObject(Get(obj, key)) == obj[key].members
  {
  }

  /** The `obj.value(key).toArray().isEmpty()` idiom, as for objects. */
  lemma ArrayMember(obj: JsonObject, key: string)
    ensures |ToArray(Get(obj, key))| > 0 <==> HasNonEmptyArray(obj, key)
    ensures HasNonEmptyArray(obj, key) ==> ToArray(Get(obj, key)) == obj[key].items
  {
  }
}

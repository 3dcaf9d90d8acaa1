/**
 * JavaScript values as `JSON.parse` produces them, with the parts of JavaScript's
 * semantics the stream handlers rely on: truthiness, property and index access (and
 * the TypeError thrown when the base is `undefined` or `null`), `Object.values`, the
 * `in` operator and the conversion `String(v)` that `+=` on a string performs.
 *
 * An object's members are listed in JavaScript's property order with distinct keys,
 * as the parser hands them over; numbers are integers.
 */
module Json {
  import opened Wrappers
  import opened JsText

  datatype Json =
    | JNull
    | JBool(b: bool)
    | JNum(n: int)
    | JStr(s: string)
    | JArr(items: seq<Json>)
    | JObj(members: seq<Member>)

  datatype Member = Member(key: string, value: Json)

  /** The outcome of `JSON.parse`: a value, or the message of the SyntaxError it throws. */
  datatype Parsed = Parsed(value: Json) | Malformed(message: string)

  /** `JSON.parse`, which the model takes as a parameter. */
  type Parser = string -> Parsed

  /** The TypeError thrown by reading a property of `undefined` or `null`. */
  datatype TypeError = TypeError

  /** JavaScript truthiness of a value that is present. */
  predicate Truthy(j: Json) {
    match j
    case JNull => false
    case JBool(b) => b
    case JNum(n) => n != 0
    case JStr(s) => s != []
    case _ => true
  }

  /** Truthiness of a value that may be `undefined` (`None`). */
  predicate TruthyOpt(v: Option<Json>) {
    v.Some? && Truthy(v.value)
  }

  /** The value stored under `key` in an object's members. */
  function Lookup(members: seq<Member>, key: string): (r: Option<Json>)
    ensures r.Some? <==> exists i :: 0 <= i < |members| && members[i].key == key
    ensures r.Some? ==> exists i :: 0 <= i < |members| && members[i] == Member(key, r.value)
  {
    if members == [] then None
    else if members[0].key == key then Some(members[0].value)
    else
      var r := Lookup(members[1..], key);
      assert forall i :: 1 <= i < |members| ==> members[i] == members[1..][i - 1];
      r
  }

  /** `j.name` for a property name that is not an array index: only an object has one. */
  function Prop(j: Json, name: string): (r: Option<Json>)
    ensures r.Some? ==> j.JObj?
  {
    if j.JObj? then Lookup(j.members, name) else None
  }

  /** `j[i]`: an array element, a one-character string, or an object's member named by
      the decimal form of `i`. */
  function Elem(j: Json, i: nat): (r: Option<Json>)
    ensures j.JArr? ==> (r.Some? <==> i < |j.items|)
    ensures j.JStr? && i < |j.s| ==> r == Some(JStr([j.s[i]]))
    ensures j.JNull? || j.JBool? || j.JNum? ==> r == None
  {
    match j
    case JArr(items) => if i < |items| then Some(items[i]) else None
    case JStr(s) => if i < |s| then Some(JStr([s[i]])) else None
    case JObj(members) => Lookup(members, NatToString(i))
    case _ => None
  }

  /** `v.name` where `v` may be `undefined`: a TypeError when `v` is `undefined` or `null`. */
  function PropOf(v: Option<Json>, name: string): (r: Result<Option<Json>, TypeError>)
    ensures r.Err? <==> v == None || v == Some(JNull)
  {
    if v == None || v == Some(JNull) then Err(TypeError) else Ok(Prop(v.value, name))
  }

  /** `v[i]` where `v` may be `undefined`: a TypeError when `v` is `undefined` or `null`. */
  function ElemOf(v: Option<Json>, i: nat): (r: Result<Option<Json>, TypeError>)
    ensures r.Err? <==> v == None || v == Some(JNull)
  {
    if v == None || v == Some(JNull) then Err(TypeError) else Ok(Elem(v.value, i))
  }

  /** `key in j`; a TypeError unless `j` is an object or an array (arrays hold no key
      that is not an index, and the names used here are not indices). */
  function HasKey(j: Json, key: string): (r: Result<bool, TypeError>)
    ensures r == Ok(true) <==> j.JObj? && Lookup(j.members, key).Some?
  {
    match j
    case JObj(members) => Ok(Lookup(members, key).Some?)
    case JArr(_) => Ok(false)
    case _ => Err(TypeError)
  }

  /** `String(j)`: the text a value contributes to a string concatenation. */
  function ToJsString(j: Json): (r: string)
    ensures j.JStr? ==> r == j.s
    decreases j, 1
  {
    match j
    case JNull => "null"
    case JBool(b) => if b then "true" else "false"
    case JNum(n) => IntToString(n)
    case JStr(s) => s
    case JArr(items) => JoinItems(j, 0)
    case JObj(_) => "[object Object]"
  }

  /** `Array.prototype.join(',')` over the elements of `j` from index `i` on; a `null`
      element contributes nothing. */
  function JoinItems(j: Json, i: nat): string
    requires j.JArr?
    decreases j, 0, |j.items| - i
  {
    if i >= |j.items| then ""
    else
      var item := j.items[i];
      var text := if item.JNull? then "" else ToJsString(item);
      if i + 1 == |j.items| then text else text + "," + JoinItems(j, i + 1)
  }

  /** `String(v)` where `v` may be `undefined`. */
  function OptToJsString(v: Option<Json>): (r: string)
    ensures v.None? ==> r == "undefined"
  {
    if v.None? then "undefined" else ToJsString(v.value)
  }

  /** The number of entries `Object.values` (or an array's own iteration) yields. */
  function Count(j: Json): nat {
    match j
    case JArr(items) => |items|
    case JObj(members) => |members|
    case JStr(s) => |s|
    case _ => 0
  }

  /** Entry `i` of `Object.values(j)`, or of `j` itself when it is an array;
      `Object.values` of a string yields its characters. */
  function ValueAt(j: Json, i: nat): (r: Json)
    requires i < Count(j)
    ensures j.JArr? || j.JObj? ==> r < j
  {
    match j
    case JArr(items) => items[i]
    case JObj(members) => members[i].value
    case JStr(s) => JStr([s[i]])
  }

  /** Whether `typeof j === 'object'` with `j !== null`, arrays included. */
  predicate IsContainer(j: Json) {
    j.JArr? || j.JObj?
  }
}

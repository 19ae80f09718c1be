/**
 The small part of JavaScript's value model that the relay server touches:
 the values a client can send in a message, property lookup on them, and
 the nullish-coalescing operator `??`.
 */
module JsValues {

  datatype Option<T> = None | Some(value: T)

  /** A value decoded from a client message. Numbers are kept as integers:
      the relay only ever writes the literal 0 and never does arithmetic. */
  datatype JsValue =
    | Undefined
    | Null
    | Bool(b: bool)
    | Num(n: int)
    | Str(s: string)
    | Obj(fields: map<string, JsValue>)

  /** `v?.key` for the property names the relay reads (`name`, `type`): an
      object yields its own property, every other value yields `undefined`.
      Plain `v.key` throws on null and undefined instead; the relay only
      applies it to a value already validated as a string, where the two
      agree. */
  function Member(v: JsValue, key: string): (r: JsValue)
    ensures r != Undefined ==> v.Obj? && key in v.fields && v.fields[key] == r
    ensures v.Obj? && key in v.fields ==> r == v.fields[key]
  {
    match v
    case Obj(fields) => if key in fields then fields[key] else Undefined
    case _ => Undefined
  }

  /** `v ?? fallback`: the fallback exactly when `v` is null or undefined. */
  function Coalesce(v: JsValue, fallback: JsValue): (r: JsValue)
    ensures r == fallback || r == v
    ensures r == v <== !(v.Undefined? || v.Null?)
    ensures r == fallback <== v.Undefined? || v.Null?
  {
    if v.Undefined? || v.Null? then fallback else v
  }
}

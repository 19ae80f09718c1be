/**
 Validation of room names (`isValidRoomName` in socket.js). The room table
 is keyed by untrusted strings, so the two keys that have a special meaning
 on JavaScript objects are refused together with the empty string.
 */
module RoomNames {
  import opened JsValues

  /** Names that would reach the object prototype machinery. */
  const Reserved: set<string> := {"__proto__", "constructor"}

  /** A non-empty string that is not reserved. */
  predicate IsValidRoomName(v: JsValue)
    ensures IsValidRoomName(v) <==> v.Str? && v.s !in Reserved + {""}
  {
    && v.Str?
    && |v.s| > 0
    && v.s != "__proto__"
    && v.s != "constructor"
  }

  /** A value that passes validation is a string, and a string has no
      `name` property: reading `.name` off a valid room name gives
      `undefined`. This is why `create_room`, which validates the whole
      payload but keys the table by its `name`, cannot work as written. */
  lemma ValidNameHasNoNameProperty(v: JsValue)
    requires IsValidRoomName(v)
    ensures Member(v, "name") == Undefined
  {
  }
}

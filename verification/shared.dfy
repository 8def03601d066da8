/** Values shared by every part of the model: optional JavaScript properties,
    JavaScript truthiness of strings, and the senior profile carried in task
    attributes. */
module Shared {

  /** An optional property: `None` is an absent (undefined) property. */
  datatype Option<+T> = None | Some(value: T) {

    /** The property's value, or `default` when it is absent. */
    function GetOr(default: T): T {
      match this
      case Some(v) => v
      case None => default
    }
  }

  /** JavaScript truthiness of an optional string: present and non-empty. */
  predicate Truthy(s: Option<string>) {
    s.Some? && s.value != ""
  }

  /** The JavaScript expression `s || fallback` on an optional string. */
  function OrElse(s: Option<string>, fallback: string): (r: string)
    ensures Truthy(s) ==> r == s.value
    ensures !Truthy(s) ==> r == fallback
  {
    if Truthy(s) then s.value else fallback
  }

  /** The `seniorData` object stored in a task's attributes; each field may be
      missing (an empty object `{}` has every field missing). */
  datatype SeniorData = SeniorData(name: Option<string>, age: Option<string>, address: Option<string>)

  /** The empty object `{}`. */
  const EmptySeniorData := SeniorData(None, None, None)
}

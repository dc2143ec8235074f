/** Shared vocabulary: optional values, document identifiers, and the
    truthiness rules of the request bodies the handlers inspect. */
module Common {

  datatype Option<T> = None | Some(value: T)

  datatype Result<T, E> = Ok(value: T) | Err(error: E)

  /** The status code and message a handler answers with. */
  datatype Reply = Reply(status: nat, message: string)

  /** A document identifier (a MongoDB ObjectId in its string form). */
  type Id = string

  /** `!field` is false: a body field that is present and not the empty string. */
  predicate Present(field: Option<string>)
  {
    field.Some? && field.value != ""
  }

  /** `field || fallback` for a string body field. */
  function OrElse(field: Option<string>, fallback: string): (r: string)
    ensures Present(field) ==> r == field.value
    ensures !Present(field) ==> r == fallback
  {
    if Present(field) then field.value else fallback
  }

  /** `field || current` where the stored value may itself be missing:
      a truthy new value replaces it, anything else keeps it. */
  function Supplied(field: Option<string>, current: Option<string>): (r: Option<string>)
    ensures Present(field) ==> r == field
    ensures !Present(field) ==> r == current
  {
    if Present(field) then field else current
  }

  /** Number of elements of `s` that satisfy `p` (`s.filter(p).length`). */
  function CountWhere<T>(s: seq<T>, p: T -> bool): (n: nat)
    ensures n <= |s|
  {
    if s == [] then 0 else (if p(s[0]) then 1 else 0) + CountWhere(s[1..], p)
  }

  /** First index whose element satisfies `p`, as `findOne` returns the
      first matching document in insertion order. */
  function IndexWhere<T>(s: seq<T>, p: T -> bool): (r: Option<nat>)
    ensures r.Some? ==> r.value < |s| && p(s[r.value])
    ensures r.Some? ==> forall j :: 0 <= j < r.value ==> !p(s[j])
    ensures r.None? <==> forall j :: 0 <= j < |s| ==> !p(s[j])
  {
    if s == [] then None
    else if p(s[0]) then Some(0)
    else match IndexWhere(s[1..], p)
      case None => None
      case Some(k) => Some(k + 1)
  }
}

/** A value that may be absent: JavaScript's `null` / `undefined`. */
module Optional {

  datatype Option<+T> = None | Some(value: T) {

    /** The value, or `default` when absent (JavaScript's `x ?? default`). */
    function GetOr(default: T): T {
      match this
      case Some(v) => v
      case None => default
    }
  }

  /** `s || null` for a text value: the empty string is falsy, so it becomes null. */
  function OrNull(s: string): (r: Option<string>)
    ensures r == None <==> s == ""
    ensures r.Some? ==> r.value == s
  {
    if s == "" then None else Some(s)
  }

  /** `x || ''` for a nullable text value. */
  function OrEmpty(o: Option<string>): (s: string)
    ensures o.Some? ==> s == o.value
    ensures o.None? ==> s == ""
  {
    o.GetOr("")
  }

  /**
   * The two conversions undo each other: text survives a trip through a
   * nullable column, and so does a nullable value that is never `''`.
   */
  lemma NullRoundTrip(s: string, o: Option<string>)
    ensures OrEmpty(OrNull(s)) == s
    ensures o != Some("") ==> OrNull(OrEmpty(o)) == o
  {
  }
}

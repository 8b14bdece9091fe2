/** A value that may be missing, as a Python None or an absent dictionary key is. */
module Options {
  datatype Option<+T> = None | Some(value: T)

  /** The first value that is present, as a chain of Python `or` picks it. */
  function Or<T>(a: Option<T>, b: Option<T>): Option<T> {
    if a.Some? then a else b
  }

  /** `r` is the first of the choices that is present, or missing if all are. */
  ghost predicate FirstKnown<T(!new)>(choices: seq<Option<T>>, r: Option<T>) {
    if r.None? then forall c | c in choices :: c.None?
    else exists i :: 0 <= i < |choices| && choices[i] == r && forall j | 0 <= j < i :: choices[j].None?
  }
}

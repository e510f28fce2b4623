/** What the enumeration library does for every enumeration: look a member up
    by its value. */
module Enumeration {
  import opened Wrappers

  /** `memberByValue` restricted to a list of members: the first member whose
      value is `v`, or None, where the enumeration library throws. */
  function FindByValue<T(==)>(ms: seq<T>, value: T -> string, v: string): (r: Option<T>)
    ensures r.Some? ==> r.value in ms && value(r.value) == v
    ensures r.None? ==> forall i :: 0 <= i < |ms| ==> value(ms[i]) != v
  {
    if ms == [] then None
    else if value(ms[0]) == v then Some(ms[0])
    else FindByValue(ms[1..], value, v)
  }

  /** Searching past a member whose value differs is searching the rest. */
  lemma FindStep<T>(ms: seq<T>, value: T -> string, v: string)
    requires ms != [] && value(ms[0]) != v
    ensures FindByValue(ms, value, v) == FindByValue(ms[1..], value, v)
  {
  }
}

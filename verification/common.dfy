/** Small generic helpers shared by the model: an optional value (Python's
    None or a value), Python truthiness of an optional string, duplicate-free
    sequences, an enumeration of a finite set in an unspecified order, and a
    sequence filter. */
module Common {

  /** A value that may be absent (a Python `None`). */
  datatype Option<+T> = None | Some(value: T)

  /** The outcome of validating a form or field: the cleaned value, or the
      validation error. */
  datatype Cleaned<+T, +E> = Valid(value: T) | Invalid(error: E)

  /** Python truthiness of an optional string: `None` and `""` are falsy. */
  predicate Truthy(s: Option<string>)
  {
    s.Some? && s.value != ""
  }

  /** No element occurs twice. */
  ghost predicate Distinct<T>(s: seq<T>)
  {
    forall i, j :: 0 <= i < j < |s| ==> s[i] != s[j]
  }

  /** The elements of a finite set, each exactly once, in an order the model
      leaves unspecified (a database query or a dictionary walk in the
      Django application). */
  ghost function Enumerate<T(!new)>(s: set<T>): (r: seq<T>)
    ensures |r| == |s|
    ensures forall x :: x in r <==> x in s
    ensures Distinct(r)
    decreases s
  {
    if s == {} then []
    else
      var x :| x in s;
      [x] + Enumerate(s - {x})
  }

  /** The elements of `s` that satisfy `keep`, in their original order. */
  function Filter<T(!new)>(s: seq<T>, keep: T -> bool): (r: seq<T>)
    ensures |r| <= |s|
    ensures forall x :: multiset(r)[x] == if keep(x) then multiset(s)[x] else 0
    ensures forall x :: x in r <==> x in s && keep(x)
  {
    if s == [] then []
    else
      var rest := Filter(s[1..], keep);
      assert s == [s[0]] + s[1..];
      if keep(s[0]) then [s[0]] + rest else rest
  }
}

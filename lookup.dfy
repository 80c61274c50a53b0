/**
 * `get_obj` and the found-variable loops that resolve a datacenter or a
 * cluster: walk a container view in enumeration order and keep the first
 * object whose name equals the wanted name exactly.
 */
module Lookup {
  import opened Wrappers

  /** The first object of `view` whose name is `name`; a None name matches nothing. */
  function FirstNamed<T>(view: seq<T>, nameOf: T -> string, name: Option<string>): (r: Option<T>)
    ensures r.None? <==> forall k :: 0 <= k < |view| ==> Some(nameOf(view[k])) != name
    ensures r.Some? ==> exists k :: 0 <= k < |view| && view[k] == r.value && Some(nameOf(view[k])) == name
                                    && forall m :: 0 <= m < k ==> Some(nameOf(view[m])) != name
    decreases |view|
  {
    if view == [] then None
    else if Some(nameOf(view[0])) == name then Some(view[0])
    else
      var r := FirstNamed(view[1..], nameOf, name);
      assert forall k :: 0 < k < |view| ==> view[k] == view[1..][k - 1];
      r
  }

  /** Object `i` of `view` is the first one named `name`. */
  predicate IsFirstNamed<T>(view: seq<T>, nameOf: T -> string, i: int, name: string)
  {
    0 <= i < |view| && nameOf(view[i]) == name && forall m :: 0 <= m < i ==> nameOf(view[m]) != name
  }

  /** The lookup of a name finds the object that is first with that name, and nothing when none has it. */
  lemma FirstNamedIsFirst<T>(view: seq<T>, nameOf: T -> string, name: string)
    ensures forall i :: IsFirstNamed(view, nameOf, i, name) ==> FirstNamed(view, nameOf, Some(name)) == Some(view[i])
    ensures FirstNamed(view, nameOf, Some(name)).Some? ==>
              exists i :: IsFirstNamed(view, nameOf, i, name) && FirstNamed(view, nameOf, Some(name)) == Some(view[i])
  {
    forall i | IsFirstNamed(view, nameOf, i, name)
      ensures FirstNamed(view, nameOf, Some(name)) == Some(view[i])
    {
      var r := FirstNamed(view, nameOf, Some(name));
      assert Some(nameOf(view[i])) == Some(name);
      var k :| 0 <= k < |view| && view[k] == r.value && Some(nameOf(view[k])) == Some(name)
               && forall m :: 0 <= m < k ==> Some(nameOf(view[m])) != Some(name);
      assert nameOf(view[k]) == name;
      assert k == i;
    }
  }

  /** The search loop with an early break, proved to find the first named object. */
  method GetObj<T>(view: seq<T>, nameOf: T -> string, name: Option<string>) returns (obj: Option<T>)
    ensures obj == FirstNamed(view, nameOf, name)
  {
    obj := None;
    var i := 0;
    while i < |view|
      invariant 0 <= i <= |view|
      invariant FirstNamed(view[i..], nameOf, name) == FirstNamed(view, nameOf, name)
    {
      if Some(nameOf(view[i])) == name {
        obj := Some(view[i]);
        break;
      }
      assert view[i..][1..] == view[i + 1..];
      i := i + 1;
    }
  }
}

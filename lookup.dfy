/** The first-match search behind every `WithName` / `WithID` lookup of the loader: scan in
    order, return the first element that matches, or nothing. */
module Lookup {
  import opened Wrappers

  function FirstIndex<T>(s: seq<T>, matches: T -> bool): (r: Option<nat>)
    ensures r.Some? ==> r.value < |s| && matches(s[r.value])
    ensures r.Some? ==> forall j :: 0 <= j < r.value ==> !matches(s[j])
    ensures r.None? <==> forall j :: 0 <= j < |s| ==> !matches(s[j])
  {
    if s == [] then None
    else if matches(s[0]) then Some(0)
    else match FirstIndex(s[1..], matches)
      case None => None
      case Some(k) => Some(k + 1)
  }

  /** The element found by FirstIndex. */
  function FirstMatch<T>(s: seq<T>, matches: T -> bool): (r: Option<T>)
    ensures r.None? <==> forall j :: 0 <= j < |s| ==> !matches(s[j])
    ensures r.Some? ==> exists i :: 0 <= i < |s| && s[i] == r.value && matches(s[i]) &&
                                    forall j :: 0 <= j < i ==> !matches(s[j])
  {
    match FirstIndex(s, matches)
    case None => None
    case Some(i) => Some(s[i])
  }
}

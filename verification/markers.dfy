/** The `if 'a' in key: ... elif 'b' in key: ...` chains of both scripts: the
    first marker of a list that occurs in the key decides the branch. */
module Markers {
  import opened Results
  import opened Text

  /** Index of the first marker contained in `key`, or None when no branch of
      the chain is taken. */
  function FirstMatch(markers: seq<string>, key: string): (r: Option<nat>)
    ensures r.Some? ==> r.value < |markers| && Contains(key, markers[r.value])
    ensures r.Some? ==> forall j :: 0 <= j < r.value ==> !Contains(key, markers[j])
    ensures r.None? <==> forall j :: 0 <= j < |markers| ==> !Contains(key, markers[j])
    decreases |markers|
  {
    if |markers| == 0 then None
    else if Contains(key, markers[0]) then Some(0)
    else match FirstMatch(markers[1..], key)
      case None => None
      case Some(i) => Some(i + 1)
  }
}

/** Searching and counting over sequences of flags, shared by the DOM models. */
module Seqs {
  import opened Wrappers

  /** The position of the first true flag, as `querySelector` and `break` loops find it. */
  function FirstTrue(flags: seq<bool>): (r: Option<nat>)
    ensures r.None? <==> forall k :: 0 <= k < |flags| ==> !flags[k]
    ensures r.Some? ==> r.value < |flags| && flags[r.value] && forall j :: 0 <= j < r.value ==> !flags[j]
    decreases |flags|
  {
    if |flags| == 0 then None
    else if flags[0] then Some(0)
    else
      var r := FirstTrue(flags[1..]);
      if r.None? then None else Some(r.value + 1)
  }
}

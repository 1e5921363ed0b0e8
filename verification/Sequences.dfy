/** Searching a sequence. */
module Sequences {
  import opened Options

  /** The first place at or after `from` whose element satisfies `p`. */
  function FirstFrom<T>(s: seq<T>, p: T -> bool, from: nat): (i: Option<nat>)
    requires from <= |s|
    ensures i.Some? ==> from <= i.value < |s| && p(s[i.value])
    ensures forall k :: from <= k < (if i.Some? then i.value else |s|) ==> !p(s[k])
    decreases |s| - from
  {
    if from == |s| then None else if p(s[from]) then Some(from) else FirstFrom(s, p, from + 1)
  }
}

/** Sequences of calls, taken apart at the end. */
module Sequences {
  lemma SplitLast<T>(first: seq<T>, more: seq<T>)
    requires more != []
    ensures first + more == (first + more[..|more| - 1]) + [more[|more| - 1]]
  {
    assert more == more[..|more| - 1] + [more[|more| - 1]];
  }
}

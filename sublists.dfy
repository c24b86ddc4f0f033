/**
 * Order-preserving sub-sequences, as `Array.prototype.filter` produces them.
 */
module Sublists {

  /** `sub` is `full` with some entries dropped and the rest kept in order. */
  predicate IsSublist<T(==)>(sub: seq<T>, full: seq<T>)
    decreases |full|
  {
    sub == [] || (full != [] && ((sub[0] == full[0] && IsSublist(sub[1..], full[1..])) || IsSublist(sub, full[1..])))
  }

  /** Every list is a sublist of itself. */
  lemma {:induction false} SublistRefl<T>(s: seq<T>)
    ensures IsSublist(s, s)
    decreases |s|
  {
    if s != [] {
      SublistRefl(s[1..]);
    }
  }
}

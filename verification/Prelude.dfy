/** Definitions shared by every module of the model. */
module Prelude {

  datatype Option<+T> = None | Some(value: T)

  /** A point on a clock, or a distance between two: an integer number of ticks of one fixed unit. */
  type Instant = int

  function Min(a: int, b: int): int { if a <= b then a else b }

  /** The elements of a sequence. */
  function Elements<T>(s: seq<T>): set<T> { set x | x in s }

  /** A sequence without repetitions has as many elements as positions. */
  lemma {:induction false} DistinctLength<T>(s: seq<T>)
    requires forall i, j :: 0 <= i < j < |s| ==> s[i] != s[j]
    ensures |Elements(s)| == |s|
  {
    if s != [] {
      var last := |s| - 1;
      DistinctLength(s[..last]);
      assert Elements(s) == Elements(s[..last]) + {s[last]};
    }
  }

  /** A set inside another is no larger. */
  lemma {:induction false} SubsetSize<T>(a: set<T>, b: set<T>)
    requires a <= b
    ensures |a| <= |b|
  {
    assert b == a + (b - a);
  }
}

/** Small shared vocabulary: optional values, results, bytes and round-up arithmetic. */
module Prelude {

  datatype Option<+T> = None | Some(value: T)

  datatype Result<+T, +E> = Ok(value: T) | Err(error: E)

  /** One byte of a file or buffer. */
  type Byte = b: int | 0 <= b < 256 witness 0

  /** A slice that falls into the middle part of a concatenation. */
  lemma SliceMiddle<T>(pre: seq<T>, mid: seq<T>, post: seq<T>, at: nat, len: nat)
    requires at + len <= |mid|
    ensures (pre + mid + post)[|pre| + at..|pre| + at + len] == mid[at..at + len]
  {
  }

  /** A slice of a slice. */
  lemma SliceOfSlice<T>(s: seq<T>, base: nat, got: nat, at: nat, len: nat)
    requires base + got <= |s| && at + len <= got
    ensures |s[base..base + got][at..at + len]| == len
    ensures s[base..base + got][at..at + len] == s[base + at..base + at + len]
  {
    var a, b := s[base..base + got][at..at + len], s[base + at..base + at + len];
    assert forall i :: 0 <= i < len ==> a[i] == b[i];
  }

  lemma DivisionBounds(n: nat, d: nat)
    requires d > 0
    ensures n / d >= 0 && n / d * d <= n < n / d * d + d
  {
  }

  /** The whole numbers from lo up to, not including, hi. */
  function Span(lo: int, hi: int): (r: set<int>)
    ensures forall p :: p in r <==> lo <= p < hi
    decreases hi - lo
  {
    if lo >= hi then {} else Span(lo, hi - 1) + {hi - 1}
  }

  lemma {:induction false} SpanCount(lo: int, hi: int)
    ensures |Span(lo, hi)| == if lo <= hi then hi - lo else 0
    decreases hi - lo
  {
    if lo < hi {
      SpanCount(lo, hi - 1);
    }
  }

  lemma SubsetSize<T>(a: set<T>, b: set<T>)
    requires a <= b
    ensures |a| <= |b|
  {
    assert b == a + (b - a);
  }

  lemma MultiplyMonotone(a: int, b: int, c: int)
    requires a <= b && c >= 0
    ensures a * c <= b * c
  {
    assert b * c == a * c + (b - a) * c;
  }

  /** An id of the range a store owns. */
  predicate Owned(lo: nat, hi: nat, id: int) {
    lo <= id < hi
  }

  function CountOwned(lo: nat, hi: nat, ids: seq<int>): nat {
    if ids == [] then 0
    else CountOwned(lo, hi, ids[..|ids| - 1]) + if Owned(lo, hi, ids[|ids| - 1]) then 1 else 0
  }
}

/** The index arithmetic the three carousels share: moving forward or backward over
    `n` slides with wrap-around, and the row of dot indicators. */
module Cyclic {

  /** `(i + 1) % n`: the next slide, wrapping from the last to the first. */
  function Next(i: nat, n: nat): (j: nat)
    requires i < n
    ensures j < n
    ensures j == if i + 1 == n then 0 else i + 1
  {
    (i + 1) % n
  }

  /** `(i - 1 + n) % n`: the previous slide, wrapping from the first to the last. */
  function Prev(i: nat, n: nat): (j: nat)
    requires i < n
    ensures j < n
    ensures j == if i == 0 then n - 1 else i - 1
  {
    (i - 1 + n) % n
  }

  /** Going back after going forward, or forward after going back, returns to the
      slide one started from. */
  lemma NextPrevInverse(i: nat, n: nat)
    requires i < n
    ensures Prev(Next(i, n), n) == i
    ensures Next(Prev(i, n), n) == i
  {
  }

  /** The slide reached after `k` steps forward. */
  function NextIter(i: nat, n: nat, k: nat): (j: nat)
    requires i < n
    ensures j < n
  {
    if k == 0 then i else Next(NextIter(i, n, k - 1), n)
  }

  /** `k` steps forward, for `k` up to `n`, move `k` places and wrap around once past
      the last slide. */
  lemma {:induction false} NextIterMoves(i: nat, n: nat, k: nat)
    requires i < n && k <= n
    ensures NextIter(i, n, k) == if i + k < n then i + k else i + k - n
  {
    if k > 0 {
      NextIterMoves(i, n, k - 1);
    }
  }

  /** `n` steps forward go round the whole carousel back to the start. */
  lemma FullCircle(i: nat, n: nat)
    requires i < n
    ensures NextIter(i, n, n) == i
    ensures forall k | 0 < k < n :: NextIter(i, n, k) != i
  {
    NextIterMoves(i, n, n);
    forall k | 0 < k < n ensures NextIter(i, n, k) != i {
      NextIterMoves(i, n, k);
    }
  }

  /** The dot indicators: one per slide, the dot at `index` active when
      `index === currentIndex`. */
  function Dots(n: nat, currentIndex: nat): (dots: seq<bool>)
    ensures |dots| == n
  {
    seq(n, index requires 0 <= index < n => index == currentIndex)
  }

  /** Over a valid index exactly one dot is active, the one of the current slide. */
  lemma ExactlyOneDot(n: nat, currentIndex: nat)
    requires currentIndex < n
    ensures (set index | 0 <= index < n && Dots(n, currentIndex)[index]) == {currentIndex}
  {
    var dots := Dots(n, currentIndex);
    assert dots[currentIndex];
  }
}

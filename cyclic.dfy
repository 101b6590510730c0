/**
 * Index arithmetic around a ring of `n` positions, shared by the gallery
 * lightbox, the testimonial carousel and the hero rotation: the updaters
 * `(prev + 1) % n` and `(prev - 1 + n) % n`, and the row of indicators of
 * which only the one at the current index is highlighted.
 */
module Cyclic {

  /** One step forward, wrapping from the last position to the first. */
  function Succ(i: nat, n: nat): (r: nat)
    requires n > 0
    ensures r < n
    ensures i < n ==> r == (if i == n - 1 then 0 else i + 1)
  {
    (i + 1) % n
  }

  /** One step back, wrapping from the first position to the last. */
  function Pred(i: nat, n: nat): (r: nat)
    requires n > 0
    ensures r < n
    ensures i < n ==> r == (if i == 0 then n - 1 else i - 1)
  {
    (i - 1 + n) % n
  }

  /** A step back undoes a step forward, and the reverse. */
  lemma PredSucc(i: nat, n: nat)
    requires i < n
    ensures Pred(Succ(i, n), n) == i
    ensures Succ(Pred(i, n), n) == i
  {
  }

  /** `k` steps forward from `i`. */
  function SuccN(i: nat, k: nat, n: nat): nat
    requires n > 0
    decreases k
  {
    if k == 0 then i else Succ(SuccN(i, k - 1, n), n)
  }

  /** Within one lap, `k` steps forward from `i` land on `i + k`, wrapped once past the end. */
  lemma {:induction false} SuccNWithinLap(i: nat, k: nat, n: nat)
    requires i < n && k <= n
    ensures SuccN(i, k, n) == if i + k < n then i + k else i + k - n
    decreases k
  {
    if k > 0 {
      SuccNWithinLap(i, k - 1, n);
    }
  }

  /** Stepping `a` then `b` times is stepping `a + b` times. */
  lemma {:induction false} SuccNCompose(i: nat, a: nat, b: nat, n: nat)
    requires n > 0
    ensures SuccN(i, a + b, n) == SuccN(SuccN(i, a, n), b, n)
    decreases b
  {
    if b > 0 {
      SuccNCompose(i, a, b - 1, n);
    }
  }

  /** `n` steps forward return to the start. */
  lemma FullCycle(i: nat, n: nat)
    requires i < n
    ensures SuccN(i, n, n) == i
  {
    SuccNWithinLap(i, n, n);
  }

  /** The position after `k` steps depends on `k` only modulo `n`: `k + n` steps equal `k` steps. */
  lemma Periodic(i: nat, k: nat, n: nat)
    requires i < n
    ensures SuccN(i, k + n, n) == SuccN(i, k, n)
  {
    SuccNCompose(i, n, k, n);
    FullCycle(i, n);
  }

  /** The indicator row: position `k` of `n` is highlighted iff it is the current one. */
  function Highlights(current: nat, n: nat): seq<bool>
  {
    seq(n, k => k == current)
  }

  /** The number of highlighted positions. */
  function CountTrue(flags: seq<bool>): nat
    decreases |flags|
  {
    if flags == [] then 0
    else CountTrue(flags[..|flags| - 1]) + (if flags[|flags| - 1] then 1 else 0)
  }

  /** Exactly one indicator is highlighted when the current index is in range, none otherwise. */
  lemma {:induction false} HighlightCount(current: nat, n: nat)
    ensures CountTrue(Highlights(current, n)) == if current < n then 1 else 0
    decreases n
  {
    if n > 0 {
      assert Highlights(current, n)[..n - 1] == Highlights(current, n - 1);
      HighlightCount(current, n - 1);
    }
  }

  /** With an index in range, the highlighted indicator is the current one and only it. */
  lemma HighlightedIsCurrent(current: nat, n: nat, k: nat)
    requires current < n && k < n
    ensures |Highlights(current, n)| == n
    ensures Highlights(current, n)[k] <==> k == current
    ensures CountTrue(Highlights(current, n)) == 1
  {
    HighlightCount(current, n);
  }
}

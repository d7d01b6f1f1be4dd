/** Counting events in a half-open span of time. */
module TimeWindows {

  predicate Sorted(times: seq<int>) {
    forall i, j | 0 <= i < j < |times| :: times[i] <= times[j]
  }

  function CountWithin(times: seq<int>, start: int, end: int): nat {
    if times == [] then 0
    else CountWithin(times[..|times| - 1], start, end) + (if start <= times[|times| - 1] < end then 1 else 0)
  }

  /** Any `n + 1` consecutive events span at least `width`. */
  predicate Sparse(times: seq<int>, n: nat, width: int) {
    forall i, j | 0 <= i && i + n <= j < |times| :: times[j] - times[i] >= width
  }

  /** Then no span of that width holds more than `n` of them. */
  lemma {:induction false} SparseFewWithin(times: seq<int>, n: nat, width: int, start: int, end: int)
    requires Sorted(times) && Sparse(times, n, width) && end - start <= width
    ensures CountWithin(times, start, end) <= n
  {
    if times != [] {
      var init, last := times[..|times| - 1], times[|times| - 1];
      if start <= last < end {
        TailCount(times, start, end, if |times| < n then |times| else n);
      } else {
        SparseFewWithin(init, n, width, start, end);
      }
    }
  }

  /** All but the last `k` events lie before the span. */
  lemma {:induction false} TailCount(times: seq<int>, start: int, end: int, k: nat)
    requires Sorted(times) && k <= |times| && (k < |times| ==> times[|times| - 1 - k] < start)
    ensures CountWithin(times, start, end) <= k
  {
    if k == 0 {
      NoneWithin(times, start, end);
    } else {
      TailCount(times[..|times| - 1], start, end, k - 1);
    }
  }

  lemma {:induction false} NoneWithin(times: seq<int>, start: int, end: int)
    requires Sorted(times) && (times != [] ==> times[|times| - 1] < start)
    ensures CountWithin(times, start, end) == 0
  {
    if times != [] {
      NoneWithin(times[..|times| - 1], start, end);
    }
  }
}

/** Counting events on a time line: from "events k positions apart are `gap` apart in time" to
  "every interval of length `gap` holds at most k events". Used by both rate limiters.
*/
module TimeLine {
  import opened Histories

  type Line = History<int>

  /** The clock's saturating difference of two instants. */
  function Elapsed(now: int, earlier: int): nat {
    if now >= earlier then now - earlier else 0
  }

  predicate EndsBy(a: Line, t: int) {
    a.Then? ==> a.last <= t
  }

  predicate Sorted(a: Line) {
    a.Then? ==> EndsBy(a.past, a.last) && Sorted(a.past)
  }

  /** Every event comes at least `gap` after the one `k` positions before it. */
  predicate Spaced(a: Line, k: nat, gap: int) {
    a.Then? ==>
      && Spaced(a.past, k, gap)
      && (k < Length(a) ==> a.last - Back(a, k) >= gap)
  }

  /** How many events fall in the half-open interval [lo, hi). */
  function CountIn(a: Line, lo: int, hi: int): nat {
    match a
    case Start => 0
    case Then(past, at) => CountIn(past, lo, hi) + (if lo <= at < hi then 1 else 0)
  }

  lemma {:induction false} SortedBack(a: Line, i: nat, j: nat)
    requires Sorted(a) && i <= j < Length(a)
    ensures Back(a, j) <= Back(a, i)
  {
    if i > 0 {
      SortedBack(a.past, i - 1, j - 1);
    } else if j > 0 {
      SortedBack(a.past, 0, j - 1);
    }
  }

  /** On a sorted line, exactly the newest events are the ones counted. */
  lemma {:induction false} CountNewest(a: Line, lo: int, hi: int, j: nat)
    requires Sorted(a) && j <= Length(a)
    ensures (j < Length(a) ==> Back(a, j) < lo) ==> CountIn(a, lo, hi) <= j
    ensures (j > 0 ==> lo <= Back(a, j - 1)) && EndsBy(a, hi - 1) ==> CountIn(a, lo, hi) >= j
  {
    if a.Start? {
    } else {
      CountNewest(a.past, lo, hi, if j > 0 then j - 1 else 0);
      if j > 0 {
        SortedBack(a, 0, j - 1);
      }
    }
  }

  /** Spacing bounds the number of events in any half-open interval of that length. */
  lemma {:induction false} SpacedCount(a: Line, k: nat, gap: nat, lo: int)
    requires Sorted(a) && Spaced(a, k, gap) && k >= 1
    ensures CountIn(a, lo, lo + gap) <= k
  {
    if a.Then? && lo <= a.last < lo + gap {
      CountNewest(a, lo, lo + gap, if k < Length(a) then k else Length(a));
    } else if a.Then? {
      SpacedCount(a.past, k, gap, lo);
    }
  }

  /** Neighbouring intervals add up. */
  lemma {:induction false} CountSplit(a: Line, lo: int, mid: int, hi: int)
    requires lo <= mid <= hi
    ensures CountIn(a, lo, hi) == CountIn(a, lo, mid) + CountIn(a, mid, hi)
  {
    if a.Start? {
    } else {
      CountSplit(a.past, lo, mid, hi);
    }
  }

  /** Nothing that is over by `t` is counted after `t`. */
  lemma {:induction false} CountAfterEnd(a: Line, lo: int, hi: int)
    requires Sorted(a) && EndsBy(a, lo - 1)
    ensures CountIn(a, lo, hi) == 0
  {
    if a.Start? {
    } else {
      CountAfterEnd(a.past, lo, hi);
    }
  }

  /** `n` further events, all at `t`. */
  function Repeated(a: Line, n: nat, t: int): Line {
    if n == 0 then a else Then(Repeated(a, n - 1, t), t)
  }

  lemma {:induction false} CountRepeated(a: Line, n: nat, t: int, lo: int, hi: int)
    ensures CountIn(Repeated(a, n, t), lo, hi) == CountIn(a, lo, hi) + (if lo <= t < hi then n else 0)
  {
    if n == 0 {
    } else {
      CountRepeated(a, n - 1, t, lo, hi);
    }
  }

  lemma {:induction false} SortedRepeated(a: Line, n: nat, t: int)
    requires Sorted(a) && EndsBy(a, t)
    ensures Sorted(Repeated(a, n, t)) && EndsBy(Repeated(a, n, t), t)
  {
    if n == 0 {
    } else {
      SortedRepeated(a, n - 1, t);
    }
  }
}

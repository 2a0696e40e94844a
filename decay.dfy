/** Time and decay arithmetic of the vote-escrow: week flooring, the slope of a
    locked amount and the decaying weight ("bias") of one lock. */
module Decay {

  /** One week in seconds; unlock times are floored to multiples of it. */
  const WEEK: int := 7 * 86400

  /** The longest lock, four years and a leap day in seconds. The weight of a
      lock decays to zero over at most this long. */
  const MAXTIME: int := (4 * 365 + 1) * 86400

  /** `t - t % WEEK`: the last week boundary at or before `t`. */
  function FloorWeek(t: int): (r: int)
    ensures r % WEEK == 0
    ensures r <= t < r + WEEK
  {
    t - t % WEEK
  }

  /** Truncating division of the amount by MAXTIME: the remainder is lost. */
  function Slope(amount: nat): (r: nat)
    ensures r * MAXTIME <= amount < (r + 1) * MAXTIME
  {
    amount / MAXTIME
  }

  /** Weight of a lock with the given amount and end, seen at time `t`:
      `slope * (end - t)` while the lock runs, zero once it has ended. */
  function Weight(amount: nat, end: int, t: int): (r: nat)
    ensures end <= t ==> r == 0
    ensures end > t ==> r == Slope(amount) * (end - t)
  {
    if end > t then Slope(amount) * (end - t) else 0
  }

  /** A lock never weighs more than its amount: the slope is rounded down and
      the remaining time is at most MAXTIME. */
  lemma WeightAtMostAmount(amount: nat, end: int, t: int)
    requires end - t <= MAXTIME
    ensures Weight(amount, end, t) <= amount
  {
    if end > t {
      var s := Slope(amount);
      assert s * (end - t) <= s * MAXTIME by {
        MulMonotone(s, end - t, MAXTIME);
      }
    }
  }

  /** The weight of a running lock falls by exactly one slope per second. */
  lemma WeightDecaysLinearly(amount: nat, end: int, t: int, d: nat)
    requires t + d <= end
    ensures Weight(amount, end, t) == Weight(amount, end, t + d) + Slope(amount) * d
  {
    if t + d < end {
      assert Slope(amount) * (end - t) == Slope(amount) * (end - (t + d)) + Slope(amount) * d;
    } else if d > 0 {
      assert end - t == d;
    }
  }

  /** Weight is non-increasing in time. */
  lemma WeightNonIncreasing(amount: nat, end: int, t: int, u: int)
    requires t <= u
    ensures Weight(amount, end, u) <= Weight(amount, end, t)
  {
    if end > u {
      MulMonotone(Slope(amount), end - u, end - t);
    }
  }

  lemma MulMonotone(a: nat, x: int, y: int)
    requires x <= y
    ensures a * x <= a * y
  {
    assert a * y - a * x == a * (y - x);
  }

  /** Every multiple of WEEK above `t` lies at or beyond the week boundary
      following `t`: no week boundary lies strictly between `t` and it. */
  lemma NextBoundary(e: int, t: int)
    requires e % WEEK == 0 && e > t
    ensures e >= FloorWeek(t) + WEEK
  {
    var f := FloorWeek(t);
    assert e == WEEK * (e / WEEK);
    assert f == WEEK * (t / WEEK);
    if e / WEEK <= t / WEEK {
      MulMonotone(WEEK, e / WEEK, t / WEEK);
      assert false;
    }
    MulMonotone(WEEK, t / WEEK + 1, e / WEEK);
  }

  /** The first week boundary strictly after `t`. */
  function NextWeek(t: int): (r: int)
    ensures r % WEEK == 0
    ensures t < r <= t + WEEK
    ensures r == FloorWeek(t) + WEEK
  {
    var f := FloorWeek(t);
    assert (f + WEEK) % WEEK == 0 by {
      assert f == WEEK * (f / WEEK);
      assert f + WEEK == WEEK * (f / WEEK + 1);
    }
    f + WEEK
  }

  /** Flooring keeps week boundaries fixed. */
  lemma FloorWeekOfBoundary(t: int)
    requires t % WEEK == 0
    ensures FloorWeek(t) == t
  {
  }
}

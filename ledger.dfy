/** The global checkpoint ledger: locks, checkpoints ("points"), the
    slope-change schedule, the reference oracle that says what the latest point
    and the schedule must be, the week-by-week replay, and the proofs that the
    replay and the per-lock adjustments keep the ledger equal to the oracle. */
module Ledger {
  import opened Decay

  /** A lock record: the locked amount and the (week-floored) end time. */
  datatype Lock = Lock(amount: nat, end: int)

  /** A global checkpoint: total weight (bias), total decay rate (slope) and
      the time it was taken. */
  datatype Point = Point(bias: int, slope: int, ts: int)

  /** The record every position id reads as before it is created. */
  const NoLock := Lock(0, 0)

  /** Slope-change schedule lookup; a missing key reads as 0. */
  function SlopeChangeAt(sc: map<int, int>, w: int): int
  {
    if w in sc then sc[w] else 0
  }

  function Max0(x: int): nat
  {
    if x < 0 then 0 else x
  }

  // ---------------------------------------------------------------------
  // Contribution of one lock seen at time t
  // ---------------------------------------------------------------------

  /** Decay rate a lock adds at time `t`: its slope while it runs, else 0. */
  function LiveSlope(l: Lock, t: int): nat
  {
    if l.end > t then Slope(l.amount) else 0
  }

  /** Weight a lock adds at time `t`. */
  function LiveBias(l: Lock, t: int): nat
  {
    Weight(l.amount, l.end, t)
  }

  /** Slope a lock that runs at `t` takes off the total when the replay
      crosses its end `w`. */
  function EndingSlope(l: Lock, t: int, w: int): nat
  {
    if l.end > t && l.end == w then Slope(l.amount) else 0
  }

  // ---------------------------------------------------------------------
  // The reference oracle: for the locks `ls` seen at time `t`, the latest
  // point must carry bias = sum slope*(end - t) and slope = sum slope over
  // the locks with end > t, and the schedule must hold, at each future end
  // w, minus the sum of the slopes of the running locks ending at w.
  // ---------------------------------------------------------------------

  function TotalBias(ls: seq<Lock>, t: int): nat
  {
    if ls == [] then 0 else TotalBias(ls[..|ls| - 1], t) + LiveBias(ls[|ls| - 1], t)
  }

  function TotalSlope(ls: seq<Lock>, t: int): nat
  {
    if ls == [] then 0 else TotalSlope(ls[..|ls| - 1], t) + LiveSlope(ls[|ls| - 1], t)
  }

  function SlopeChange(ls: seq<Lock>, t: int, w: int): int
  {
    if ls == [] then 0 else SlopeChange(ls[..|ls| - 1], t, w) - EndingSlope(ls[|ls| - 1], t, w)
  }

  function ReferencePoint(ls: seq<Lock>, t: int): Point
  {
    Point(TotalBias(ls, t), TotalSlope(ls, t), t)
  }

  /** Every lock end is a week boundary (0 included). */
  ghost predicate Aligned(ls: seq<Lock>)
  {
    forall i :: 0 <= i < |ls| ==> ls[i].end % WEEK == 0
  }

  /** The schedule holds nothing off week boundaries. */
  ghost predicate OffBoundaryZero(sc: map<int, int>)
  {
    forall w :: w % WEEK != 0 ==> SlopeChangeAt(sc, w) == 0
  }

  /** Point `p` and schedule `sc` agree with the oracle for `ls` at `p.ts`. */
  ghost predicate Consistent(ls: seq<Lock>, p: Point, sc: map<int, int>)
  {
    && p == ReferencePoint(ls, p.ts)
    && forall w :: w > p.ts ==> SlopeChangeAt(sc, w) == SlopeChange(ls, p.ts, w)
  }

  ghost predicate Chronological(hist: seq<Point>)
  {
    forall i :: 0 < i < |hist| ==> hist[i - 1].ts <= hist[i].ts
  }

  /** The ledger invariant kept by every operation of the escrow. */
  ghost predicate LedgerValid(ls: seq<Lock>, hist: seq<Point>, sc: map<int, int>)
  {
    && |hist| >= 1
    && Aligned(ls)
    && OffBoundaryZero(sc)
    && Chronological(hist)
    && Consistent(ls, hist[|hist| - 1], sc)
  }

  // ---------------------------------------------------------------------
  // Replay: walk the latest point forward week by week to `now`
  // ---------------------------------------------------------------------

  /** Decay `p` at its own slope up to time `u`, then add the slope change
      `d`; bias and slope are clamped at zero. */
  function Advance(p: Point, u: int, d: int): Point
  {
    Point(Max0(p.bias - p.slope * (u - p.ts)), Max0(p.slope + d), u)
  }

  /** The replay from `p` to `now`: at every week boundary w after `p.ts`
      and before `now` the point decays to w and takes the slope change
      recorded at w, and is kept as an intermediate checkpoint when that
      change is non-zero; a boundary equal to `now` applies its change
      without a checkpoint of its own; the final point is taken at `now`. */
  function Replay(p: Point, sc: map<int, int>, now: int): (r: (seq<Point>, Point))
    requires p.ts <= now
    ensures r.1.ts == now
    ensures forall i :: 0 <= i < |r.0| ==>
      && p.ts < r.0[i].ts < now
      && r.0[i].ts % WEEK == 0
      && SlopeChangeAt(sc, r.0[i].ts) != 0
    ensures forall i :: 0 < i < |r.0| ==> r.0[i - 1].ts < r.0[i].ts
    decreases now - p.ts
  {
    var w := NextWeek(p.ts);
    if w > now then
      ([], Advance(p, now, 0))
    else if w == now then
      ([], Advance(p, now, SlopeChangeAt(sc, w)))
    else
      var q := Advance(p, w, SlopeChangeAt(sc, w));
      var rest := Replay(q, sc, now);
      (if SlopeChangeAt(sc, w) != 0 then [q] + rest.0 else rest.0, rest.1)
  }

  /** The checkpoint history after a replay to `now`. */
  function CheckPoint(hist: seq<Point>, sc: map<int, int>, now: int): (r: seq<Point>)
    requires |hist| >= 1 && hist[|hist| - 1].ts <= now
    ensures |r| > |hist| && r[..|hist|] == hist && r[|r| - 1].ts == now
  {
    var rp := Replay(hist[|hist| - 1], sc, now);
    hist + rp.0 + [rp.1]
  }

  // ---------------------------------------------------------------------
  // Recording a change of one lock in the latest point and the schedule
  // ---------------------------------------------------------------------

  /** The latest point after lock `o` became `n`, at the point's own time:
      the old contribution is taken out and the new one put in. */
  function RecordPoint(p: Point, o: Lock, n: Lock): Point
  {
    Point(Max0(p.bias - LiveBias(o, p.ts) + LiveBias(n, p.ts)),
          Max0(p.slope - LiveSlope(o, p.ts) + LiveSlope(n, p.ts)),
          p.ts)
  }

  /** The schedule after lock `o` became `n` at time `now`: a running old
      lock gives its slope back at its old end, a running new lock takes its
      slope off at its new end. */
  function RecordSlopeChanges(sc: map<int, int>, o: Lock, n: Lock, now: int): map<int, int>
  {
    var sc1 := if o.end > now then sc[o.end := SlopeChangeAt(sc, o.end) + Slope(o.amount)] else sc;
    if n.end > now then sc1[n.end := SlopeChangeAt(sc1, n.end) - Slope(n.amount)] else sc1
  }

  // ---------------------------------------------------------------------
  // Lemmas
  // ---------------------------------------------------------------------

  /** Between `t` and `u`, with no lock ending strictly inside, the totals
      move exactly as the replay moves them: bias falls by slope*(u-t) and
      the slope falls by the slopes of the locks ending at `u`. */
  lemma {:induction false} StepMatchesOracle(ls: seq<Lock>, t: int, u: int)
    requires t <= u
    requires forall i :: 0 <= i < |ls| ==> !(t < ls[i].end < u)
    ensures TotalBias(ls, t) - TotalSlope(ls, t) * (u - t) == TotalBias(ls, u)
    ensures TotalSlope(ls, t) + SlopeChange(ls, t, u) == TotalSlope(ls, u)
  {
    if ls != [] {
      var init, l := ls[..|ls| - 1], ls[|ls| - 1];
      assert forall i :: 0 <= i < |init| ==> init[i] == ls[i];
      StepMatchesOracle(init, t, u);
      LockStep(l, t, u);
      SumStep(TotalBias(init, t), TotalBias(init, u), LiveBias(l, t), LiveBias(l, u),
              TotalSlope(init, t), LiveSlope(l, t), u - t);
    }
  }

  lemma SumStep(b0: int, b1: int, c0: int, c1: int, a: int, s: int, d: int)
    requires b0 - a * d == b1 && c0 - s * d == c1
    ensures (b0 + c0) - (a + s) * d == b1 + c1
  {
    assert (a + s) * d == a * d + s * d;
  }

  /** One lock that does not end strictly between `t` and `u`. */
  lemma LockStep(l: Lock, t: int, u: int)
    requires t <= u && !(t < l.end < u)
    ensures LiveBias(l, t) - LiveSlope(l, t) * (u - t) == LiveBias(l, u)
    ensures LiveSlope(l, t) - EndingSlope(l, t, u) == LiveSlope(l, u)
  {
    if l.end > t {
      WeightDecaysLinearly(l.amount, l.end, t, u - t);
    }
  }

  /** The scheduled change at a future boundary `w` does not depend on the
      moment before `w` at which the oracle is consulted. */
  lemma {:induction false} SlopeChangeStable(ls: seq<Lock>, t: int, t2: int, w: int)
    requires t <= t2 < w
    ensures SlopeChange(ls, t, w) == SlopeChange(ls, t2, w)
  {
    if ls != [] {
      SlopeChangeStable(ls[..|ls| - 1], t, t2, w);
    }
  }

  /** No running lock ends at `u`: nothing is scheduled there. */
  lemma {:induction false} SlopeChangeZero(ls: seq<Lock>, t: int, u: int)
    requires forall i :: 0 <= i < |ls| ==> ls[i].end != u || ls[i].end <= t
    ensures SlopeChange(ls, t, u) == 0
  {
    if ls != [] {
      var init := ls[..|ls| - 1];
      assert forall i :: 0 <= i < |init| ==> init[i] == ls[i];
      SlopeChangeZero(init, t, u);
    }
  }

  /** The oracle holds nothing at a timestamp that is not a week boundary. */
  lemma {:induction false} SlopeChangeOffBoundary(ls: seq<Lock>, t: int, w: int)
    requires Aligned(ls) && w % WEEK != 0
    ensures SlopeChange(ls, t, w) == 0
  {
    SlopeChangeZero(ls, t, w);
  }

  /** With aligned ends, no lock ends strictly between `t` and the next week
      boundary. */
  lemma NoEndBeforeNextBoundary(ls: seq<Lock>, t: int)
    requires Aligned(ls)
    ensures forall i :: 0 <= i < |ls| ==> !(t < ls[i].end < FloorWeek(t) + WEEK)
  {
    forall i | 0 <= i < |ls| && t < ls[i].end
      ensures ls[i].end >= FloorWeek(t) + WEEK
    {
      NextBoundary(ls[i].end, t);
    }
  }

  /** Consistency seen from a later moment before the next boundary: the
      schedule entries beyond it are unchanged. */
  lemma ScheduleStillConsistent(ls: seq<Lock>, sc: map<int, int>, t: int, u: int)
    requires t <= u
    requires forall w :: w > t ==> SlopeChangeAt(sc, w) == SlopeChange(ls, t, w)
    ensures forall w :: w > u ==> SlopeChangeAt(sc, w) == SlopeChange(ls, u, w)
  {
    forall w | w > u
      ensures SlopeChangeAt(sc, w) == SlopeChange(ls, u, w)
    {
      SlopeChangeStable(ls, t, u, w);
    }
  }

  /** Replaying a point that agrees with the oracle yields, at every
      intermediate boundary and at `now`, exactly the oracle's point, and the
      schedule stays consistent with the final point. */
  lemma {:induction false} ReplayMatchesOracle(ls: seq<Lock>, p: Point, sc: map<int, int>, now: int)
    requires Aligned(ls) && Consistent(ls, p, sc) && p.ts <= now
    ensures Consistent(ls, Replay(p, sc, now).1, sc)
    ensures forall i :: 0 <= i < |Replay(p, sc, now).0| ==>
      Replay(p, sc, now).0[i] == ReferencePoint(ls, Replay(p, sc, now).0[i].ts)
    decreases now - p.ts
  {
    var w := NextWeek(p.ts);
    NoEndBeforeNextBoundary(ls, p.ts);
    if w > now {
      StepMatchesOracle(ls, p.ts, now);
      SlopeChangeZero(ls, p.ts, now);
      ScheduleStillConsistent(ls, sc, p.ts, now);
    } else {
      StepMatchesOracle(ls, p.ts, w);
      ScheduleStillConsistent(ls, sc, p.ts, w);
      if w < now {
        var q := Advance(p, w, SlopeChangeAt(sc, w));
        assert q == ReferencePoint(ls, w);
        ReplayMatchesOracle(ls, q, sc, now);
      }
    }
  }

  /** The intermediate checkpoints of a replay are exactly the week
      boundaries strictly between `p.ts` and `now` whose scheduled change is
      non-zero: one extra epoch per such boundary crossed, none for the
      others and none for a boundary equal to `now`. */
  lemma {:induction false} ReplayVisitsChangedBoundaries(p: Point, sc: map<int, int>, now: int, w: int)
    requires p.ts <= now
    ensures (exists j :: 0 <= j < |Replay(p, sc, now).0| && Replay(p, sc, now).0[j].ts == w)
      <==> (p.ts < w < now && w % WEEK == 0 && SlopeChangeAt(sc, w) != 0)
    decreases now - p.ts
  {
    var r := Replay(p, sc, now);
    var b := NextWeek(p.ts);
    if p.ts < w < now && w % WEEK == 0 && SlopeChangeAt(sc, w) != 0 {
      NextBoundary(w, p.ts);
      var q := Advance(p, b, SlopeChangeAt(sc, b));
      if w == b {
        assert r.0[0].ts == w;
      } else {
        ReplayVisitsChangedBoundaries(q, sc, now, w);
        var j :| 0 <= j < |Replay(q, sc, now).0| && Replay(q, sc, now).0[j].ts == w;
        if SlopeChangeAt(sc, b) != 0 {
          assert r.0[j + 1].ts == w;
        } else {
          assert r.0[j].ts == w;
        }
      }
    }
  }

  /** The checkpoint history grows by the replay and keeps the invariant. */
  lemma CheckPointKeepsLedger(ls: seq<Lock>, hist: seq<Point>, sc: map<int, int>, now: int)
    requires LedgerValid(ls, hist, sc) && hist[|hist| - 1].ts <= now
    ensures LedgerValid(ls, CheckPoint(hist, sc, now), sc)
    ensures CheckPoint(hist, sc, now)[|CheckPoint(hist, sc, now)| - 1] == ReferencePoint(ls, now)
  {
    var p := hist[|hist| - 1];
    var rp := Replay(p, sc, now);
    ReplayMatchesOracle(ls, p, sc, now);
    var h := CheckPoint(hist, sc, now);
    assert h == hist + rp.0 + [rp.1];
    forall i | 0 < i < |h|
      ensures h[i - 1].ts <= h[i].ts
    {
      if i < |hist| {
        assert h[i - 1] == hist[i - 1] && h[i] == hist[i];
      } else if i == |hist| {
        assert h[i - 1] == p;
      } else {
        assert h[i - 1].ts <= now;
      }
    }
  }

  /** Replacing one lock changes each total by the difference of that
      lock's old and new contributions. */
  lemma {:induction false} TotalsAfterUpdate(ls: seq<Lock>, k: nat, n: Lock, t: int, w: int)
    requires k < |ls|
    ensures TotalBias(ls[k := n], t) == TotalBias(ls, t) - LiveBias(ls[k], t) + LiveBias(n, t)
    ensures TotalSlope(ls[k := n], t) == TotalSlope(ls, t) - LiveSlope(ls[k], t) + LiveSlope(n, t)
    ensures SlopeChange(ls[k := n], t, w)
      == SlopeChange(ls, t, w) + EndingSlope(ls[k], t, w) - EndingSlope(n, t, w)
  {
    var m := |ls| - 1;
    var ls' := ls[k := n];
    assert ls'[..m] == if k == m then ls[..m] else ls[..m][k := n];
    if k < m {
      TotalsAfterUpdate(ls[..m], k, n, t, w);
    }
  }

  /** A fresh id reads as the empty lock, which adds nothing at any time
      from 0 on. */
  lemma TotalsWithEmptyLock(ls: seq<Lock>, t: int, w: int)
    requires t >= 0
    ensures TotalBias(ls + [NoLock], t) == TotalBias(ls, t)
    ensures TotalSlope(ls + [NoLock], t) == TotalSlope(ls, t)
    ensures SlopeChange(ls + [NoLock], t, w) == SlopeChange(ls, t, w)
  {
    assert (ls + [NoLock])[..|ls|] == ls;
  }

  /** Recording the change of lock `k` from `ls[k]` to `n` in the latest
      point and the schedule keeps them equal to the oracle for the new
      locks. */
  lemma RecordMatchesOracle(ls: seq<Lock>, p: Point, sc: map<int, int>, k: nat, n: Lock)
    requires k < |ls| && Consistent(ls, p, sc)
    ensures Consistent(ls[k := n], RecordPoint(p, ls[k], n), RecordSlopeChanges(sc, ls[k], n, p.ts))
  {
    var now := p.ts;
    TotalsAfterUpdate(ls, k, n, now, 0);
    var sc' := RecordSlopeChanges(sc, ls[k], n, now);
    forall w | w > now
      ensures SlopeChangeAt(sc', w) == SlopeChange(ls[k := n], now, w)
    {
      TotalsAfterUpdate(ls, k, n, now, w);
    }
  }

  /** The ledger invariant survives recording a change of lock `k` to a
      lock `n` whose end is a week boundary, at the time of the latest
      point. */
  lemma RecordKeepsLedger(ls: seq<Lock>, hist: seq<Point>, sc: map<int, int>, k: nat, n: Lock)
    requires LedgerValid(ls, hist, sc) && k < |ls| && n.end % WEEK == 0
    ensures LedgerValid(ls[k := n],
                        hist[|hist| - 1 := RecordPoint(hist[|hist| - 1], ls[k], n)],
                        RecordSlopeChanges(sc, ls[k], n, hist[|hist| - 1].ts))
  {
    var p := hist[|hist| - 1];
    RecordMatchesOracle(ls, p, sc, k, n);
    var h := hist[|hist| - 1 := RecordPoint(p, ls[k], n)];
    forall i | 0 < i < |h|
      ensures h[i - 1].ts <= h[i].ts
    {
      assert h[i - 1].ts == hist[i - 1].ts && h[i].ts == hist[i].ts;
    }
    var ls' := ls[k := n];
    forall i | 0 <= i < |ls'|
      ensures ls'[i].end % WEEK == 0
    {
      if i != k { assert ls'[i] == ls[i]; }
    }
    var sc' := RecordSlopeChanges(sc, ls[k], n, p.ts);
    assert ls[k].end % WEEK == 0;
    forall w | w % WEEK != 0
      ensures SlopeChangeAt(sc', w) == 0
    {
      assert SlopeChangeAt(sc, w) == 0;
    }
  }

  /** The ledger invariant survives opening a fresh id, which reads as the
      empty lock until it is recorded. */
  lemma AppendKeepsLedger(ls: seq<Lock>, hist: seq<Point>, sc: map<int, int>)
    requires LedgerValid(ls, hist, sc) && hist[|hist| - 1].ts >= 0
    ensures LedgerValid(ls + [NoLock], hist, sc)
  {
    var t := hist[|hist| - 1].ts;
    TotalsWithEmptyLock(ls, t, 0);
    forall w | w > t
      ensures SlopeChangeAt(sc, w) == SlopeChange(ls + [NoLock], t, w)
    {
      TotalsWithEmptyLock(ls, t, w);
    }
  }

  /** One lock change made at time `now`: the history is first brought up to
      `now`, then lock `k` becomes `n` and the latest point and the schedule
      take the change. */
  function UpdateLock(ls: seq<Lock>, hist: seq<Point>, sc: map<int, int>, k: nat, n: Lock, now: int)
    : (r: (seq<Lock>, seq<Point>, map<int, int>))
    requires |hist| >= 1 && hist[|hist| - 1].ts <= now && k < |ls|
    ensures r.0 == ls[k := n]
    ensures |r.1| > |hist| && r.1[..|hist|] == hist && r.1[|r.1| - 1].ts == now
  {
    var h := CheckPoint(hist, sc, now);
    (ls[k := n], h[|h| - 1 := RecordPoint(h[|h| - 1], ls[k], n)], RecordSlopeChanges(sc, ls[k], n, now))
  }

  /** A lock change keeps the ledger invariant, and afterwards the latest
      point is the oracle's point at `now` for the new locks. */
  lemma UpdateLockKeepsLedger(ls: seq<Lock>, hist: seq<Point>, sc: map<int, int>, k: nat, n: Lock, now: int)
    requires LedgerValid(ls, hist, sc) && hist[|hist| - 1].ts <= now && k < |ls| && n.end % WEEK == 0
    ensures LedgerValid(UpdateLock(ls, hist, sc, k, n, now).0, UpdateLock(ls, hist, sc, k, n, now).1,
                        UpdateLock(ls, hist, sc, k, n, now).2)
    ensures UpdateLock(ls, hist, sc, k, n, now).1[|UpdateLock(ls, hist, sc, k, n, now).1| - 1]
            == ReferencePoint(ls[k := n], now)
  {
    CheckPointKeepsLedger(ls, hist, sc, now);
    RecordKeepsLedger(ls, CheckPoint(hist, sc, now), sc, k, n);
  }

  // ---------------------------------------------------------------------
  // Epoch counting
  // ---------------------------------------------------------------------

  /** Number of week boundaries strictly between `a` and `b` whose
      scheduled change is non-zero. */
  function ChangedBetween(sc: map<int, int>, a: int, b: int): nat
    decreases b - a
  {
    var w := NextWeek(a);
    if w >= b then 0 else (if SlopeChangeAt(sc, w) != 0 then 1 else 0) + ChangedBetween(sc, w, b)
  }

  /** A replay adds one intermediate checkpoint per changed boundary it
      crosses, so a call at `now` raises the epoch by that count plus one. */
  lemma {:induction false} ReplayLength(p: Point, sc: map<int, int>, now: int)
    requires p.ts <= now
    ensures |Replay(p, sc, now).0| == ChangedBetween(sc, p.ts, now)
    decreases now - p.ts
  {
    var w := NextWeek(p.ts);
    if w < now {
      ReplayLength(Advance(p, w, SlopeChangeAt(sc, w)), sc, now);
    }
  }

  /** Counting changed boundaries splits at a boundary `c` in between. */
  lemma {:induction false} ChangedBetweenSplit(sc: map<int, int>, a: int, c: int, b: int)
    requires a < c < b && c % WEEK == 0
    ensures ChangedBetween(sc, a, b)
         == ChangedBetween(sc, a, c) + (if SlopeChangeAt(sc, c) != 0 then 1 else 0) + ChangedBetween(sc, c, b)
    decreases c - a
  {
    var w := NextWeek(a);
    NextBoundary(c, a);
    if w < c {
      ChangedBetweenSplit(sc, w, c, b);
    }
  }

  /** No changed boundary in between: nothing is counted. */
  lemma {:induction false} ChangedBetweenNone(sc: map<int, int>, a: int, b: int)
    requires forall w :: a < w < b && w % WEEK == 0 ==> SlopeChangeAt(sc, w) == 0
    ensures ChangedBetween(sc, a, b) == 0
    decreases b - a
  {
    var w := NextWeek(a);
    if w < b {
      ChangedBetweenNone(sc, w, b);
    }
  }

  /** The closing `checkPoint()` of the checkpoint walk-through: the
      latest point is epoch 15 (lock 14, taken in week 11), the schedule
      holds non-zero changes at weeks 20, 25 and 30 and nothing else before
      week 32; a checkpoint at week 32 adds the three boundary points and
      the final one, which lands at epoch 19. */
  lemma CheckPointWalkThroughEpoch(hist: seq<Point>, sc: map<int, int>, start: int)
    requires start % WEEK == 0 && |hist| - 1 == 15
    requires hist[15].ts == start + 11 * WEEK + 3 * 86400
    requires SlopeChangeAt(sc, start + 20 * WEEK) != 0
    requires SlopeChangeAt(sc, start + 25 * WEEK) != 0
    requires SlopeChangeAt(sc, start + 30 * WEEK) != 0
    requires forall w :: hist[15].ts < w < start + 32 * WEEK && w % WEEK == 0
               && w != start + 20 * WEEK && w != start + 25 * WEEK && w != start + 30 * WEEK
               ==> SlopeChangeAt(sc, w) == 0
    ensures |CheckPoint(hist, sc, start + 32 * WEEK)| - 1 == 19
  {
    var t0, now := hist[15].ts, start + 32 * WEEK;
    var w20, w25, w30 := start + 20 * WEEK, start + 25 * WEEK, start + 30 * WEEK;
    assert w20 % WEEK == 0 && w25 % WEEK == 0 && w30 % WEEK == 0 by {
      assert w20 == WEEK * (start / WEEK + 20);
      assert w25 == WEEK * (start / WEEK + 25);
      assert w30 == WEEK * (start / WEEK + 30);
    }
    ReplayLength(hist[15], sc, now);
    ChangedBetweenSplit(sc, t0, w20, now);
    ChangedBetweenSplit(sc, w20, w25, now);
    ChangedBetweenSplit(sc, w25, w30, now);
    ChangedBetweenNone(sc, t0, w20);
    ChangedBetweenNone(sc, w20, w25);
    ChangedBetweenNone(sc, w25, w30);
    ChangedBetweenNone(sc, w30, now);
  }

  /** A `createLock` at `now` when no existing lock ends strictly between
      the latest point and `now`: exactly one epoch is added, and it carries
      the previous bias decayed at the previous slope plus the new lock's
      weight, and the previous slope, minus the slopes of the locks ending
      exactly at `now`, plus the new lock's slope. */
  lemma CreateLockOneEpoch(ls: seq<Lock>, hist: seq<Point>, sc: map<int, int>, n: Lock, now: int)
    requires LedgerValid(ls, hist, sc) && 0 <= hist[|hist| - 1].ts <= now && n.end % WEEK == 0
    requires forall i :: 0 <= i < |ls| ==> !(hist[|hist| - 1].ts < ls[i].end < now)
    ensures var p, r := hist[|hist| - 1], UpdateLock(ls + [NoLock], hist, sc, |ls|, n, now);
      && |r.1| == |hist| + 1
      && r.1[|hist|] == Point(p.bias - p.slope * (now - p.ts) + Weight(n.amount, n.end, now),
                              p.slope + (if now > p.ts then SlopeChangeAt(sc, now) else 0) + LiveSlope(n, now),
                              now)
  {
    var p := hist[|hist| - 1];
    AppendKeepsLedger(ls, hist, sc);
    UpdateLockKeepsLedger(ls + [NoLock], hist, sc, |ls|, n, now);
    assert (ls + [NoLock])[|ls| := n] == ls + [n];
    assert (ls + [n])[..|ls|] == ls;
    StepMatchesOracle(ls, p.ts, now);
    if now == p.ts {
      SlopeChangeZero(ls, p.ts, now);
    }
    forall w | p.ts < w < now && w % WEEK == 0
      ensures SlopeChangeAt(sc, w) == 0
    {
      SlopeChangeZero(ls, p.ts, w);
    }
    ChangedBetweenNone(sc, p.ts, now);
    ReplayLength(p, sc, now);
  }
}

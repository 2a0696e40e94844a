/** The reward accumulator of the staking pool: rewards are emitted per
    block, shared by the staked locked amounts through a Q128 fixed-point
    "reward per share" accumulator, and paid to a staker in proportion to
    the weight it had when it last settled. */
module Reward {
  /** Fixed-point scale of the accumulator, 2^128. */
  const Q128: nat := 0x1_0000_0000_0000_0000_0000_0000_0000_0000

  /** The single global reward record. */
  datatype RewardInfo = RewardInfo(
    provider: nat,
    accRewardPerShare: nat,
    rewardPerBlock: nat,
    lastTouchBlock: nat,
    startBlock: nat,
    endBlock: nat)

  /** Per-position staking record; `stakingId == 0` means "not staked". */
  datatype StakingStatus = StakingStatus(
    stakingId: nat,
    lockAmount: nat,
    lastVeiZi: nat,
    lastTouchBlock: nat,
    lastTouchAccRewardPerShare: nat)

  /** Increase of the accumulator when `blocks` blocks of emission are shared
      by `stakeiZiAmount` staked tokens (floor division); nothing accrues
      while nothing is staked. */
  function AccDelta(rewardPerBlock: nat, blocks: nat, stakeiZiAmount: nat): (r: nat)
    ensures stakeiZiAmount == 0 ==> r == 0
    ensures stakeiZiAmount > 0 ==>
      r * stakeiZiAmount <= rewardPerBlock * blocks * Q128 < (r + 1) * stakeiZiAmount
  {
    if stakeiZiAmount == 0 then 0 else rewardPerBlock * blocks * Q128 / stakeiZiAmount
  }

  /** Reward owed to a position of weight `lastVeiZi` for the accumulator
      moving from `lastAcc` to `acc` (floor division). */
  function Pending(lastVeiZi: nat, acc: nat, lastAcc: nat): (r: nat)
    requires lastAcc <= acc
    ensures r * Q128 <= lastVeiZi * (acc - lastAcc) < (r + 1) * Q128
  {
    lastVeiZi * (acc - lastAcc) / Q128
  }

  function Min(a: nat, b: nat): nat
  {
    if a <= b then a else b
  }

  function Max(a: nat, b: nat): nat
  {
    if a <= b then b else a
  }

  /** Lazy update of the accumulator at block `block`: the blocks since the
      last touch, capped at `endBlock`, are credited to the accumulator
      (when something is staked) and the touch point moves up to them. */
  function Touch(info: RewardInfo, stakeiZiAmount: nat, block: nat): (r: RewardInfo)
    ensures r.lastTouchBlock == Max(info.lastTouchBlock, Min(block, info.endBlock))
    ensures r.accRewardPerShare
      == info.accRewardPerShare
         + AccDelta(info.rewardPerBlock, r.lastTouchBlock - info.lastTouchBlock, stakeiZiAmount)
    ensures r == info.(accRewardPerShare := r.accRewardPerShare, lastTouchBlock := r.lastTouchBlock)
  {
    if block > info.lastTouchBlock && info.lastTouchBlock < info.endBlock then
      var cur := Min(block, info.endBlock);
      info.(accRewardPerShare := info.accRewardPerShare
              + AccDelta(info.rewardPerBlock, cur - info.lastTouchBlock, stakeiZiAmount),
            lastTouchBlock := cur)
    else
      info
  }

  /** A touch never moves the touch point backward, never beyond the current
      block or the end block, and never lowers the accumulator. */
  lemma TouchMonotone(info: RewardInfo, stakeiZiAmount: nat, block: nat)
    ensures Touch(info, stakeiZiAmount, block).lastTouchBlock >= info.lastTouchBlock
    ensures Touch(info, stakeiZiAmount, block).accRewardPerShare >= info.accRewardPerShare
    ensures Touch(info, stakeiZiAmount, block).lastTouchBlock > info.lastTouchBlock ==>
      Touch(info, stakeiZiAmount, block).lastTouchBlock <= block
      && Touch(info, stakeiZiAmount, block).lastTouchBlock <= info.endBlock
  {
  }

  /** Touching twice in the same block is touching once. */
  lemma TouchIdempotent(info: RewardInfo, stakeiZiAmount: nat, block: nat)
    ensures Touch(Touch(info, stakeiZiAmount, block), stakeiZiAmount, block)
         == Touch(info, stakeiZiAmount, block)
  {
  }

  /** Once the touch point has reached the end block, no block adds anything. */
  lemma NoAccrualAfterEnd(info: RewardInfo, stakeiZiAmount: nat, block: nat)
    requires info.lastTouchBlock >= info.endBlock
    ensures Touch(info, stakeiZiAmount, block) == info
  {
  }

  /** A position whose weight does not exceed the staked total is owed at
      most the emission of the blocks the accumulator moved over. */
  lemma {:induction false} PendingWithinEmission(
    lastVeiZi: nat, acc: nat, rewardPerBlock: nat, blocks: nat, stakeiZiAmount: nat)
    requires lastVeiZi <= stakeiZiAmount
    ensures Pending(lastVeiZi, acc + AccDelta(rewardPerBlock, blocks, stakeiZiAmount), acc)
            <= rewardPerBlock * blocks
  {
    var d := AccDelta(rewardPerBlock, blocks, stakeiZiAmount);
    var e := rewardPerBlock * blocks;
    var p := Pending(lastVeiZi, acc + d, acc);
    if stakeiZiAmount > 0 {
      assert lastVeiZi * d <= stakeiZiAmount * d by {
        MulLeft(d, lastVeiZi, stakeiZiAmount);
      }
      assert p * Q128 <= e * Q128;
    }
  }

  /** The rewards owed to several positions over one accumulator step add up
      to at most the emission when their weights add up to at most the
      staked total. */
  lemma {:induction false} TotalPendingWithinEmission(
    weights: seq<nat>, acc: nat, rewardPerBlock: nat, blocks: nat, stakeiZiAmount: nat)
    requires Sum(weights) <= stakeiZiAmount
    ensures PendingSum(weights, acc, acc + AccDelta(rewardPerBlock, blocks, stakeiZiAmount))
            <= rewardPerBlock * blocks
  {
    var d := AccDelta(rewardPerBlock, blocks, stakeiZiAmount);
    var s := Sum(weights);
    PendingSumBelowPooled(weights, acc, acc + d);
    if s > 0 {
      PendingWithinEmission(s, acc, rewardPerBlock, blocks, stakeiZiAmount);
    }
  }

  function Sum(xs: seq<nat>): nat
  {
    if xs == [] then 0 else Sum(xs[..|xs| - 1]) + xs[|xs| - 1]
  }

  function PendingSum(weights: seq<nat>, lastAcc: nat, acc: nat): nat
    requires lastAcc <= acc
  {
    if weights == [] then 0
    else PendingSum(weights[..|weights| - 1], lastAcc, acc) + Pending(weights[|weights| - 1], acc, lastAcc)
  }

  /** Flooring each share separately never pays more than flooring the pooled
      weight once. */
  lemma {:induction false} PendingSumBelowPooled(weights: seq<nat>, lastAcc: nat, acc: nat)
    requires lastAcc <= acc
    ensures PendingSum(weights, lastAcc, acc) <= Pending(Sum(weights), acc, lastAcc)
  {
    if weights != [] {
      var init, w := weights[..|weights| - 1], weights[|weights| - 1];
      PendingSumBelowPooled(init, lastAcc, acc);
      var d := acc - lastAcc;
      var a, b := Pending(Sum(init), acc, lastAcc), Pending(w, acc, lastAcc);
      assert (a + b) * Q128 <= (Sum(init) + w) * d by {
        assert (a + b) * Q128 == a * Q128 + b * Q128;
        assert (Sum(init) + w) * d == Sum(init) * d + w * d;
      }
    }
  }

  lemma MulLeft(a: nat, x: nat, y: nat)
    requires x <= y
    ensures x * a <= y * a && a * x <= a * y
  {
    assert y * a - x * a == (y - x) * a;
  }
}
